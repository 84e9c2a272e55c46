/** Inventor links and their credit order: src/services/patents/relations.js. */
module Relations {
  import opened Wrappers
  import opened Sequences
  import opened Events
  import opened ObjectKeys

  /** One entry of the request body; validation lets through ids of digits that denote a positive number. */
  datatype InventorEntry = InventorEntry(inventorId: string, order: Option<int>)

  predicate ValidEntries(entries: seq<InventorEntry>) {
    forall i :: 0 <= i < |entries| ==> IsNumeral(entries[i].inventorId) && NumeralValue(entries[i].inventorId) > 0
  }

  datatype RelationError = ListedTwice | UnknownIds | MixedOrders | NotContiguous

  function SpelledIds(entries: seq<InventorEntry>): seq<string> {
    seq(|entries|, i requires 0 <= i < |entries| => entries[i].inventorId)
  }

  function Orders(entries: seq<InventorEntry>): seq<int> {
    seq(|entries|, i requires 0 <= i < |entries| => entries[i].order.GetOr(i + 1))
  }

  predicate AtMost(x: int, y: int) {
    x <= y
  }

  /** The sort-and-compare check. */
  predicate Contiguous(orders: seq<int>) {
    var sorted := Sort(orders, AtMost);
    forall i :: 0 <= i < |sorted| ==> sorted[i] == i + 1
  }

  predicate AllOrNone(entries: seq<InventorEntry>) {
    || (forall i :: 0 <= i < |entries| ==> entries[i].order.Some?)
    || (forall i :: 0 <= i < |entries| ==> entries[i].order.None?)
  }

  function LinksOf(entries: seq<InventorEntry>): seq<Link>
    requires ValidEntries(entries)
  {
    seq(|entries|, i requires 0 <= i < |entries| =>
      Link(NumeralValue(entries[i].inventorId), entries[i].order.GetOr(i + 1)))
  }

  predicate AllKnown(entries: seq<InventorEntry>, known: set<nat>)
    requires ValidEntries(entries)
  {
    forall i :: 0 <= i < |entries| ==> NumeralValue(entries[i].inventorId) in known
  }

  /** What `resolveInventorLinks` answers: the checks in the order they are made. */
  function Resolved(entries: seq<InventorEntry>, known: set<nat>): Result<seq<Link>, RelationError>
    requires ValidEntries(entries)
  {
    if !Distinct(SpelledIds(entries)) then Failure(ListedTwice)
    else if !AllKnown(entries, known) then Failure(UnknownIds)
    else if !AllOrNone(entries) then Failure(MixedOrders)
    else if !Contiguous(Orders(entries)) then Failure(NotContiguous)
    else Success(LinksOf(entries))
  }

  // ---------------------------------------------------------------- the code

  /** Each entry's inventor, in the place asked for: the order given, or the position in the list, from 1. */
  predicate AsAsked(links: seq<Link>, entries: seq<InventorEntry>)
    requires ValidEntries(entries)
  {
    && |links| == |entries|
    && forall i :: 0 <= i < |entries| ==>
         && links[i].inventorId == NumeralValue(entries[i].inventorId)
         && (entries[i].order.Some? ==> links[i].inventorOrder == entries[i].order.value)
         && (entries[i].order.None? ==> links[i].inventorOrder == i + 1)
  }

  /** Two sets filled in one pass: the values seen, and those seen again. */
  method FindDuplicates(values: seq<string>) returns (duplicates: set<string>)
    ensures forall v :: v in duplicates <==> exists i, j :: 0 <= i < j < |values| && values[i] == v && values[j] == v
    ensures duplicates == {} <==> Distinct(values)
  {
    var seen: set<string> := {};
    duplicates := {};
    for k := 0 to |values|
      invariant forall v :: v in seen <==> v in values[..k]
      invariant forall v :: v in duplicates <==> exists i, j :: 0 <= i < j < k && values[i] == v && values[j] == v
    {
      if values[k] in seen {
        duplicates := duplicates + {values[k]};
      } else {
        seen := seen + {values[k]};
      }
    }
    if duplicates == {} {
      forall i, j | 0 <= i < j < |values| ensures values[i] != values[j] {
        assert values[i] !in duplicates;
      }
    }
  }

  method ResolveInventorLinks(entries: seq<InventorEntry>, known: set<nat>)
    returns (r: Result<seq<Link>, RelationError>)
    requires ValidEntries(entries)
    ensures r == Resolved(entries, known)
    ensures r.Success? ==> AsAsked(r.value, entries)
    ensures r == Failure(ListedTwice) <==>
              exists i, j :: 0 <= i < j < |entries| && entries[i].inventorId == entries[j].inventorId
    ensures r == Failure(UnknownIds) <==>
              && (forall i, j :: 0 <= i < j < |entries| ==> entries[i].inventorId != entries[j].inventorId)
              && exists i :: 0 <= i < |entries| && NumeralValue(entries[i].inventorId) !in known
  {
    var duplicates := FindDuplicates(SpelledIds(entries));
    assert forall i :: 0 <= i < |entries| ==> SpelledIds(entries)[i] == entries[i].inventorId;
    if duplicates != {} {
      return Failure(ListedTwice);
    }
    if exists i :: 0 <= i < |entries| && NumeralValue(entries[i].inventorId) !in known {
      return Failure(UnknownIds);
    }
    var explicit := 0;
    for k := 0 to |entries|
      invariant 0 <= explicit <= k
      invariant explicit == k <==> forall i :: 0 <= i < k ==> entries[i].order.Some?
      invariant explicit == 0 <==> forall i :: 0 <= i < k ==> entries[i].order.None?
    {
      if entries[k].order.Some? {
        explicit := explicit + 1;
      }
    }
    if explicit != 0 && explicit != |entries| {
      return Failure(MixedOrders);
    }
    if !Contiguous(Orders(entries)) {
      return Failure(NotContiguous);
    }
    return Success(LinksOf(entries));
  }

  // ---------------------------------------------------------------- sorting

  predicate IsSorted(s: seq<int>) {
    forall i, j :: 0 <= i < j < |s| ==> s[i] <= s[j]
  }

  lemma SortedOrders(s: seq<int>)
    ensures IsSorted(Sort(s, AtMost)) && multiset(Sort(s, AtMost)) == multiset(s) && |Sort(s, AtMost)| == |s|
  {
    SortSorts(s, AtMost);
    SortPermutes(s, AtMost);
  }

  lemma {:induction false} DistinctCounts(s: seq<int>)
    ensures Distinct(s) <==> forall v :: v in multiset(s) ==> multiset(s)[v] == 1
  {
    if s != [] {
      var rest := s[1..];
      DistinctCounts(rest);
      assert s == [s[0]] + rest;
      assert multiset(s) == multiset{s[0]} + multiset(rest);
      if Distinct(s) {
        assert Distinct(rest);
        assert s[0] !in rest;
      } else {
        if i, j :| 0 <= i < j < |s| && s[i] == s[j] {
          if i == 0 {
            assert rest[j - 1] == s[0];
            assert multiset(s)[s[0]] >= 2;
          } else {
            assert rest[i - 1] == rest[j - 1];
            var v :| v in multiset(rest) && multiset(rest)[v] != 1;
            assert multiset(s)[v] >= 2;
          }
        }
      }
    }
  }

  /** 1 to n, each exactly once. */
  predicate IsPermutation(orders: seq<int>) {
    Distinct(orders) && forall i :: 0 <= i < |orders| ==> 1 <= orders[i] <= |orders|
  }

  /** Sorted distinct numbers from `lo` up leave no room below or above. */
  lemma {:induction false} StrictlyIncreasingFills(s: seq<int>, n: nat)
    requires IsSorted(s) && Distinct(s) && |s| <= n
    requires forall i :: 0 <= i < |s| ==> n - |s| + 1 <= s[i] <= n
    ensures forall i :: 0 <= i < |s| ==> s[i] == n - |s| + 1 + i
  {
    if s != [] {
      var last := |s| - 1;
      var init := s[..last];
      LastIsTop(s, n);
      assert forall i :: 0 <= i < last ==> init[i] < s[last];
      StrictlyIncreasingFills(init, n - 1);
    }
  }

  lemma {:induction false} LastIsTop(s: seq<int>, n: nat)
    requires IsSorted(s) && Distinct(s) && s != []
    requires forall i :: 0 <= i < |s| ==> n - |s| + 1 <= s[i] <= n
    ensures s[|s| - 1] == n
  {
    RisesByOne(s, |s| - 1);
  }

  lemma {:induction false} RisesByOne(s: seq<int>, k: nat)
    requires IsSorted(s) && Distinct(s) && k < |s|
    ensures s[k] >= s[0] + k
  {
    if k > 0 {
      RisesByOne(s, k - 1);
      assert s[k - 1] != s[k];
    }
  }

  lemma ContiguousPermutes(orders: seq<int>)
    requires Contiguous(orders)
    ensures IsPermutation(orders)
  {
    var sorted := Sort(orders, AtMost);
    SortedOrders(orders);
    DistinctCounts(orders);
    DistinctCounts(sorted);
    assert forall v :: v in orders <==> v in multiset(orders);
    assert forall v :: v in sorted <==> v in multiset(sorted);
    forall i | 0 <= i < |orders| ensures 1 <= orders[i] <= |orders| {
      assert orders[i] in sorted;
    }
  }

  lemma PermutationIsContiguous(orders: seq<int>)
    requires IsPermutation(orders)
    ensures Contiguous(orders)
  {
    var sorted := Sort(orders, AtMost);
    SortedOrders(orders);
    DistinctCounts(orders);
    DistinctCounts(sorted);
    assert forall v :: v in orders <==> v in multiset(orders);
    assert forall v :: v in sorted <==> v in multiset(sorted);
    forall i | 0 <= i < |sorted| ensures 1 <= sorted[i] <= |sorted| {
      assert sorted[i] in orders;
    }
    StrictlyIncreasingFills(sorted, |sorted|);
  }

  /** The check accepts exactly the permutations of 1..n. */
  lemma ContiguousExactly(orders: seq<int>)
    ensures Contiguous(orders) <==> IsPermutation(orders)
  {
    if Contiguous(orders) {
      ContiguousPermutes(orders);
    } else if IsPermutation(orders) {
      PermutationIsContiguous(orders);
    }
  }

  // ---------------------------------------------------------------- what is accepted

  function LinkOrders(links: seq<Link>): seq<int> {
    seq(|links|, i requires 0 <= i < |links| => links[i].inventorOrder)
  }

  /** The credit order of a patent makes sense: known inventors, each once, in places 1..n. */
  predicate CreditOk(links: seq<Link>, known: set<nat>) {
    && Distinct(InventorIds(links))
    && (forall i :: 0 <= i < |links| ==> links[i].inventorId in known)
    && IsPermutation(LinkOrders(links))
  }

  predicate Canonical(entries: seq<InventorEntry>) {
    forall i :: 0 <= i < |entries| ==> IsCanonical(entries[i].inventorId)
  }

  predicate DistinctInventorEntries(entries: seq<InventorEntry>)
    requires ValidEntries(entries)
  {
    forall i, j :: 0 <= i < j < |entries| ==> NumeralValue(entries[i].inventorId) != NumeralValue(entries[j].inventorId)
  }

  lemma ResolvedExactly(entries: seq<InventorEntry>, known: set<nat>)
    requires ValidEntries(entries)
    ensures Resolved(entries, known).Success? <==>
            Distinct(SpelledIds(entries)) && AllKnown(entries, known) && AllOrNone(entries) && IsPermutation(Orders(entries))
    ensures Resolved(entries, known).Success? ==>
            Resolved(entries, known).value == LinksOf(entries) && AsAsked(LinksOf(entries), entries)
            && LinkOrders(LinksOf(entries)) == Orders(entries) && IsPermutation(Orders(entries))
  {
    ContiguousExactly(Orders(entries));
  }

  /**
   * For canonical ids the list is accepted exactly when the inventors are
   * distinct and known and the orders are all or none given and a permutation of
   * 1..n; the links are then a sound credit order.
   */
  lemma CanonicalResolvedExactly(entries: seq<InventorEntry>, known: set<nat>)
    requires ValidEntries(entries) && Canonical(entries)
    ensures Resolved(entries, known).Success? <==>
            DistinctInventorEntries(entries) && AllKnown(entries, known)
            && AllOrNone(entries) && IsPermutation(Orders(entries))
    ensures Resolved(entries, known).Success? ==>
            CreditOk(Resolved(entries, known).value, known) && AsAsked(Resolved(entries, known).value, entries)
  {
    ResolvedExactly(entries, known);
    if Distinct(SpelledIds(entries)) {
      forall i, j | 0 <= i < j < |entries|
        ensures NumeralValue(entries[i].inventorId) != NumeralValue(entries[j].inventorId)
      {
        assert SpelledIds(entries)[i] != SpelledIds(entries)[j];
        if NumeralValue(entries[i].inventorId) == NumeralValue(entries[j].inventorId) {
          CanonicalInjective(entries[i].inventorId, entries[j].inventorId);
        }
      }
    }
  }

  /**
   * Duplicates are looked for among the spellings, so the check alone is sound
   * exactly for lists in which no inventor is spelled two ways.
   */
  lemma AcceptedSoundExactly(entries: seq<InventorEntry>, known: set<nat>)
    requires ValidEntries(entries) && Resolved(entries, known).Success?
    ensures CreditOk(Resolved(entries, known).value, known) <==>
            forall i, j :: 0 <= i < j < |entries|
              && NumeralValue(entries[i].inventorId) == NumeralValue(entries[j].inventorId)
              ==> entries[i].inventorId == entries[j].inventorId
  {
    ResolvedExactly(entries, known);
    var links := LinksOf(entries);
    assert forall i, j :: 0 <= i < j < |entries| ==> SpelledIds(entries)[i] != SpelledIds(entries)[j];
    assert forall i :: 0 <= i < |entries| ==> InventorIds(links)[i] == NumeralValue(entries[i].inventorId);
    if CreditOk(links, known) {
      forall i, j | 0 <= i < j < |entries|
        ensures NumeralValue(entries[i].inventorId) != NumeralValue(entries[j].inventorId)
      {
        assert InventorIds(links)[i] != InventorIds(links)[j];
      }
    }
    if forall i, j :: 0 <= i < j < |entries|
         && NumeralValue(entries[i].inventorId) == NumeralValue(entries[j].inventorId)
         ==> entries[i].inventorId == entries[j].inventorId
    {
      forall i, j | 0 <= i < j < |links| ensures InventorIds(links)[i] != InventorIds(links)[j] {
        assert SpelledIds(entries)[i] != SpelledIds(entries)[j];
      }
    }
  }

  const TWO_SPELLINGS := [InventorEntry("1", None), InventorEntry("01", None)]

  /** "1" and "01" are accepted together although both are inventor 1. */
  lemma TwoSpellingsExample()
    ensures ValidEntries(TWO_SPELLINGS)
    ensures Resolved(TWO_SPELLINGS, {1}) == Success(LinksOf(TWO_SPELLINGS))
    ensures !CreditOk(LinksOf(TWO_SPELLINGS), {1})
  {
    assert "01"[..1] == "0";
    assert NumeralValue("1") == 1 && NumeralValue("0") == 0 && NumeralValue("01") == 1;
    ResolvedExactly(TWO_SPELLINGS, {1});
    assert Orders(TWO_SPELLINGS) == [1, 2];
    assert SpelledIds(TWO_SPELLINGS) == ["1", "01"];
    assert |"1"| != |"01"|;
    assert InventorIds(LinksOf(TWO_SPELLINGS)) == [1, 1];
    assert InventorIds(LinksOf(TWO_SPELLINGS))[0] == InventorIds(LinksOf(TWO_SPELLINGS))[1];
  }

  // ---------------------------------------------------------------- what events carry

  lemma {:induction false} InsertLinkOrders(x: Link, s: seq<Link>)
    ensures LinkOrders(Insert(x, s, CreditedBefore)) == Insert(x.inventorOrder, LinkOrders(s), AtMost)
  {
    if s != [] && x.inventorOrder > s[0].inventorOrder {
      InsertLinkOrders(x, s[1..]);
      assert LinkOrders(s)[1..] == LinkOrders(s[1..]);
      assert LinkOrders([s[0]] + Insert(x, s[1..], CreditedBefore))
          == [s[0].inventorOrder] + LinkOrders(Insert(x, s[1..], CreditedBefore));
    } else {
      assert LinkOrders([x] + s) == [x.inventorOrder] + LinkOrders(s);
    }
  }

  lemma {:induction false} SortLinksOrders(s: seq<Link>)
    ensures LinkOrders(SortLinks(s)) == Sort(LinkOrders(s), AtMost)
  {
    if s != [] {
      SortLinksOrders(s[1..]);
      InsertLinkOrders(s[0], SortLinks(s[1..]));
      assert LinkOrders(s)[1..] == LinkOrders(s[1..]);
    }
  }

  /** Entry `i` of an event built from a sound credit order is the inventor in place `i + 1`. */
  lemma EventOrder(links: seq<Link>, known: set<nat>)
    requires CreditOk(links, known)
    ensures |SortLinks(links)| == |links|
    ensures forall i :: 0 <= i < |links| ==> SortLinks(links)[i].inventorOrder == i + 1
    ensures multiset(SortLinks(links)) == multiset(links)
  {
    SortLinksOrders(links);
    SortedOrders(LinkOrders(links));
    ContiguousExactly(LinkOrders(links));
    SortPermutes(links, CreditedBefore);
    assert forall i :: 0 <= i < |links| ==> LinkOrders(SortLinks(links))[i] == SortLinks(links)[i].inventorOrder;
  }
}
