/** Who sees which patents, and in which pages: src/services/patents/access.js and `listPatents`. */
module Listing {
  import opened Wrappers
  import opened Sequences
  import opened Lifecycle
  import opened PatentDb
  import opened Requests

  /** A row of PATENT with the ids of its categories. */
  datatype Listed = Listed(id: nat, row: Patent, categories: set<nat>)

  /** The part of a Prisma `where` these queries use; `All([])` is the empty filter. */
  datatype Where =
    | All(clauses: seq<Where>)
    | Any(clauses: seq<Where>)
    | SubmittedBy(userId: nat)
    | HasStatus(status: Status)
    | HasJurisdiction(jurisdiction: string)
    | InCategory(categoryId: nat)
    | TextMatch(test: Listed -> bool)

  predicate Selects(w: Where, p: Listed) {
    match w
    case All(ws) => forall i :: 0 <= i < |ws| ==> Selects(ws[i], p)
    case Any(ws) => exists i :: 0 <= i < |ws| && Selects(ws[i], p)
    case SubmittedBy(u) => p.row.submittedBy == u
    case HasStatus(s) => p.row.status == s
    case HasJurisdiction(j) => p.row.fields.jurisdiction == Some(j)
    case InCategory(c) => c in p.categories
    case TextMatch(test) => test(p)
  }

  /** Query parameters; `search` stands for the three case-insensitive text matches. */
  datatype Filters = Filters(
    status: Option<Status>,
    categoryId: Option<nat>,
    submittedBy: Option<nat>,
    jurisdiction: Option<string>,
    search: Option<seq<Listed -> bool>>)

  function VisibilityWhere(user: User): Where {
    if user.isAdmin then All([]) else Any([SubmittedBy(user.userId), HasStatus(Approved)])
  }

  function AnyText(tests: seq<Listed -> bool>): Where {
    Any(seq(|tests|, i requires 0 <= i < |tests| => TextMatch(tests[i])))
  }

  function StatusClause(f: Filters): seq<Where> {
    if f.status.Some? then [HasStatus(f.status.value)] else []
  }

  function JurisdictionClause(f: Filters): seq<Where> {
    if f.jurisdiction.Some? then [HasJurisdiction(f.jurisdiction.value)] else []
  }

  function SubmitterClause(f: Filters): seq<Where> {
    if f.submittedBy.Some? then [SubmittedBy(f.submittedBy.value)] else []
  }

  function CategoryClause(f: Filters): seq<Where> {
    if f.categoryId.Some? then [InCategory(f.categoryId.value)] else []
  }

  function SearchClause(f: Filters): seq<Where> {
    if f.search.Some? then [AnyText(f.search.value)] else []
  }

  /** The filters joined with AND to the visibility rule, never merged into it. */
  function BuildListFilter(f: Filters, user: User): Where {
    All([VisibilityWhere(user)] + StatusClause(f) + JurisdictionClause(f) + SubmitterClause(f)
        + CategoryClause(f) + SearchClause(f))
  }

  predicate Visible(user: User, p: Listed) {
    user.isAdmin || p.row.submittedBy == user.userId || p.row.status == Approved
  }

  lemma VisibilityMeans(user: User, p: Listed)
    ensures Selects(VisibilityWhere(user), p) <==> Visible(user, p)
  {
    if !user.isAdmin {
      var ws := [SubmittedBy(user.userId), HasStatus(Approved)];
      assert Selects(ws[0], p) <==> p.row.submittedBy == user.userId;
      assert Selects(ws[1], p) <==> p.row.status == Approved;
    }
  }

  lemma AllJoins(a: seq<Where>, b: seq<Where>, p: Listed)
    ensures Selects(All(a + b), p) <==> Selects(All(a), p) && Selects(All(b), p)
  {
    if Selects(All(a + b), p) {
      assert forall i :: 0 <= i < |a| ==> (a + b)[i] == a[i];
      assert forall i :: 0 <= i < |b| ==> (a + b)[|a| + i] == b[i];
    }
  }

  lemma AllOne(w: Where, p: Listed)
    ensures Selects(All([w]), p) <==> Selects(w, p)
    ensures Selects(All([]), p)
  {
    assert [w][0] == w;
  }

  lemma AllJoinsSix(a: seq<Where>, b: seq<Where>, c: seq<Where>, d: seq<Where>, e: seq<Where>, g: seq<Where>, p: Listed)
    ensures Selects(All(a + b + c + d + e + g), p) <==>
            Selects(All(a), p) && Selects(All(b), p) && Selects(All(c), p)
            && Selects(All(d), p) && Selects(All(e), p) && Selects(All(g), p)
  {
    AllJoins(a + b + c + d + e, g, p);
    AllJoins(a + b + c + d, e, p);
    AllJoins(a + b + c, d, p);
    AllJoins(a + b, c, p);
    AllJoins(a, b, p);
  }

  lemma ClausesMean(f: Filters, p: Listed)
    ensures Selects(All(StatusClause(f)), p) <==> (f.status.Some? ==> p.row.status == f.status.value)
    ensures Selects(All(JurisdictionClause(f)), p) <==> (f.jurisdiction.Some? ==> p.row.fields.jurisdiction == f.jurisdiction)
    ensures Selects(All(SubmitterClause(f)), p) <==> (f.submittedBy.Some? ==> p.row.submittedBy == f.submittedBy.value)
    ensures Selects(All(CategoryClause(f)), p) <==> (f.categoryId.Some? ==> f.categoryId.value in p.categories)
  {
    if f.status.Some? {
      AllOne(HasStatus(f.status.value), p);
    }
    if f.jurisdiction.Some? {
      AllOne(HasJurisdiction(f.jurisdiction.value), p);
    }
    if f.submittedBy.Some? {
      AllOne(SubmittedBy(f.submittedBy.value), p);
    }
    if f.categoryId.Some? {
      AllOne(InCategory(f.categoryId.value), p);
    }
  }

  /** A listing never shows what its caller may not see, whatever the filters, and obeys each filter given. */
  lemma FilterMeans(f: Filters, user: User, p: Listed)
    ensures Selects(BuildListFilter(f, user), p) <==>
            && Visible(user, p)
            && (f.status.Some? ==> p.row.status == f.status.value)
            && (f.jurisdiction.Some? ==> p.row.fields.jurisdiction == f.jurisdiction)
            && (f.submittedBy.Some? ==> p.row.submittedBy == f.submittedBy.value)
            && (f.categoryId.Some? ==> f.categoryId.value in p.categories)
            && (f.search.Some? ==> exists i :: 0 <= i < |f.search.value| && f.search.value[i](p))
  {
    AllJoinsSix([VisibilityWhere(user)], StatusClause(f), JurisdictionClause(f), SubmitterClause(f),
                CategoryClause(f), SearchClause(f), p);
    AllOne(VisibilityWhere(user), p);
    VisibilityMeans(user, p);
    ClausesMean(f, p);
    if f.search.Some? {
      AllOne(AnyText(f.search.value), p);
      TextMeans(f.search.value, p);
    }
  }

  lemma TextMeans(tests: seq<Listed -> bool>, p: Listed)
    ensures Selects(AnyText(tests), p) <==> exists i :: 0 <= i < |tests| && tests[i](p)
  {
    var ws := AnyText(tests).clauses;
    assert forall i :: 0 <= i < |tests| ==> (Selects(ws[i], p) <==> tests[i](p));
  }

  // ---------------------------------------------------------------- order and pages

  /** `createdAt` descending, ties broken by `id` descending. */
  predicate Precedes(a: Listed, b: Listed) {
    a.row.createdAt > b.row.createdAt || (a.row.createdAt == b.row.createdAt && a.id > b.id)
  }

  function Select(table: seq<Listed>, w: Where): seq<Listed> {
    if table == [] then []
    else (if Selects(w, table[0]) then [table[0]] else []) + Select(table[1..], w)
  }

  function Ordered(s: seq<Listed>): seq<Listed> {
    Sort(s, Precedes)
  }

  function Min(a: nat, b: nat): nat {
    if a < b then a else b
  }

  /** `skip: (page - 1) * limit, take: limit`. */
  function PageOf(s: seq<Listed>, page: nat, limit: nat): seq<Listed>
    requires page >= 1
  {
    var skip := Min((page - 1) * limit, |s|);
    s[skip..Min(skip + limit, |s|)]
  }

  datatype Page = Page(patents: seq<Listed>, total: nat, totalPages: nat)

  function TotalPages(total: nat, limit: nat): nat
    requires limit >= 1
  {
    if total == 0 then 1 else (total + limit - 1) / limit
  }

  function ListPatents(table: seq<Listed>, f: Filters, user: User, page: nat, limit: nat): Page
    requires page >= 1 && limit >= 1
  {
    var matching := Ordered(Select(table, BuildListFilter(f, user)));
    Page(PageOf(matching, page, limit), |matching|, TotalPages(|matching|, limit))
  }

  /** Pages 1 to `k`, one after the other, as a client that walks them sees them. */
  function Walk(table: seq<Listed>, f: Filters, user: User, limit: nat, k: nat): seq<Listed>
    requires limit >= 1
  {
    if k == 0 then [] else Walk(table, f, user, limit, k - 1) + ListPatents(table, f, user, k, limit).patents
  }

  predicate DistinctIds(s: seq<Listed>) {
    forall i, j :: 0 <= i < j < |s| ==> s[i].id != s[j].id
  }

  predicate Descending(s: seq<Listed>) {
    forall i, j :: 0 <= i < j < |s| ==> Precedes(s[i], s[j])
  }

  lemma {:induction false} SelectMembers(table: seq<Listed>, w: Where)
    ensures forall p :: p in Select(table, w) <==> p in table && Selects(w, p)
  {
    if table != [] {
      SelectMembers(table[1..], w);
      assert table == [table[0]] + table[1..];
    }
  }

  lemma {:induction false} SelectDistinct(table: seq<Listed>, w: Where)
    requires DistinctIds(table)
    ensures DistinctIds(Select(table, w))
  {
    if table != [] {
      SelectDistinct(table[1..], w);
      SelectMembers(table[1..], w);
      var rest := Select(table[1..], w);
      forall i | 0 <= i < |rest| ensures rest[i].id != table[0].id {
        assert rest[i] in table[1..];
      }
    }
  }

  lemma OrderedDescends(s: seq<Listed>)
    requires DistinctIds(s)
    ensures Descending(Ordered(s)) && |Ordered(s)| == |s|
    ensures forall p :: p in Ordered(s) <==> p in s
  {
    SortSorts(s, Precedes);
    SortPermutes(s, Precedes);
    SortMembers(s, Precedes);
  }

  lemma PrefixExtends(all: seq<Listed>, skip: nat, limit: nat)
    ensures var from := Min(skip, |all|);
            all[..from] + all[from..Min(from + limit, |all|)] == all[..Min(skip + limit, |all|)]
  {
  }

  /** Pages 1 to `k` of a list. */
  function PagesOf(all: seq<Listed>, limit: nat, k: nat): seq<Listed> {
    if k == 0 then [] else PagesOf(all, limit, k - 1) + PageOf(all, k, limit)
  }

  lemma {:induction false} WalkIsPages(table: seq<Listed>, f: Filters, user: User, limit: nat, k: nat)
    requires limit >= 1
    ensures Walk(table, f, user, limit, k) == PagesOf(Ordered(Select(table, BuildListFilter(f, user))), limit, k)
  {
    if k > 0 {
      WalkIsPages(table, f, user, limit, k - 1);
    }
  }

  lemma OneMorePage(k: nat, limit: nat)
    ensures (k + 1) * limit == k * limit + limit && 0 * limit == 0
  {
  }

  lemma PageAt(all: seq<Listed>, limit: nat, page: nat, skip: nat)
    requires page >= 1 && skip == (page - 1) * limit
    ensures PageOf(all, page, limit) == all[Min(skip, |all|)..Min(Min(skip, |all|) + limit, |all|)]
  {
  }

  lemma PrefixThenPage(all: seq<Listed>, limit: nat, page: nat, skip: nat)
    requires page >= 1 && skip == (page - 1) * limit
    ensures all[..Min(skip, |all|)] + PageOf(all, page, limit) == all[..Min(skip + limit, |all|)]
  {
    PageAt(all, limit, page, skip);
    PrefixExtends(all, skip, limit);
  }

  lemma {:induction false} PagesArePrefix(all: seq<Listed>, limit: nat, k: nat, skip: nat)
    requires skip == k * limit
    ensures PagesOf(all, limit, k) == all[..Min(skip, |all|)]
    decreases k
  {
    if k == 0 {
      OneMorePage(0, limit);
      assert all[..0] == [];
    } else {
      OneMorePage(k - 1, limit);
      PagesArePrefix(all, limit, k - 1, skip - limit);
      PrefixThenPage(all, limit, k, skip - limit);
    }
  }

  lemma PagesCover(total: nat, limit: nat)
    requires limit >= 1
    ensures TotalPages(total, limit) >= 1 && TotalPages(total, limit) * limit >= total
    ensures total > 0 ==> (TotalPages(total, limit) - 1) * limit < total
  {
    if total > 0 {
      var q, r := (total + limit - 1) / limit, (total + limit - 1) % limit;
      assert total + limit - 1 == q * limit + r;
      assert (q - 1) * limit == q * limit - limit;
    }
  }

  lemma FirstIsNew(table: seq<Listed>)
    requires DistinctIds(table) && table != []
    ensures table[0] !in table[1..] && forall p :: p in table <==> p == table[0] || p in table[1..]
  {
    assert table == [table[0]] + table[1..];
    assert forall k :: 0 <= k < |table[1..]| ==> table[1..][k].id != table[0].id;
  }

  /** The rows of the table that a filter selects. */
  function Selected(table: seq<Listed>, w: Where): set<Listed> {
    set p | p in table && Selects(w, p)
  }

  lemma SelectedOneMore(table: seq<Listed>, w: Where)
    requires DistinctIds(table) && table != []
    ensures |Selected(table, w)| == |Selected(table[1..], w)| + if Selects(w, table[0]) then 1 else 0
  {
    FirstIsNew(table);
    if Selects(w, table[0]) {
      assert Selected(table, w) == Selected(table[1..], w) + {table[0]};
    } else {
      assert Selected(table, w) == Selected(table[1..], w);
    }
  }

  /** As many rows are listed as there are rows to select. */
  lemma {:induction false} SelectCounts(table: seq<Listed>, w: Where)
    requires DistinctIds(table)
    ensures |Select(table, w)| == |Selected(table, w)|
  {
    if table == [] {
      assert Selected(table, w) == {};
    } else {
      SelectCounts(table[1..], w);
      SelectedOneMore(table, w);
    }
  }

  /** The fewest pages that hold so many rows, and one when there are none. */
  ghost predicate FewestPages(n: nat, total: nat, limit: nat) {
    n >= 1 && n * limit >= total && forall m: nat :: m >= 1 && m * limit >= total ==> n <= m
  }

  lemma TotalPagesFewest(total: nat, limit: nat)
    requires limit >= 1
    ensures FewestPages(TotalPages(total, limit), total, limit)
  {
    PagesCover(total, limit);
    var n := TotalPages(total, limit);
    forall m: nat | m >= 1 && m * limit >= total ensures n <= m {
      if m < n {
        FewerHoldLess(m, n - 1, limit);
      }
    }
  }

  lemma FewerHoldLess(a: nat, b: nat, limit: nat)
    requires a <= b
    ensures a * limit <= b * limit
  {
    assert b * limit == a * limit + (b - a) * limit;
  }

  /**
   * Every page of a listing says how many rows there are in all and how many
   * pages hold them, and has as many rows itself as are left for it, up to the
   * limit.
   */
  lemma EveryPageCounts(table: seq<Listed>, f: Filters, user: User, page: nat, limit: nat)
    requires page >= 1 && limit >= 1 && DistinctIds(table)
    ensures var answer := ListPatents(table, f, user, page, limit);
            var before := (page - 1) * limit;
            && answer.total == |Selected(table, BuildListFilter(f, user))|
            && FewestPages(answer.totalPages, answer.total, limit)
            && |answer.patents| == (if before >= answer.total then 0
                                    else if before + limit <= answer.total then limit else answer.total - before)
  {
    var where := BuildListFilter(f, user);
    SelectCounts(table, where);
    SelectDistinct(table, where);
    OrderedDescends(Select(table, where));
    TotalPagesFewest(|Select(table, where)|, limit);
    PageAt(Ordered(Select(table, where)), limit, page, (page - 1) * limit);
  }

  /** Newest first, and of rows created together the higher id first. */
  predicate NewestFirst(s: seq<Listed>) {
    forall i, j :: 0 <= i < j < |s| ==>
      s[i].row.createdAt > s[j].row.createdAt || (s[i].row.createdAt == s[j].row.createdAt && s[i].id > s[j].id)
  }

  /**
   * Pages partition the listing: on an unchanged table, for any filters, caller
   * and limit, pages 1 to the `totalPages` that any page reports, put together,
   * hold each matching patent exactly once, newest first, and nothing else.
   */
  lemma PagesPartition(table: seq<Listed>, f: Filters, user: User, limit: nat, page: nat)
    requires limit >= 1 && page >= 1 && DistinctIds(table)
    ensures var answer := ListPatents(table, f, user, page, limit);
            var walked := Walk(table, f, user, limit, answer.totalPages);
            && NewestFirst(walked)
            && |walked| == answer.total
            && (forall p :: p in walked <==> p in table && Selects(BuildListFilter(f, user), p))
  {
    var where := BuildListFilter(f, user);
    var all := Ordered(Select(table, where));
    SelectDistinct(table, where);
    SelectMembers(table, where);
    OrderedDescends(Select(table, where));
    PagesCover(|all|, limit);
    WalkIsPages(table, f, user, limit, TotalPages(|all|, limit));
    PagesArePrefix(all, limit, TotalPages(|all|, limit), TotalPages(|all|, limit) * limit);
    assert all[..|all|] == all;
  }

  // ---------------------------------------------------------------- listing and looking up

  /** `findVisiblePatent`: the row with this id if the caller may see it, otherwise not found. */
  function FindVisible(table: seq<Listed>, id: nat, user: User): Option<Listed> {
    if table == [] then None
    else if table[0].id == id && Selects(VisibilityWhere(user), table[0]) then Some(table[0])
    else FindVisible(table[1..], id, user)
  }

  lemma {:induction false} FindVisibleFinds(table: seq<Listed>, p: Listed, user: User)
    requires DistinctIds(table)
    ensures FindVisible(table, p.id, user) == Some(p) <==> p in table && Visible(user, p)
  {
    if table != [] {
      VisibilityMeans(user, table[0]);
      FindVisibleFinds(table[1..], p, user);
      assert table == [table[0]] + table[1..];
      if p in table[1..] {
        var k :| 0 <= k < |table[1..]| && table[1..][k] == p;
        assert table[k + 1] == p;
      }
    }
  }

  const NO_FILTERS := Filters(None, None, None, None, None)

  /** Without filters the pages hold exactly the patents the caller could fetch one by one. */
  lemma PagesAreWhatLookupsFind(table: seq<Listed>, user: User, limit: nat, page: nat, p: Listed)
    requires limit >= 1 && page >= 1 && DistinctIds(table)
    ensures p in Walk(table, NO_FILTERS, user, limit, ListPatents(table, NO_FILTERS, user, page, limit).totalPages)
            <==> FindVisible(table, p.id, user) == Some(p)
  {
    PagesPartition(table, NO_FILTERS, user, limit, page);
    FilterMeans(NO_FILTERS, user, p);
    FindVisibleFinds(table, p, user);
  }
}
