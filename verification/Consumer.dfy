/** The documented consumer of `patents.events`, and what its projection is worth. */
module Consumer {
  import opened Wrappers
  import opened Lifecycle
  import opened Events
  import opened Outbox
  import opened PatentDb
  import opened Pipeline

  /** Per patent: the sequence last applied and the document shown, if any. */
  datatype Entry = Entry(last: nat, doc: Option<Snapshot>)

  type State = map<nat, Entry>

  function DocOf(e: Event): Option<Snapshot> {
    if e.PatentVersionUpserted? then Some(e.snapshot) else None
  }

  /** Ignore an event whose sequence is below the last one applied for that patent. */
  function Apply(s: State, m: Message): State {
    if m.key in s && m.sequence < s[m.key].last then s
    else s[m.key := Entry(m.sequence, DocOf(m.payload))]
  }

  function Consume(delivery: seq<Message>): State {
    if delivery == [] then map[]
    else Apply(Consume(delivery[..|delivery| - 1]), delivery[|delivery| - 1])
  }

  function Projection(s: State): map<nat, Snapshot> {
    map p | p in s && s[p].doc.Some? :: s[p].doc.value
  }

  /** The source of truth: approved patents with everything an event says about them, names apart. */
  function Corpus(db: Db): map<nat, Snapshot> {
    map p | p in db.patents && db.patents[p].status == Approved :: SnapshotOf(db.patents[p])
  }

  // ---------------------------------------------------------------- newest delivered event wins

  ghost predicate Shows(s: State, delivery: seq<Message>, p: nat) {
    p in s && exists m :: m in delivery && m.key == p && s[p] == Entry(m.sequence, DocOf(m.payload))
  }

  /** Whatever the order and the duplicates, each entry shows a delivered event and none newer was delivered. */
  lemma {:induction false} ConsumeKeepsNewest(delivery: seq<Message>)
    ensures var s := Consume(delivery);
            && (forall m :: m in delivery ==> m.key in s && m.sequence <= s[m.key].last)
            && (forall p :: p in s ==> Shows(s, delivery, p))
  {
    if delivery != [] {
      var init, m := delivery[..|delivery| - 1], delivery[|delivery| - 1];
      ConsumeKeepsNewest(init);
      assert delivery == init + [m];
      var s, s' := Consume(init), Consume(delivery);
      forall p | p in s' ensures Shows(s', delivery, p) {
        if s' == s || p != m.key {
          assert Shows(s, init, p);
        } else {
          assert m in delivery;
        }
      }
    }
  }

  /** The table position of the newest event of `p`. */
  lemma {:induction false} LastEvent(rows: seq<Row>, p: nat)
    requires EventsOf(rows, p) != []
    ensures exists i :: IsLast(rows, p, i)
  {
    var n := |rows| - 1;
    if rows[n].aggregateId == p {
      assert IsLast(rows, p, n);
    } else {
      LastEvent(rows[..n], p);
      var i :| IsLast(rows[..n], p, i);
      assert IsLast(rows, p, i);
    }
  }

  ghost predicate IsLast(rows: seq<Row>, p: nat, i: int) {
    && 0 <= i < |rows| && rows[i].aggregateId == p
    && (forall j :: i < j < |rows| ==> rows[j].aggregateId != p)
    && EventsOf(rows, p) != []
    && EventsOf(rows, p)[|EventsOf(rows, p)| - 1] == rows[i].payload
  }

  lemma {:induction false} NoEventNoRow(rows: seq<Row>, p: nat)
    requires EventsOf(rows, p) == []
    ensures forall i :: 0 <= i < |rows| ==> rows[i].aggregateId != p
  {
    if rows != [] {
      NoEventNoRow(rows[..|rows| - 1], p);
    }
  }

  ghost predicate NewestDelivered(rows: seq<Row>, delivery: seq<Message>, p: nat) {
    forall i :: IsLast(rows, p, i) ==> MessageOf(rows[i]) in delivery
  }

  /** This needs the order of each patent's events only: rows of different patents may commit in any order. */
  lemma NewestShown(rows: seq<Row>, delivery: seq<Message>, p: nat)
    requires DistinctIds(rows) && PatentOrdered(rows)
    requires LogFromTable(rows, delivery) && NewestDelivered(rows, delivery, p)
    ensures var es, s := EventsOf(rows, p), Consume(delivery);
            if es == [] then p !in s else p in s && s[p].doc == DocOf(es[|es| - 1])
  {
    var s := Consume(delivery);
    ConsumeKeepsNewest(delivery);
    if EventsOf(rows, p) == [] {
      NoEventNoRow(rows, p);
      assert p in s ==> Shows(s, delivery, p);
    } else {
      LastEvent(rows, p);
      var i :| IsLast(rows, p, i);
      assert MessageOf(rows[i]) in delivery;
      assert Shows(s, delivery, p);
      var m :| m in delivery && m.key == p && s[p] == Entry(m.sequence, DocOf(m.payload));
      var j :| 0 <= j < |rows| && MessageOf(rows[j]) == m;
      assert j == i;
    }
  }

  // ---------------------------------------------------------------- agreement

  function Lookup(m: map<nat, Snapshot>, p: nat): Option<Snapshot> {
    if p in m then Some(m[p]) else None
  }

  /** A document without who is credited. */
  function Uncredited(doc: Option<Snapshot>): Option<Snapshot> {
    if doc.Some? then Some(WithoutCredits(doc.value)) else None
  }

  lemma CorpusFromLog(db: Db, p: nat)
    requires LogAgrees(db, p)
    ensures var es := EventsOf(db.outbox, p);
            var doc := if es == [] then None else DocOf(es[|es| - 1]);
            && Uncredited(Lookup(Corpus(db), p)) == Uncredited(doc)
            && (Lookup(Corpus(db), p) == doc <==> CreditsAgree(db, p))
  {
    var es := EventsOf(db.outbox, p);
    if es != [] {
      assert es[|es| - 1].PatentVersionUpserted? <==> (|es| - 1) % 2 == 0;
    }
  }

  /**
   * Agreement on one patent: in every reachable state, a consumer that has been
   * handed events from the log in any order and with any repetition shows the
   * patent as stored, provided its newest event was among them. Other patents'
   * undelivered, failed or dead-lettered events do not matter. The credits shown
   * are those stored exactly when no inventor was deleted from under the patent.
   */
  lemma ConsumerAgreesOn(cfg: Config, relays: nat, steps: seq<Step>, delivery: seq<Message>, p: nat)
    requires var w := Play(Start(cfg, relays), steps);
             && (forall m :: m in delivery ==> m in w.log)
             && NewestDelivered(w.db.outbox, delivery, p)
    ensures var w := Play(Start(cfg, relays), steps);
            var shown := Lookup(Projection(Consume(delivery)), p);
            && Uncredited(shown) == Uncredited(Lookup(Corpus(w.db), p))
            && (shown == Lookup(Corpus(w.db), p) <==> CreditsAgree(w.db, p))
  {
    var w := Play(Start(cfg, relays), steps);
    Reachable(cfg, relays, steps);
    assert LogAgrees(w.db, p);
    CorpusFromLog(w.db, p);
    NewestShown(w.db.outbox, delivery, p);
  }

  /**
   * The same, column by column: the consumer shows a patent exactly while it is
   * approved, with the version, the columns and the submitter that are stored,
   * and with the stored credits in their order exactly when event and row agree.
   */
  lemma ShownAsStored(cfg: Config, relays: nat, steps: seq<Step>, delivery: seq<Message>, p: nat)
    requires var w := Play(Start(cfg, relays), steps);
             && (forall m :: m in delivery ==> m in w.log)
             && NewestDelivered(w.db.outbox, delivery, p)
    ensures var db, s := Play(Start(cfg, relays), steps).db, Consume(delivery);
            && (p in s && s[p].doc.Some? <==> p in db.patents && db.patents[p].status == Approved)
            && (p in s && s[p].doc.Some? ==>
                  var shown, row := s[p].doc.value, db.patents[p];
                  && shown.version == row.version && shown.fields == row.fields && shown.submittedBy == row.submittedBy
                  && (shown.credits == SortLinks(row.links) <==> CreditsAgree(db, p)))
  {
    var w := Play(Start(cfg, relays), steps);
    Reachable(cfg, relays, steps);
    assert LogAgrees(w.db, p);
    CorpusFromLog(w.db, p);
    NewestShown(w.db.outbox, delivery, p);
    ConsumerAgreesOn(cfg, relays, steps, delivery, p);
  }

  lemma SameMap(a: map<nat, Snapshot>, b: map<nat, Snapshot>)
    ensures a == b <==> forall p: nat :: Lookup(a, p) == Lookup(b, p)
  {
    if forall p: nat :: Lookup(a, p) == Lookup(b, p) {
      assert forall p: nat :: p in a <==> Lookup(a, p).Some?;
      assert forall p: nat :: p in b <==> Lookup(b, p).Some?;
      assert a.Keys == b.Keys;
      assert forall p: nat :: p in a ==> Lookup(a, p).value == a[p];
    }
  }

  function AllUncredited(docs: map<nat, Snapshot>): map<nat, Snapshot> {
    map p | p in docs :: WithoutCredits(docs[p])
  }

  /**
   * End-to-end agreement: once every outbox row is published, a consumer that
   * has received every broker message at least once holds exactly the approved
   * patents, each with its stored version, columns and submitter, whatever order
   * the transactions committed in. It holds their stored credits as well exactly
   * when events and rows credit the same people.
   */
  lemma EndToEndAgreement(cfg: Config, relays: nat, steps: seq<Step>, delivery: seq<Message>)
    requires var w := Play(Start(cfg, relays), steps);
             && (forall row :: row in w.db.outbox ==> row.publishedAt.Some?)
             && (forall m :: m in delivery <==> m in w.log)
    ensures var db := Play(Start(cfg, relays), steps).db;
            && AllUncredited(Projection(Consume(delivery))) == AllUncredited(Corpus(db))
            && (Projection(Consume(delivery)) == Corpus(db) <==> AllCreditsAgree(db))
  {
    var w := Play(Start(cfg, relays), steps);
    Reachable(cfg, relays, steps);
    var a, b := Projection(Consume(delivery)), Corpus(w.db);
    forall p: nat
      ensures Lookup(AllUncredited(a), p) == Lookup(AllUncredited(b), p)
      ensures Lookup(a, p) == Lookup(b, p) <==> CreditsAgree(w.db, p)
    {
      ConsumerAgreesOn(cfg, relays, steps, delivery, p);
      assert Lookup(AllUncredited(a), p) == Uncredited(Lookup(a, p));
      assert Lookup(AllUncredited(b), p) == Uncredited(Lookup(b, p));
    }
    SameMap(AllUncredited(a), AllUncredited(b));
    SameMap(a, b);
  }

  /** Inventors are deleted only while no approved patent credits them. */
  ghost predicate GuardedSteps(w: World, steps: seq<Step>) {
    forall i :: 0 <= i < |steps| && steps[i].Request? && steps[i].tx.DeleteInventorTx? ==>
      !CreditedInCorpus(Play(w, steps[..i]).db, steps[i].tx.inventorId)
  }

  lemma OtherStepKeepsCredits(w: World, step: Step)
    requires AllCreditsAgree(w.db) && !step.Request?
    ensures AllCreditsAgree(Next(w, step).db)
  {
    var w' := Next(w, step);
    forall p: nat ensures CreditsAgree(w'.db, p) {
      assert CreditsAgree(w.db, p);
      EventsOfSame(w.db.outbox, w'.db.outbox, p);
    }
  }

  /** In a run whose inventor deletes are guarded, credits agree throughout, so the projection is the corpus. */
  lemma {:induction false} GuardedStepsKeepCredits(cfg: Config, relays: nat, steps: seq<Step>)
    requires GuardedSteps(Start(cfg, relays), steps)
    ensures AllCreditsAgree(Play(Start(cfg, relays), steps).db)
  {
    if steps != [] {
      var n := |steps| - 1;
      assert forall i :: 0 <= i < n ==> steps[..n][..i] == steps[..i];
      GuardedStepsKeepCredits(cfg, relays, steps[..n]);
      var w := Play(Start(cfg, relays), steps[..n]);
      if steps[n].Request? {
        TxKeepsCredits(w.db, steps[n].tx);
      } else {
        OtherStepKeepsCredits(w, steps[n]);
      }
    }
  }

  /** What a decline with a stale status costs: no event tells the consumer to stop showing the patent. */
  lemma SilentDeclineStaysShown(
      db: Db, p: nat, before: Status, reviewerId: nat, eventId: nat, bytes: nat, rowId: nat, delivery: seq<Message>)
    requires DbInv(db) && p in db.patents && db.patents[p].status == Approved && before != Approved
    requires LogFromTable(db.outbox, delivery) && NewestDelivered(db.outbox, delivery, p)
    ensures DeclineSeeing(db, p, before, reviewerId, eventId, bytes, rowId).Some?
    ensures var db' := DeclineSeeing(db, p, before, reviewerId, eventId, bytes, rowId).value;
            && db'.outbox == db.outbox && p !in Corpus(db')
            && p in Projection(Consume(delivery)) && Projection(Consume(delivery))[p].fields == db.patents[p].fields
  {
    assert LogAgrees(db, p);
    CorpusFromLog(db, p);
    NewestShown(db.outbox, delivery, p);
  }

  // ---------------------------------------------------------------- deduplication

  function EventId(m: Message): nat {
    m.payload.eventId
  }

  /** The same consumer that also drops an event id it has seen. */
  function ConsumeDeduplicating(delivery: seq<Message>): State {
    if delivery == [] then map[]
    else
      var init, m := delivery[..|delivery| - 1], delivery[|delivery| - 1];
      if exists n :: n in init && EventId(n) == EventId(m) then ConsumeDeduplicating(init)
      else Apply(ConsumeDeduplicating(init), m)
  }

  lemma RedeliveryChangesNothing(rows: seq<Row>, delivery: seq<Message>, m: Message)
    requires DistinctIds(rows) && LogFromTable(rows, delivery) && m in delivery
    ensures Apply(Consume(delivery), m) == Consume(delivery)
  {
    var s := Consume(delivery);
    ConsumeKeepsNewest(delivery);
    assert Shows(s, delivery, m.key);
    var n :| n in delivery && n.key == m.key && s[m.key] == Entry(n.sequence, DocOf(n.payload));
    var i :| 0 <= i < |rows| && MessageOf(rows[i]) == m;
    var j :| 0 <= j < |rows| && MessageOf(rows[j]) == n;
    if m.sequence >= s[m.key].last {
      assert i == j;
    }
  }

  lemma {:induction false} DroppingSeenIsHarmless(rows: seq<Row>, delivery: seq<Message>)
    requires DistinctIds(rows) && DistinctEventIds(rows) && LogFromTable(rows, delivery)
    ensures ConsumeDeduplicating(delivery) == Consume(delivery)
  {
    if delivery != [] {
      var init, m := delivery[..|delivery| - 1], delivery[|delivery| - 1];
      assert delivery == init + [m] && m in delivery;
      assert forall x :: x in init ==> x in delivery;
      DroppingSeenIsHarmless(rows, init);
      if n :| n in init && EventId(n) == EventId(m) {
        var i :| 0 <= i < |rows| && MessageOf(rows[i]) == n;
        var j :| 0 <= j < |rows| && MessageOf(rows[j]) == m;
        assert i == j;
        RedeliveryChangesNothing(rows, init, m);
      }
    }
  }

  predicate DistinctEventIds(rows: seq<Row>) {
    forall i, j :: 0 <= i < j < |rows| ==> rows[i].payload.eventId != rows[j].payload.eventId
  }

  /** The uuid a review draws is one that no event has. */
  predicate DrawsFreshEventId(w: World, step: Step) {
    step.Request? && (step.tx.ApproveTx? || step.tx.DeclineTx?) ==>
      forall i :: 0 <= i < |w.db.outbox| ==> w.db.outbox[i].payload.eventId != step.tx.eventId
  }

  ghost predicate FreshEventIds(w: World, steps: seq<Step>) {
    forall i :: 0 <= i < |steps| ==> DrawsFreshEventId(Play(w, steps[..i]), steps[i])
  }

  lemma StepKeepsEventIds(w: World, step: Step)
    requires DistinctEventIds(w.db.outbox) && DrawsFreshEventId(w, step)
    ensures DistinctEventIds(Next(w, step).db.outbox)
  {
    var rows, rows' := w.db.outbox, Next(w, step).db.outbox;
    StepGrows(w, step);
    assert forall i :: 0 <= i < |rows| ==> rows'[..|rows|][i].payload == rows[i].payload;
    if |rows'| > |rows| {
      assert |rows'| == |rows| + 1 && rows'[|rows|].payload.eventId == step.tx.eventId;
    }
  }

  lemma {:induction false} EventIdsStayDistinct(cfg: Config, relays: nat, steps: seq<Step>)
    requires FreshEventIds(Start(cfg, relays), steps)
    ensures DistinctEventIds(Play(Start(cfg, relays), steps).db.outbox)
  {
    if steps != [] {
      var n := |steps| - 1;
      assert forall i :: 0 <= i < n ==> steps[..n][..i] == steps[..i];
      EventIdsStayDistinct(cfg, relays, steps[..n]);
      StepKeepsEventIds(Play(Start(cfg, relays), steps[..n]), steps[n]);
    }
  }

  /** In every run that draws fresh uuids, a consumer may also drop event ids it has seen: it shows the same. */
  lemma DeduplicationIsHarmless(cfg: Config, relays: nat, steps: seq<Step>, delivery: seq<Message>)
    requires FreshEventIds(Start(cfg, relays), steps)
    requires forall m :: m in delivery ==> m in Play(Start(cfg, relays), steps).log
    ensures ConsumeDeduplicating(delivery) == Consume(delivery)
  {
    Reachable(cfg, relays, steps);
    EventIdsStayDistinct(cfg, relays, steps);
    DroppingSeenIsHarmless(Play(Start(cfg, relays), steps).db.outbox, delivery);
  }

  // ---------------------------------------------------------------- (patent, version) as identity

  /** An earlier delivery already upserted this version of the patent. */
  predicate VersionSeen(before: seq<Message>, m: Message) {
    m.payload.PatentVersionUpserted? &&
    exists n :: n in before && n.key == m.key && n.payload.PatentVersionUpserted?
             && n.payload.snapshot.version == m.payload.snapshot.version
  }

  /** The same consumer that also drops an Upserted of a version it has seen. */
  function ConsumeByVersion(delivery: seq<Message>): State {
    if delivery == [] then map[]
    else
      var init, m := delivery[..|delivery| - 1], delivery[|delivery| - 1];
      if VersionSeen(init, m) then ConsumeByVersion(init) else Apply(ConsumeByVersion(init), m)
  }

  /** What it does not drop. */
  function Kept(delivery: seq<Message>): seq<Message> {
    if delivery == [] then []
    else
      var init, m := delivery[..|delivery| - 1], delivery[|delivery| - 1];
      Kept(init) + if VersionSeen(init, m) then [] else [m]
  }

  lemma {:induction false} ByVersionConsumesKept(delivery: seq<Message>)
    ensures ConsumeByVersion(delivery) == Consume(Kept(delivery))
  {
    if delivery != [] {
      var init, m := delivery[..|delivery| - 1], delivery[|delivery| - 1];
      ByVersionConsumesKept(init);
      if VersionSeen(init, m) {
        assert Kept(delivery) == Kept(init);
      } else {
        assert Kept(delivery)[..|Kept(init)|] == Kept(init);
      }
    }
  }

  /** Some delivery of `m` comes before every other Upserted of its version. */
  ghost predicate FirstOfVersion(delivery: seq<Message>, m: Message) {
    exists k :: 0 <= k < |delivery| && delivery[k] == m && !VersionSeen(delivery[..k], m)
  }

  lemma {:induction false} KeptExactly(delivery: seq<Message>, m: Message)
    ensures m in Kept(delivery) <==> FirstOfVersion(delivery, m)
  {
    if delivery != [] {
      var n := |delivery| - 1;
      var init := delivery[..n];
      KeptExactly(init, m);
      assert forall k :: 0 <= k < n ==> init[..k] == delivery[..k] && init[k] == delivery[k];
      if FirstOfVersion(delivery, m) && !FirstOfVersion(init, m) {
        assert !VersionSeen(init, m) && delivery[n] == m;
      }
      if m in Kept(delivery) && m !in Kept(init) {
        assert delivery[..n] == init && delivery[n] == m;
      }
    }
  }

  /** A message that is dropped at its first delivery comes after another message of its patent. */
  lemma DroppedBehindAnother(delivery: seq<Message>, m: Message)
    requires m in delivery && !FirstOfVersion(delivery, m)
    ensures m.payload.PatentVersionUpserted?
    ensures exists n :: n in delivery && n != m && n.key == m.key
  {
    var k :| 0 <= k < |delivery| && delivery[k] == m;
    FirstOccurrence(delivery, m, k);
    var f :| 0 <= f < |delivery| && delivery[f] == m && m !in delivery[..f];
    assert VersionSeen(delivery[..f], m);
    var n :| n in delivery[..f] && n.key == m.key && n.payload.PatentVersionUpserted?;
    assert n in delivery;
  }

  lemma {:induction false} FirstOccurrence(delivery: seq<Message>, m: Message, k: nat)
    requires k < |delivery| && delivery[k] == m
    ensures exists f :: 0 <= f < |delivery| && delivery[f] == m && m !in delivery[..f]
  {
    if m in delivery[..k] {
      var j :| 0 <= j < k && delivery[j] == m;
      FirstOccurrence(delivery, m, j);
    }
  }

  /** The row before the last of a patent, when the last is an Upserted and not the only one: a Withdrawn. */
  lemma WithdrawnBeforeLast(rows: seq<Row>, p: nat, i: int)
    requires Alternates(EventsOf(rows, p)) && IsLast(rows, p, i) && rows[i].payload.PatentVersionUpserted?
    requires exists j :: 0 <= j < i && rows[j].aggregateId == p
    ensures exists j :: IsLast(rows[..i], p, j) && rows[j].payload.PatentVersionWithdrawn?
  {
    EventsUpToLast(rows, p, i);
    var es := EventsOf(rows[..i], p);
    if es == [] {
      NoEventNoRow(rows[..i], p);
      assert false;
    } else {
      LastEvent(rows[..i], p);
      var j :| IsLast(rows[..i], p, j);
      assert EventsOf(rows, p) == es + [rows[i].payload];
      assert es[|es| - 1] == EventsOf(rows, p)[|es| - 1];
    }
  }

  lemma {:induction false} EventsUpToLast(rows: seq<Row>, p: nat, i: int)
    requires IsLast(rows, p, i)
    ensures EventsOf(rows, p) == EventsOf(rows[..i], p) + [rows[i].payload]
  {
    var n := |rows| - 1;
    if i < n {
      assert EventsOf(rows, p) == EventsOf(rows[..n], p);
      assert IsLast(rows[..n], p, i);
      EventsUpToLast(rows[..n], p, i);
      assert rows[..n][..i] == rows[..i];
    }
  }

  ghost predicate AllDelivered(rows: seq<Row>, delivery: seq<Message>, p: nat) {
    forall i :: 0 <= i < |rows| && rows[i].aggregateId == p ==> MessageOf(rows[i]) in delivery
  }

  /** If the newest event was dropped, the newest kept one is the withdrawal before it. */
  lemma DroppedNewestShowsNothing(rows: seq<Row>, delivery: seq<Message>, p: nat, i: int)
    requires DistinctIds(rows) && PatentOrdered(rows) && Alternates(EventsOf(rows, p))
    requires LogFromTable(rows, delivery) && AllDelivered(rows, delivery, p)
    requires IsLast(rows, p, i) && !FirstOfVersion(delivery, MessageOf(rows[i]))
    ensures rows[i].payload.PatentVersionUpserted?
    ensures p in Consume(Kept(delivery)) && Consume(Kept(delivery))[p].doc == None
  {
    var m, kept := MessageOf(rows[i]), Kept(delivery);
    DroppedBehindAnother(delivery, m);
    var n :| n in delivery && n != m && n.key == p;
    var o :| 0 <= o < |rows| && MessageOf(rows[o]) == n;
    assert o < i && rows[o].aggregateId == p;
    WithdrawnBeforeLast(rows, p, i);
    var j :| IsLast(rows[..i], p, j) && rows[j].payload.PatentVersionWithdrawn?;
    var withdrawn := MessageOf(rows[j]);
    assert rows[..i][j] == rows[j] && withdrawn in delivery;
    var k :| 0 <= k < |delivery| && delivery[k] == withdrawn;
    assert FirstOfVersion(delivery, withdrawn);
    KeptExactly(delivery, withdrawn);
    KeptExactly(delivery, m);
    ConsumeKeepsNewest(kept);
    assert Shows(Consume(kept), kept, p);
    var s :| s in kept && s.key == p && Consume(kept)[p] == Entry(s.sequence, DocOf(s.payload));
    KeptExactly(delivery, s);
    ShownIsBeforeLast(rows, delivery, p, i, j, s);
  }

  lemma ShownIsBeforeLast(rows: seq<Row>, delivery: seq<Message>, p: nat, i: int, j: int, s: Message)
    requires DistinctIds(rows) && PatentOrdered(rows) && LogFromTable(rows, delivery)
    requires IsLast(rows, p, i) && IsLast(rows[..i], p, j)
    requires s in delivery && s.key == p && s != MessageOf(rows[i]) && s.sequence >= rows[j].id
    ensures s == MessageOf(rows[j])
  {
    var o :| 0 <= o < |rows| && MessageOf(rows[o]) == s;
    assert o != i && rows[o].aggregateId == p;
    if o > i {
      assert false;
    } else {
      assert rows[..i][o] == rows[o] && rows[..i][j] == rows[j];
      assert o <= j;
    }
  }

  lemma KeptFromTable(rows: seq<Row>, delivery: seq<Message>)
    requires LogFromTable(rows, delivery)
    ensures LogFromTable(rows, Kept(delivery))
  {
    forall m | m in Kept(delivery) ensures m in delivery {
      KeptExactly(delivery, m);
    }
  }

  lemma KeptNewestAgrees(rows: seq<Row>, delivery: seq<Message>, p: nat)
    requires DistinctIds(rows) && PatentOrdered(rows) && LogFromTable(rows, delivery) && AllDelivered(rows, delivery, p)
    requires forall i :: IsLast(rows, p, i) ==> FirstOfVersion(delivery, MessageOf(rows[i]))
    ensures Lookup(Projection(ConsumeByVersion(delivery)), p) == Lookup(Projection(Consume(delivery)), p)
  {
    forall i | IsLast(rows, p, i) ensures MessageOf(rows[i]) in Kept(delivery) {
      KeptExactly(delivery, MessageOf(rows[i]));
    }
    ByVersionConsumesKept(delivery);
    KeptFromTable(rows, delivery);
    NewestShown(rows, delivery, p);
    NewestShown(rows, Kept(delivery), p);
  }

  lemma DroppedNewestDisagrees(rows: seq<Row>, delivery: seq<Message>, p: nat, i: int)
    requires DistinctIds(rows) && PatentOrdered(rows) && Alternates(EventsOf(rows, p))
    requires LogFromTable(rows, delivery) && AllDelivered(rows, delivery, p)
    requires IsLast(rows, p, i) && !FirstOfVersion(delivery, MessageOf(rows[i]))
    ensures Lookup(Projection(ConsumeByVersion(delivery)), p) == None
    ensures Lookup(Projection(Consume(delivery)), p).Some?
  {
    ByVersionConsumesKept(delivery);
    DroppedNewestShowsNothing(rows, delivery, p, i);
    NewestShown(rows, delivery, p);
  }

  /**
   * Taking (patent, version) for an event's identity: a consumer that also drops
   * an Upserted of a version it has seen shows a patent as the documented one
   * does exactly when the patent's newest event was delivered before every other
   * Upserted of its version. Otherwise it shows nothing.
   */
  lemma ByVersionAgreesExactly(cfg: Config, relays: nat, steps: seq<Step>, delivery: seq<Message>, p: nat)
    requires var w := Play(Start(cfg, relays), steps);
             (forall m :: m in delivery ==> m in w.log) && AllDelivered(w.db.outbox, delivery, p)
    ensures var rows := Play(Start(cfg, relays), steps).db.outbox;
            var byVersion := Lookup(Projection(ConsumeByVersion(delivery)), p);
            var agrees := byVersion == Lookup(Projection(Consume(delivery)), p);
            && (agrees <==> forall i :: IsLast(rows, p, i) ==> FirstOfVersion(delivery, MessageOf(rows[i])))
            && (!agrees ==> byVersion == None)
  {
    var w := Play(Start(cfg, relays), steps);
    Reachable(cfg, relays, steps);
    assert LogAgrees(w.db, p);
    if i :| IsLast(w.db.outbox, p, i) && !FirstOfVersion(delivery, MessageOf(w.db.outbox[i])) {
      DroppedNewestDisagrees(w.db.outbox, delivery, p, i);
    } else {
      KeptNewestAgrees(w.db.outbox, delivery, p);
    }
  }
}
