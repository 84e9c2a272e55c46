/** Concrete runs from the empty system in which a promise of the documentation fails. */
module Scenarios {
  import opened Wrappers
  import opened Sequences
  import opened Lifecycle
  import opened Events
  import opened Outbox
  import opened PatentDb
  import ObjectKeys
  import opened History
  import opened Pipeline
  import opened Consumer
  import opened Ordering
  import opened Overtaking

  function AsSteps(txs: seq<Tx>): seq<Step> {
    seq(|txs|, i requires 0 <= i < |txs| => Request(txs[i]))
  }

  /** Requests alone move only the database, as a run of transactions. */
  lemma {:induction false} PlayRequests(cfg: Config, txs: seq<Tx>)
    ensures Play(Start(cfg, 1), AsSteps(txs)) == Start(cfg, 1).(db := Run(txs))
  {
    if txs != [] {
      var n := |txs| - 1;
      assert AsSteps(txs)[..n] == AsSteps(txs[..n]);
      PlayRequests(cfg, txs[..n]);
    }
  }

  function Published(patent: nat, eventId: nat): Event {
    PatentVersionUpserted(eventId, patent, Snapshot(1, if patent == 1 then ROTOR else STATOR, [Link(5, 1)], 7))
  }

  function Waiting(id: nat, patent: nat, event: Event): Row {
    Row(id, patent, event, 100, None, None, 0)
  }

  const UUID_2 := "00000000-0000-4000-8000-000000000002"
  const KEY_2 := ObjectKeys.BuildObjectKey(7, UUID_2, "a.pdf")
  const STATOR := Drawing("Stator", KEY_2)

  // ---------------------------------------------------------------- overtaking

  /** One patent approved, declined, submitted again and approved again. */
  const REVISED: seq<Tx> := TO_APPROVED + [DeclineTx(1, 9, 1, 100, 2), SubmitTx(1), ApproveTx(1, 9, 2, 100, 3)]

  const WITHDRAWN := PatentVersionWithdrawn(1, 1, 1, "declined")

  lemma RevisedSteps()
    ensures |REVISED| == 6 && REVISED[..3] == TO_APPROVED && REVISED[..6] == REVISED
    ensures REVISED[3] == DeclineTx(1, 9, 1, 100, 2) && REVISED[4] == SubmitTx(1) && REVISED[5] == ApproveTx(1, 9, 2, 100, 3)
  {
  }

  lemma DeclineApplied(db: Db)
    requires db.patents == map[1 := Rotor(Approved)] && db.outbox == [Waiting(1, 1, Published(1, 0))]
    ensures var db' := ApplyTx(db, DeclineTx(1, 9, 1, 100, 2));
            db'.patents == map[1 := Rotor(Declined)] && db'.outbox == db.outbox + [Waiting(2, 1, WITHDRAWN)]
  {
  }

  lemma RevisedDeclined()
    ensures var db := Run(REVISED[..4]);
            db.patents == map[1 := Rotor(Declined)] && db.outbox == [Waiting(1, 1, Published(1, 0)), Waiting(2, 1, WITHDRAWN)]
  {
    ApprovedRun();
    RevisedSteps();
    RunPrefix(REVISED, 3);
    DeclineApplied(Run(TO_APPROVED));
  }

  lemma RevisedResubmitted()
    ensures var db := Run(REVISED[..5]);
            && db.patents == map[1 := Rotor(PendingAdmin)]
            && db.outbox == [Waiting(1, 1, Published(1, 0)), Waiting(2, 1, WITHDRAWN)]
  {
    RevisedSteps();
    RevisedDeclined();
    RunPrefix(REVISED, 4);
  }

  lemma RevisedTable()
    ensures Run(REVISED).outbox ==
            [Waiting(1, 1, Published(1, 0)), Waiting(2, 1, WITHDRAWN), Waiting(3, 1, Published(1, 2))]
  {
    RevisedResubmitted();
    ThirdEvent(Run(REVISED[..5]));
    RunPrefix(REVISED, 5);
    RevisedSteps();
  }

  lemma ThirdEvent(db: Db)
    requires db.patents == map[1 := Rotor(PendingAdmin)]
    requires db.outbox == [Waiting(1, 1, Published(1, 0)), Waiting(2, 1, WITHDRAWN)]
    ensures ApplyTx(db, ApproveTx(1, 9, 2, 100, 3)).outbox == db.outbox + [Waiting(3, 1, Published(1, 2))]
  {
    SortOne(Link(5, 1), CreditedBefore);
  }

  lemma SortedThree(a: Row, b: Row, c: Row)
    requires a.id < b.id < c.id
    ensures ById([a, b, c]) == [a, b, c]
    ensures [a, b, c][1..] == [b, c] && [b, c][1..] == [c]
  {
    SortOne(c, IdBefore);
    assert [a, b, c][1..] == [b, c] && [b, c][1..] == [c];
    assert Sort([b, c], IdBefore) == Insert(b, [c], IdBefore) == [b, c];
    assert Sort([a, b, c], IdBefore) == Insert(a, [b, c], IdBefore) == [a, b, c];
  }

  lemma FirstTwo(a: Row, b: Row, c: Row, now: nat, maxAttempts: nat)
    requires a.id < b.id < c.id
    requires Claimable(a, now, maxAttempts) && Claimable(b, now, maxAttempts) && Claimable(c, now, maxAttempts)
    ensures Batch([a, b, c], now, maxAttempts, 2) == [a, b]
  {
    SortedThree(a, b, c);
    assert FirstClaimable([c], now, maxAttempts, 0) == [];
    assert FirstClaimable([b, c], now, maxAttempts, 1) == [b];
  }

  const PAIRS := Config(2, 5)

  /** A failed first send, recorded. */
  const FAILED_PASS: seq<Step> := [Claim(0), SendErred(0, false), FailDone(0)]

  /**
   * One failed send with two rows to a batch: the next pass sends the first and
   * the third event of the same patent, and the second, a withdrawal, comes last.
   */
  lemma OvertakingExample()
    ensures exists ms ::
              var w := Play(Start(PAIRS, 1), AsSteps(REVISED) + FAILED_PASS);
              var log := Play(w, PassAndNext(w, ms)).log;
              !SortedLog(log) && forall m :: m in log ==> m.key == 1
  {
    RevisedRun();
    var w := Play(Start(PAIRS, 1), AsSteps(REVISED));
    FailedSendDisorders(w, w.db.outbox[2]);
    FailedPassRun(w);
    PlayAppend(Start(PAIRS, 1), AsSteps(REVISED), FAILED_PASS);
    var w' := AfterFailure(w);
    var ms :| !SortedLog(Play(w', PassAndNext(w', ms)).log);
    OnePatentInLog(w, w', ms);
  }

  lemma RevisedRun()
    ensures var w := Play(Start(PAIRS, 1), AsSteps(REVISED));
            && Inv(w) && AtRest(w) && w.clock == 0 && w.cfg == PAIRS && |w.db.outbox| == 3 && OfOnePatent(w.db.outbox)
            && BatchOf(w) == w.db.outbox[..2] && w.db.outbox[2] !in BatchOf(w) && Claimable(w.db.outbox[2], 0, 5)
  {
    var w := Play(Start(PAIRS, 1), AsSteps(REVISED));
    PlayRequests(PAIRS, REVISED);
    RevisedTable();
    Reachable(PAIRS, 1, AsSteps(REVISED));
    FirstTwo(w.db.outbox[0], w.db.outbox[1], w.db.outbox[2], 0, 5);
  }

  lemma FailedPassRun(w: World)
    ensures Play(w, FAILED_PASS) == AfterFailure(w)
  {
    assert FAILED_PASS[..2] == [Claim(0), SendErred(0, false)];
    PlayTwo(w, Claim(0), SendErred(0, false));
    assert Play(w, FAILED_PASS) == Next(Play(w, FAILED_PASS[..2]), FailDone(0));
  }

  // ---------------------------------------------------------------- an oversized event

  /** The first approval again, with an event larger than the relay will send. */
  const OVERSIZED: seq<Tx> := TO_APPROVED[..2] + [ApproveTx(1, 9, 0, MAX_PAYLOAD_BYTES + 1, 1)]

  lemma OversizedTable()
    ensures Run(OVERSIZED).outbox == [Waiting(1, 1, Published(1, 0)).(bytes := MAX_PAYLOAD_BYTES + 1)]
  {
    SubmittedRun();
    assert OVERSIZED[..2] == TO_APPROVED[..2] && OVERSIZED[..3] == OVERSIZED;
    RunPrefix(OVERSIZED, 2);
    SortOne(Link(5, 1), CreditedBefore);
  }

  /** It fails its first pass and is taken again by the next, not dead-lettered. */
  lemma OversizedExample()
    ensures var w := Play(Start(PAIRS, 1), AsSteps(OVERSIZED) + FAILED_PASS);
            exists y :: y in BatchOf(w) && y.bytes > MAX_PAYLOAD_BYTES
  {
    var w := Play(Start(PAIRS, 1), AsSteps(OVERSIZED));
    PlayRequests(PAIRS, OVERSIZED);
    OversizedTable();
    BatchOfOne(w.db.outbox[0], 0, 5, 2);
    FailedHeadGoesFirst(w);
    FailedPassRun(w);
    PlayAppend(Start(PAIRS, 1), AsSteps(OVERSIZED), FAILED_PASS);
    assert BatchOf(AfterFailure(w))[0] in BatchOf(AfterFailure(w));
  }

  // ---------------------------------------------------------------- (patent, version) as identity

  const THREES := Config(3, 5)

  lemma AllThree(a: Row, b: Row, c: Row, now: nat, maxAttempts: nat)
    requires a.id < b.id < c.id
    requires Claimable(a, now, maxAttempts) && Claimable(b, now, maxAttempts) && Claimable(c, now, maxAttempts)
    ensures Batch([a, b, c], now, maxAttempts, 3) == [a, b, c]
  {
    SortedThree(a, b, c);
    assert FirstClaimable([c], now, maxAttempts, 1) == [c];
    assert FirstClaimable([b, c], now, maxAttempts, 2) == [b, c];
  }

  /** What the broker holds after one pass over the revised patent, in order. */
  const IN_ORDER: seq<Message> :=
    [Message(1, 1, Published(1, 0)), Message(2, 1, WITHDRAWN), Message(3, 1, Published(1, 2))]

  /** The revised patent's three events, waiting to be claimed together. */
  lemma RevisedWaits()
    ensures var w := Play(Start(THREES, 1), AsSteps(REVISED));
            w.db.outbox == Run(REVISED).outbox && AtRest(w) && BatchOf(w) == w.db.outbox
  {
    var w := Play(Start(THREES, 1), AsSteps(REVISED));
    PlayRequests(THREES, REVISED);
    RevisedTable();
    AllThree(w.db.outbox[0], w.db.outbox[1], w.db.outbox[2], 0, 5);
  }

  /** A pass that takes every row delivers every row, and leaves the entries as they were. */
  lemma PassOverAll(w: World)
    requires AtRest(w) && BatchOf(w) == w.db.outbox
    ensures forall k :: 0 <= k < |w.db.outbox| ==> MessageOf(w.db.outbox[k]) in AfterPass(w).log
    ensures SameEntries(w.db.outbox, AfterPass(w).db.outbox)
  {
    PassDelivers(w);
    assert forall k :: 0 <= k < |w.db.outbox| ==> w.db.outbox[k] in w.db.outbox;
    RoundsMakeNoRequest(|BatchOf(w)|);
    TableFixed(Next(w, Claim(0)), Rounds(|BatchOf(w)|));
  }

  lemma RevisedDelivered()
    ensures var w := AfterPass(Play(Start(THREES, 1), AsSteps(REVISED)));
            && (forall m :: m in IN_ORDER ==> m in w.log)
            && SameEntries(Run(REVISED).outbox, w.db.outbox)
  {
    var w := Play(Start(THREES, 1), AsSteps(REVISED));
    RevisedWaits();
    PassOverAll(w);
    RevisedTable();
    assert forall k :: 0 <= k < 3 ==> MessageOf(w.db.outbox[k]) == IN_ORDER[k];
  }

  /**
   * Approved, declined, approved again at one version, and everything delivered
   * in order: the consumer that goes by (patent, version) has lost the patent.
   */
  lemma ByVersionExample()
    ensures exists steps ::
              var w := Play(Start(THREES, 1), steps);
              && (forall m :: m in IN_ORDER ==> m in w.log) && AllDelivered(w.db.outbox, IN_ORDER, 1)
              && 1 in Corpus(w.db) && 1 in Projection(Consume(IN_ORDER)) && 1 !in Projection(ConsumeByVersion(IN_ORDER))
  {
    var steps := DeliveringSteps();
    ByVersionLosesIt(steps);
  }

  lemma DeliveringSteps() returns (steps: seq<Step>)
    ensures Play(Start(THREES, 1), steps) == AfterPass(Play(Start(THREES, 1), AsSteps(REVISED)))
    ensures var w := Play(Start(THREES, 1), steps);
            (forall m :: m in IN_ORDER ==> m in w.log) && SameEntries(Run(REVISED).outbox, w.db.outbox)
  {
    var w := Play(Start(THREES, 1), AsSteps(REVISED));
    var pass := [Claim(0)] + Rounds(|BatchOf(w)|);
    steps := AsSteps(REVISED) + pass;
    PlayAppend(Start(THREES, 1), AsSteps(REVISED), pass);
    PassIsSteps(w);
    RevisedDelivered();
  }

  lemma PassIsSteps(w: World)
    ensures Play(w, [Claim(0)] + Rounds(|BatchOf(w)|)) == AfterPass(w)
  {
    PlayAppend(w, [Claim(0)], Rounds(|BatchOf(w)|));
    assert [Claim(0)][..0] == [] && [Claim(0)][..1] == [Claim(0)];
    PlayPrefix(w, [Claim(0)], 0);
  }

  lemma ByVersionLosesIt(steps: seq<Step>)
    requires var w := Play(Start(THREES, 1), steps);
             (forall m :: m in IN_ORDER ==> m in w.log) && SameEntries(Run(REVISED).outbox, w.db.outbox)
    ensures var w := Play(Start(THREES, 1), steps);
            && AllDelivered(w.db.outbox, IN_ORDER, 1)
            && 1 in Corpus(w.db) && 1 in Projection(Consume(IN_ORDER)) && 1 !in Projection(ConsumeByVersion(IN_ORDER))
  {
    var w := Play(Start(THREES, 1), steps);
    RevisedTable();
    Reachable(THREES, 1, steps);
    assert LogAgrees(w.db, 1);
    RevisedEntries(w.db.outbox);
    LastOfThree(w.db.outbox);
    LastRepeatsVersion();
    LostByVersion(w, IN_ORDER);
  }

  lemma RevisedEntries(rows: seq<Row>)
    requires SameEntries(Run(REVISED).outbox, rows)
    ensures |rows| == 3 && OfOnePatent(rows) && forall k :: 0 <= k < 3 ==> MessageOf(rows[k]) == IN_ORDER[k]
  {
    RevisedTable();
  }

  lemma LostByVersion(w: World, delivery: seq<Message>)
    requires Inv(w) && LogAgrees(w.db, 1) && |w.db.outbox| == 3 && OfOnePatent(w.db.outbox)
    requires LogFromTable(w.db.outbox, delivery) && AllDelivered(w.db.outbox, delivery, 1)
    requires IsLast(w.db.outbox, 1, 2) && !FirstOfVersion(delivery, MessageOf(w.db.outbox[2]))
    ensures 1 in Corpus(w.db) && 1 in Projection(Consume(delivery)) && 1 !in Projection(ConsumeByVersion(delivery))
  {
    DroppedNewestDisagrees(w.db.outbox, delivery, 1, 2);
    NewestShown(w.db.outbox, delivery, 1);
    CorpusFromLog(w.db, 1);
  }

  lemma LastOfThree(rows: seq<Row>)
    requires |rows| == 3 && OfOnePatent(rows)
    ensures IsLast(rows, 1, 2) && EventsOf(rows, 1) != []
    ensures EventsOf(rows, 1)[|EventsOf(rows, 1)| - 1] == rows[2].payload
  {
    assert EventsOf(rows, 1) == EventsOf(rows[..2], 1) + [rows[2].payload];
  }

  lemma LastRepeatsVersion()
    ensures !FirstOfVersion(IN_ORDER, IN_ORDER[2])
  {
    assert IN_ORDER[..2][0] == IN_ORDER[0] && IN_ORDER[..2][0] in IN_ORDER[..2];
    assert VersionSeen(IN_ORDER[..2], IN_ORDER[2]);
  }

  predicate OfOnePatent(rows: seq<Row>) {
    forall i :: 0 <= i < |rows| ==> rows[i].aggregateId == 1
  }

  lemma OnePatentInLog(w: World, w': World, ms: nat)
    requires Inv(w) && w' == AfterFailure(w) && OfOnePatent(w.db.outbox)
    ensures forall m :: m in Play(w', PassAndNext(w', ms)).log ==> m.key == 1
  {
    var claimed := Next(w, Claim(0));
    var erred := Next(claimed, SendErred(0, false));
    StepKeepsInv(w, Claim(0));
    StepKeepsInv(claimed, SendErred(0, false));
    StepKeepsInv(erred, FailDone(0));
    SamePatents(w, Claim(0));
    SamePatents(claimed, SendErred(0, false));
    SamePatents(erred, FailDone(0));
    PassOfOnePatent(w', ms);
  }

  lemma SamePatents(w: World, step: Step)
    requires OfOnePatent(w.db.outbox) && !step.Request?
    ensures OfOnePatent(Next(w, step).db.outbox)
  {
  }

  lemma PassOfOnePatent(w: World, ms: nat)
    requires Inv(w) && OfOnePatent(w.db.outbox)
    ensures forall m :: m in Play(w, PassAndNext(w, ms)).log ==> m.key == 1
  {
    var w' := Play(w, PassAndNext(w, ms));
    PlayKeepsInv(w, PassAndNext(w, ms));
    RoundsMakeNoRequest(|BatchOf(w)|);
    TableFixed(w, PassAndNext(w, ms));
    assert OfOnePatent(w'.db.outbox);
    forall m | m in w'.log ensures m.key == 1 {
      var i :| 0 <= i < |w'.db.outbox| && MessageOf(w'.db.outbox[i]) == m;
    }
  }

  lemma {:induction false} RoundsMakeNoRequest(k: nat)
    ensures forall i :: 0 <= i < |Rounds(k)| ==> !Rounds(k)[i].Request?
  {
    if k > 0 {
      RoundsMakeNoRequest(k - 1);
    }
  }

  lemma {:induction false} TableFixed(w: World, steps: seq<Step>)
    requires forall i :: 0 <= i < |steps| ==> !steps[i].Request?
    ensures SameEntries(w.db.outbox, Play(w, steps).db.outbox)
  {
    if steps != [] {
      TableFixed(w, steps[..|steps| - 1]);
    }
  }

  // ---------------------------------------------------------------- late commits

  /** Two patents pending; the approval of the first draws row id 2 and commits before the one that drew 1. */
  const FIRST: seq<Tx> :=
    TO_APPROVED[..2] + [Create(2, STATOR, 7, [Link(5, 1)], 0), SubmitTx(2), ApproveTx(1, 9, 0, 100, 2)]
  const LATE := ApproveTx(2, 9, 1, 100, 1)

  function Stator(status: Status): Patent {
    Patent(STATOR, status, 1, 7, [Link(5, 1)], 0)
  }

  function Both(first: Status, second: Status): map<nat, Patent> {
    map[1 := Rotor(first), 2 := Stator(second)]
  }

  lemma UuidsValid()
    ensures ObjectKeys.IsUuid(UUID_1) && ObjectKeys.IsUuid(UUID_2) && UUID_1 != UUID_2
  {
    assert UUID_1[35] != UUID_2[35];
  }

  lemma KeysDiffer()
    ensures KEY_1 != KEY_2
  {
    UuidsValid();
    ObjectKeys.KeysRoundTrip(7, 7, UUID_1, "a.pdf");
    ObjectKeys.KeysRoundTrip(7, 7, UUID_2, "a.pdf");
    assert ObjectKeys.Split(KEY_1)[2] == UUID_1 && ObjectKeys.Split(KEY_2)[2] == UUID_2;
  }

  lemma CreateApplied(db: Db)
    requires db == Db(map[1 := Rotor(PendingAdmin)], [], [], {1})
    ensures ApplyTx(db, Create(2, STATOR, 7, [Link(5, 1)], 0)) == Db(Both(PendingAdmin, Draft), [], [], {1, 2})
  {
    KeysDiffer();
    assert STATOR.documentKey == Some(KEY_2) && ROTOR.documentKey == Some(KEY_1);
  }

  lemma SecondCreated()
    ensures Run(FIRST[..3]) == Db(Both(PendingAdmin, Draft), [], [], {1, 2})
  {
    SubmittedRun();
    assert FIRST[..2] == TO_APPROVED[..2] && FIRST[2] == Create(2, STATOR, 7, [Link(5, 1)], 0);
    CreateApplied(Run(TO_APPROVED[..2]));
    RunPrefix(FIRST, 2);
  }

  lemma BothPending()
    ensures Run(FIRST[..4]) == Db(Both(PendingAdmin, PendingAdmin), [], [], {1, 2})
  {
    SecondCreated();
    RunPrefix(FIRST, 3);
  }

  lemma FirstTable()
    ensures var db := Run(FIRST);
            && db.patents == Both(Approved, PendingAdmin)
            && db.outbox == [Waiting(2, 1, Published(1, 0))]
  {
    BothPending();
    RunPrefix(FIRST, 4);
    assert FIRST[..5] == FIRST;
    SortOne(Link(5, 1), CreditedBefore);
  }

  /** A faultless pass over one row. */
  const ONE_PASS: seq<Step> := [Claim(0), SendAcked(0), MarkDone(0)]

  /** The world in which the one row of a table was published by a first pass. */
  lemma BatchOfOne(row: Row, now: nat, maxAttempts: nat, limit: nat)
    requires Claimable(row, now, maxAttempts) && limit >= 1
    ensures Batch([row], now, maxAttempts, limit) == [row] && Ids([row]) == {row.id}
  {
    SortOne(row, IdBefore);
    assert [row][1..] == [];
    assert FirstClaimable([row][1..], now, maxAttempts, limit - 1) == [];
    assert forall i :: i in Ids([row]) <==> i == row.id by { assert [row][0] == row; }
  }

  lemma OnePass(w: World, row: Row)
    requires w.relays == [Idle] && w.db.outbox == [row] && w.log == [] && w.cfg == PAIRS
    requires row.bytes <= MAX_PAYLOAD_BYTES && Claimable(row, w.clock, 5)
    ensures Play(w, ONE_PASS) ==
            w.(db := w.db.(outbox := [row.(publishedAt := Some(w.clock), claimedAt := None)]), log := [MessageOf(row)])
  {
    assert ONE_PASS[..0] == [] && ONE_PASS[..3] == ONE_PASS;
    PlayPrefix(w, ONE_PASS, 0);
    PlayPrefix(w, ONE_PASS, 1);
    PlayPrefix(w, ONE_PASS, 2);
    OneClaimed(w, row);
    OneSent(Next(w, Claim(0)), row);
  }

  lemma OneClaimed(w: World, row: Row)
    requires w.relays == [Idle] && w.db.outbox == [row] && w.cfg == PAIRS && Claimable(row, w.clock, 5)
    ensures Next(w, Claim(0)) ==
            w.(db := w.db.(outbox := [row.(claimedAt := Some(w.clock))]), relays := [Busy([row], Sending, w.clock)])
  {
    BatchOfOne(row, w.clock, 5, 2);
    assert StampClaims([row], {row.id}, w.clock) == [row.(claimedAt := Some(w.clock))];
  }

  lemma OneSent(w: World, row: Row)
    requires w.relays == [Busy([row], Sending, w.clock)] && w.db.outbox == [row.(claimedAt := Some(w.clock))]
    requires w.log == [] && row.bytes <= MAX_PAYLOAD_BYTES
    ensures Next(Next(w, SendAcked(0)), MarkDone(0)) ==
            w.(db := w.db.(outbox := [row.(publishedAt := Some(w.clock), claimedAt := None)]),
               log := [MessageOf(row)], relays := [Idle])
  {
    var sent := Next(w, SendAcked(0));
    assert sent == w.(log := [MessageOf(row)], relays := [Busy([row], Marking, w.clock)]);
  }

  /**
   * No send fails and no process crashes, yet the log is out of order: the event
   * with the lower id was committed after the other one had been sent.
   */
  lemma LateCommitExample()
    ensures forall step :: step in AsSteps(FIRST) + ONE_PASS ==> Faultless(step)
    ensures var w := Play(Start(PAIRS, 1), AsSteps(FIRST) + ONE_PASS);
            !SortedLog(Next(Next(Next(w, Request(LATE)), Claim(0)), SendAcked(0)).log)
  {
    FirstPublished();
    var w := Play(Start(PAIRS, 1), AsSteps(FIRST) + ONE_PASS);
    LateCommitted(w);
    var x := Waiting(1, 2, Published(2, 1));
    assert w.log[0] in w.log && !AboveLog(w.log, 1);
    assert Next(w, Request(LATE)).db.outbox[1] == x;
    LateRowDisorders(w, Next(w, Request(LATE)), x);
  }

  lemma FirstPublished()
    ensures var w := Play(Start(PAIRS, 1), AsSteps(FIRST) + ONE_PASS);
            && Inv(w) && w.relays == [Idle] && w.cfg == PAIRS && w.db.patents == Both(Approved, PendingAdmin)
            && w.db.outbox == [Waiting(2, 1, Published(1, 0)).(publishedAt := Some(0))]
            && w.log == [Message(2, 1, Published(1, 0))]
  {
    var before := Play(Start(PAIRS, 1), AsSteps(FIRST));
    PlayRequests(PAIRS, FIRST);
    FirstTable();
    OnePass(before, Waiting(2, 1, Published(1, 0)));
    PlayAppend(Start(PAIRS, 1), AsSteps(FIRST), ONE_PASS);
    Reachable(PAIRS, 1, AsSteps(FIRST) + ONE_PASS);
  }

  lemma LateCommitted(w: World)
    requires w.db.patents == Both(Approved, PendingAdmin)
    requires w.db.outbox == [Waiting(2, 1, Published(1, 0)).(publishedAt := Some(0))]
    ensures var w' := Next(w, Request(LATE));
            w' == w.(db := w'.db) && w'.db.outbox == w.db.outbox + [Waiting(1, 2, Published(2, 1))]
  {
    SortOne(Link(5, 1), CreditedBefore);
  }

  // ---------------------------------------------------------------- a stale decline

  /**
   * The decline that read the status before an approval leaves the patent
   * declined with every row published, and the consumer goes on showing it.
   */
  lemma StaleDeclineStaysPublic()
    ensures var pending := Run(TO_APPROVED[..2]);
            var w := Play(Start(PAIRS, 1), AsSteps(TO_APPROVED) + ONE_PASS);
            && 1 in pending.patents && 1 in w.db.patents && w.db.patents[1].status == Approved
            && DeclineSeeing(w.db, 1, pending.patents[1].status, 9, 1, 100, 2).Some?
            && var db := DeclineSeeing(w.db, 1, pending.patents[1].status, 9, 1, 100, 2).value;
            && (forall row :: row in db.outbox ==> row.publishedAt.Some?)
            && 1 !in Corpus(db) && 1 in Projection(Consume(w.log))
  {
    var before := Play(Start(PAIRS, 1), AsSteps(TO_APPROVED));
    PlayRequests(PAIRS, TO_APPROVED);
    ApprovedRun();
    SubmittedRun();
    OnePass(before, before.db.outbox[0]);
    PlayAppend(Start(PAIRS, 1), AsSteps(TO_APPROVED), ONE_PASS);
    var w := Play(before, ONE_PASS);
    Reachable(PAIRS, 1, AsSteps(TO_APPROVED) + ONE_PASS);
    StaleDeclineIsSilent(w.db, 1, PendingAdmin, 9, 1, 100, 2);
    assert w.db.outbox[0].publishedAt.Some?;
    SilentDeclineStaysShown(w.db, 1, PendingAdmin, 9, 1, 100, 2, w.log);
  }
}
