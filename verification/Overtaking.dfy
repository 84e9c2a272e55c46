/**
 * The rest of a batch stays claimed after a failure, so later rows can be sent
 * first. This module says exactly when a pass lets that happen.
 */
module Overtaking {
  import opened Wrappers
  import opened Outbox
  import opened PatentDb
  import opened Pipeline
  import opened Ordering

  /** `k` rows sent and marked without a fault. */
  function Rounds(k: nat): seq<Step> {
    if k == 0 then [] else Rounds(k - 1) + [SendAcked(0), MarkDone(0)]
  }

  /** A whole faultless pass, some time, and the first send of the next pass. */
  function PassAndNext(w: World, ms: nat): seq<Step> {
    [Claim(0)] + Rounds(|BatchOf(w)|) + [Tick(ms), Claim(0), SendAcked(0)]
  }

  predicate Sendable(rows: seq<Row>) {
    forall i :: 0 <= i < |rows| ==> rows[i].bytes <= MAX_PAYLOAD_BYTES
  }

  /** One relay, between two passes. */
  predicate Resting(w: World) {
    |w.relays| == 1 && w.relays[0].Idle? && w.cfg.batchSize >= 1
  }

  /** The broker can take whatever a relay may still claim; dead-lettered rows may be of any size. */
  predicate LiveFits(rows: seq<Row>, maxAttempts: nat) {
    forall i :: 0 <= i < |rows| && Live(rows[i], maxAttempts) ==> rows[i].bytes <= MAX_PAYLOAD_BYTES
  }

  predicate AtRest(w: World) {
    Resting(w) && LiveFits(w.db.outbox, w.cfg.maxAttempts)
  }

  lemma {:induction false} PlayAppend(w: World, a: seq<Step>, b: seq<Step>)
    ensures Play(w, a + b) == Play(Play(w, a), b)
  {
    if b == [] {
      assert a + b == a;
    } else {
      assert (a + b)[..|a + b| - 1] == a + b[..|b| - 1];
      PlayAppend(w, a, b[..|b| - 1]);
    }
  }

  lemma PlayTwo(w: World, s: Step, t: Step)
    ensures Play(w, [s, t]) == Next(Next(w, s), t)
  {
    assert [s, t][..1] == [s] && [s][..0] == [];
    assert Play(w, [s]) == Next(Play(w, [s][..0]), s);
  }

  /** The state `k` rounds into a pass over `batch`. */
  ghost predicate Rounded(w: World, batch: seq<Row>, k: nat, w': World) {
    && k <= |batch|
    && |w'.relays| == 1 && w'.cfg == w.cfg && w'.clock == w.clock
    && (if k == |batch| then w'.relays[0].Idle?
        else w'.relays[0].Busy? && w'.relays[0].queue == batch[k..] && w'.relays[0].phase == Sending)
    && SameEntries(w.db.outbox, w'.db.outbox)
    && (forall i :: 0 <= i < |w.db.outbox| && w.db.outbox[i].id !in Ids(batch) ==> w'.db.outbox[i] == w.db.outbox[i])
    && (forall i :: 0 <= i < |w.db.outbox| && Live(w'.db.outbox[i], w.cfg.maxAttempts) ==> Live(w.db.outbox[i], w.cfg.maxAttempts))
    && (forall j :: 0 <= j < k ==> MessageOf(batch[j]) in w'.log)
  }

  lemma RoundOnce(w: World, batch: seq<Row>, k: nat, w': World)
    requires Rounded(w, batch, k, w') && k < |batch| && Sendable(batch)
    ensures Rounded(w, batch, k + 1, Next(Next(w', SendAcked(0)), MarkDone(0)))
  {
    var sent := Next(w', SendAcked(0));
    assert batch[k..][0] == batch[k] && batch[k].id in Ids(batch);
    assert batch[k..][1..] == batch[k + 1..];
    assert forall m :: m in w'.log ==> m in sent.log;
    assert sent.log[|w'.log|] == MessageOf(batch[k]);
  }

  lemma {:induction false} AfterRounds(w: World, batch: seq<Row>, k: nat)
    requires Rounded(w, batch, 0, w) && k <= |batch| && Sendable(batch)
    ensures Rounded(w, batch, k, Play(w, Rounds(k)))
  {
    if k > 0 {
      AfterRounds(w, batch, k - 1);
      PlayAppend(w, Rounds(k - 1), [SendAcked(0), MarkDone(0)]);
      PlayTwo(Play(w, Rounds(k - 1)), SendAcked(0), MarkDone(0));
      RoundOnce(w, batch, k - 1, Play(w, Rounds(k - 1)));
    }
  }

  lemma BatchSendable(w: World)
    requires LiveFits(w.db.outbox, w.cfg.maxAttempts)
    ensures Sendable(BatchOf(w))
  {
    BatchMembers(w.db.outbox, w.clock, w.cfg.maxAttempts, w.cfg.batchSize);
    forall k | 0 <= k < |BatchOf(w)| ensures BatchOf(w)[k].bytes <= MAX_PAYLOAD_BYTES {
      assert BatchOf(w)[k] in BatchOf(w);
    }
  }

  function AfterPass(w: World): World {
    Play(Next(w, Claim(0)), Rounds(|BatchOf(w)|))
  }

  /** A faultless pass empties its batch into the log and leaves every other row alone. */
  lemma PassDelivers(w: World)
    requires AtRest(w)
    ensures AtRest(AfterPass(w)) && AfterPass(w).cfg == w.cfg && AfterPass(w).clock == w.clock
    ensures forall y :: y in BatchOf(w) ==> MessageOf(y) in AfterPass(w).log
    ensures forall x :: x in w.db.outbox && x.id !in Ids(BatchOf(w)) ==> x in AfterPass(w).db.outbox
  {
    var w1, batch := Next(w, Claim(0)), BatchOf(w);
    BatchSendable(w);
    assert batch[0..] == batch;
    AfterRounds(w1, batch, |batch|);
    forall x | x in w.db.outbox && x.id !in Ids(batch) ensures x in AfterPass(w).db.outbox {
      var i :| 0 <= i < |w.db.outbox| && w.db.outbox[i] == x;
      assert AfterPass(w).db.outbox[i] == w1.db.outbox[i] == x;
    }
  }

  lemma PassAndNextIs(w: World, ms: nat)
    ensures Play(w, PassAndNext(w, ms)) ==
            Next(Next(Next(AfterPass(w), Tick(ms)), Claim(0)), SendAcked(0))
  {
    var k := |BatchOf(w)|;
    assert [Claim(0)][..0] == [];
    assert Play(w, [Claim(0)]) == Next(Play(w, [Claim(0)][..0]), Claim(0));
    PlayAppend(w, [Claim(0)], Rounds(k));
    PlayAppend(w, [Claim(0)] + Rounds(k), [Tick(ms), Claim(0), SendAcked(0)]);
    PlayTwo(AfterPass(w), Tick(ms), Claim(0));
    var last := [Tick(ms), Claim(0), SendAcked(0)];
    assert last[..2] == [Tick(ms), Claim(0)];
    assert Play(AfterPass(w), last) == Next(Play(AfterPass(w), last[..2]), last[2]);
  }

  /** Once every claim older than `x`'s is stale, the next send is of `x` or of an older row. */
  lemma NextSendIsOld(w: World, x: Row)
    requires AtRest(w) && DistinctIds(w.db.outbox)
    requires x in w.db.outbox && Claimable(x, w.clock, w.cfg.maxAttempts)
    ensures var w' := Next(Next(w, Claim(0)), SendAcked(0));
            |w'.log| == |w.log| + 1 && w.log <= w'.log && w'.log[|w.log|].sequence <= x.id
  {
    var batch := BatchOf(w);
    BatchTakesFirst(w.db.outbox, w.clock, w.cfg.maxAttempts, w.cfg.batchSize);
    BatchIncreasing(w.db.outbox, w.clock, w.cfg.maxAttempts, w.cfg.batchSize);
    BatchSendable(w);
    if x in batch {
      var k :| 0 <= k < |batch| && batch[k] == x;
    } else {
      assert batch[0] in batch;
    }
  }

  lemma LateSendDisorders(w: World, x: Row, y: Row)
    requires AtRest(w) && DistinctIds(w.db.outbox)
    requires x in w.db.outbox && Claimable(x, w.clock, w.cfg.maxAttempts)
    requires MessageOf(y) in w.log && x.id < y.id
    ensures !SortedLog(Next(Next(w, Claim(0)), SendAcked(0)).log)
  {
    NextSendIsOld(w, x);
    var log := Next(Next(w, Claim(0)), SendAcked(0)).log;
    var i :| 0 <= i < |w.log| && w.log[i] == MessageOf(y);
    assert log[i].sequence > log[|w.log|].sequence;
  }

  lemma PassKeepsIds(w: World)
    requires Inv(w)
    ensures DistinctIds(AfterPass(w).db.outbox)
  {
    StepKeepsInv(w, Claim(0));
    PlayKeepsInv(Next(w, Claim(0)), Rounds(|BatchOf(w)|));
  }

  /** When waiting has made the claim of `x` stale. */
  function StaleWait(x: Row): nat {
    if x.claimedAt.Some? then x.claimedAt.value + CLAIM_TIMEOUT_MS + 1 else 0
  }

  lemma WaitedClaimable(w: World, x: Row)
    requires AtRest(w) && x in w.db.outbox && Live(x, w.cfg.maxAttempts)
    ensures var w' := Next(w, Tick(StaleWait(x)));
            && AtRest(w') && w'.db == w.db && w'.log == w.log
            && Claimable(x, w'.clock, w'.cfg.maxAttempts)
  {
  }

  lemma LeftoverSentLate(w: World, x: Row, y: Row)
    requires AtRest(w) && DistinctIds(w.db.outbox) && x in w.db.outbox && Live(x, w.cfg.maxAttempts)
    requires MessageOf(y) in w.log && x.id < y.id
    ensures !SortedLog(Next(Next(Next(w, Tick(StaleWait(x))), Claim(0)), SendAcked(0)).log)
  {
    WaitedClaimable(w, x);
    LateSendDisorders(Next(w, Tick(StaleWait(x))), x, y);
  }

  /** A pass from here takes `y` and leaves the older live row `x` under its claim. */
  predicate LeftBehind(w: World, x: Row, y: Row) {
    && x in w.db.outbox && Live(x, w.cfg.maxAttempts) && x.id !in Ids(BatchOf(w))
    && y in BatchOf(w) && x.id < y.id
  }

  lemma OvertakenIsLeftBehind(w: World)
    requires !NoOvertaking(w)
    ensures exists x, y :: LeftBehind(w, x, y)
  {
    var x :| x in w.db.outbox && Live(x, w.cfg.maxAttempts) && x.id !in Ids(BatchOf(w))
          && !forall k :: 0 <= k < |BatchOf(w)| ==> BatchOf(w)[k].id < x.id;
    var k :| 0 <= k < |BatchOf(w)| && x.id <= BatchOf(w)[k].id;
    assert BatchOf(w)[k].id in Ids(BatchOf(w));
    assert LeftBehind(w, x, BatchOf(w)[k]);
  }

  /** If an older live row would be left behind, this faultless continuation sends it late. */
  lemma OvertakingDisorders(w: World, x: Row, y: Row)
    requires AtRest(w) && DistinctIds(AfterPass(w).db.outbox) && LeftBehind(w, x, y)
    ensures !SortedLog(Play(w, PassAndNext(w, StaleWait(x))).log)
  {
    PassDelivers(w);
    LeftoverSentLate(AfterPass(w), x, y);
    PassAndNextIs(w, StaleWait(x));
  }

  lemma {:induction false} RoundsKeepOrder(w: World, k: nat)
    requires Inv(w) && OrderInv(w)
    ensures OrderInv(Play(w, Rounds(k)))
  {
    if k > 0 {
      var w' := Play(w, Rounds(k - 1));
      RoundsKeepOrder(w, k - 1);
      PlayKeepsInv(w, Rounds(k - 1));
      PlayAppend(w, Rounds(k - 1), [SendAcked(0), MarkDone(0)]);
      PlayTwo(w', SendAcked(0), MarkDone(0));
      StepKeepsInv(w', SendAcked(0));
      StepKeepsOrder(w', SendAcked(0));
      StepKeepsOrder(Next(w', SendAcked(0)), MarkDone(0));
    }
  }

  /** From an ordered state at rest, the first send of any pass is in order. */
  lemma FirstSendInOrder(w: World)
    requires Inv(w) && OrderInv(w) && w.relays[0].Idle?
    ensures SortedLog(Next(Next(w, Claim(0)), SendAcked(0)).log)
  {
    var batch := BatchOf(w);
    BatchMembers(w.db.outbox, w.clock, w.cfg.maxAttempts, w.cfg.batchSize);
    if batch != [] {
      assert batch[0] in batch;
      SendKeepsOrder(w.log, batch[0]);
    }
  }

  /**
   * A pass breaks the order exactly when it begins with a live row left under a
   * fresh claim below a row it takes: otherwise the first send after the pass and
   * any wait is in order too, and if so some wait puts it out of order.
   */
  lemma OvertakingExact(w: World)
    requires Inv(w) && OrderInv(w) && AtRest(w)
    ensures NoOvertaking(w) <==> forall ms :: SortedLog(Play(w, PassAndNext(w, ms)).log)
  {
    if NoOvertaking(w) {
      forall ms: nat ensures SortedLog(Play(w, PassAndNext(w, ms)).log) {
        StepKeepsOrder(w, Claim(0));
        StepKeepsInv(w, Claim(0));
        RoundsKeepOrder(Next(w, Claim(0)), |BatchOf(w)|);
        PlayKeepsInv(Next(w, Claim(0)), Rounds(|BatchOf(w)|));
        PassDelivers(w);
        StepKeepsInv(AfterPass(w), Tick(ms));
        FirstSendInOrder(Next(AfterPass(w), Tick(ms)));
        PassAndNextIs(w, ms);
      }
    } else {
      OvertakenIsLeftBehind(w);
      var x, y :| LeftBehind(w, x, y);
      PassKeepsIds(w);
      OvertakingDisorders(w, x, y);
    }
  }

  /** A request leaves all but the database alone, and the rows it adds can be claimed at once. */
  lemma NewRowsAreClaimable(w: World, tx: Tx)
    ensures var w' := Next(w, Request(tx));
            && w' == w.(db := w'.db)
            && forall x :: x in w'.db.outbox && x !in w.db.outbox ==>
                 x.publishedAt.None? && x.claimedAt.None? && x.attempts == 0
  {
  }

  lemma LateRowDisorders(w: World, w': World, x: Row)
    requires DistinctIds(w'.db.outbox) && LogFromTable(w.db.outbox, w.log)
    requires w' == w.(db := w'.db) && AtRest(w') && x in w'.db.outbox && Claimable(x, w'.clock, w'.cfg.maxAttempts)
    requires !AboveLog(w.log, x.id)
    ensures !SortedLog(Next(Next(w', Claim(0)), SendAcked(0)).log)
  {
    var m :| m in w.log && m.sequence > x.id;
    var i :| 0 <= i < |w.db.outbox| && MessageOf(w.db.outbox[i]) == m;
    LateSendDisorders(w', x, w.db.outbox[i]);
  }

  lemma LateCommitDisorders(w: World, tx: Tx)
    requires DistinctIds(Next(w, Request(tx)).db.outbox) && LogFromTable(w.db.outbox, w.log)
    requires AtRest(Next(w, Request(tx))) && w.cfg.maxAttempts >= 1
    requires w.relays[0].Idle? && !CommitsAbove(w, tx)
    ensures !SortedLog(Next(Next(Next(w, Request(tx)), Claim(0)), SendAcked(0)).log)
  {
    NewRowsAreClaimable(w, tx);
    var w' := Next(w, Request(tx));
    var x :| x in w'.db.outbox && x !in w.db.outbox && !AboveLog(w.log, x.id);
    LateRowDisorders(w, w', x);
  }

  /**
   * An event that commits late breaks the order too. With the relay at rest, the
   * next send after the commit is in order exactly when nothing of a higher id
   * was sent before it.
   */
  lemma LateCommitExact(w: World, tx: Tx)
    requires Inv(w) && OrderInv(w) && w.relays[0].Idle? && AtRest(Next(w, Request(tx)))
    requires w.cfg.maxAttempts >= 1
    ensures CommitsAbove(w, tx) <==>
            SortedLog(Next(Next(Next(w, Request(tx)), Claim(0)), SendAcked(0)).log)
  {
    StepKeepsInv(w, Request(tx));
    if CommitsAbove(w, tx) {
      RequestKeepsOrder(w, tx);
      FirstSendInOrder(Next(w, Request(tx)));
    } else {
      LateCommitDisorders(w, tx);
    }
  }

  // ---------------------------------------------------------------- it does happen

  /** The state after a pass whose first send fails and is recorded as failed. */
  function AfterFailure(w: World): World {
    Next(Next(Next(w, Claim(0)), SendErred(0, false)), FailDone(0))
  }

  lemma AfterFailureIs(w: World)
    requires Resting(w) && BatchOf(w) != []
    ensures AfterFailure(w) ==
            WithRows(w, MarkFailed(StampClaims(w.db.outbox, Ids(BatchOf(w)), w.clock), BatchOf(w)[0].id))
  {
    var claimed := Next(w, Claim(0));
    var erred := Next(claimed, SendErred(0, false));
    assert claimed.relays == [Busy(BatchOf(w), Sending, w.clock)];
    assert erred.relays == [Busy(BatchOf(w), Failing, w.clock)];
    assert AfterFailure(w).relays == [Idle] == w.relays;
  }

  lemma FailureKeepsRest(w: World)
    requires Resting(w) && BatchOf(w) != []
    ensures var w' := AfterFailure(w);
            && Resting(w') && w'.clock == w.clock && w'.cfg == w.cfg && (AtRest(w) ==> AtRest(w'))
  {
    AfterFailureIs(w);
    var rows, rows' := w.db.outbox, AfterFailure(w).db.outbox;
    assert forall i :: 0 <= i < |rows| ==>
      rows'[i].bytes == rows[i].bytes && (Live(rows'[i], w.cfg.maxAttempts) ==> Live(rows[i], w.cfg.maxAttempts));
  }

  /** Rows outside the batch are as they were, and the second of the batch carries its claim. */
  lemma LeftoverRows(w: World)
    requires DistinctIds(w.db.outbox) && Resting(w) && |BatchOf(w)| >= 2
    ensures BatchOf(w)[1].(claimedAt := Some(w.clock)) in AfterFailure(w).db.outbox
    ensures forall x :: x in w.db.outbox && x !in BatchOf(w) ==> x in AfterFailure(w).db.outbox
  {
    var rows, batch := w.db.outbox, BatchOf(w);
    AfterFailureIs(w);
    var rows' := AfterFailure(w).db.outbox;
    BatchMembers(rows, w.clock, w.cfg.maxAttempts, w.cfg.batchSize);
    BatchIncreasing(rows, w.clock, w.cfg.maxAttempts, w.cfg.batchSize);
    assert batch[1] in batch && batch[1].id in Ids(batch);
    var j :| 0 <= j < |rows| && rows[j] == batch[1];
    assert rows'[j] == batch[1].(claimedAt := Some(w.clock));
    forall x | x in rows && x !in batch ensures x in rows' {
      var i :| 0 <= i < |rows| && rows[i] == x;
      if x.id in Ids(batch) {
        BatchedById(rows, w.clock, w.cfg.maxAttempts, w.cfg.batchSize, x);
      }
      assert batch[0].id in Ids(batch);
      assert rows'[i] == x;
    }
  }

  /** After that pass only its head can be claimed below the rows it left behind. */
  lemma LeftoverStaysClaimed(w: World)
    requires DistinctIds(w.db.outbox) && Resting(w) && |BatchOf(w)| >= 2
    ensures var w', left := AfterFailure(w), BatchOf(w)[1].(claimedAt := Some(w.clock));
            && Resting(w') && w'.clock == w.clock && w'.cfg == w.cfg && (AtRest(w) ==> AtRest(w'))
            && left in w'.db.outbox && Live(left, w.cfg.maxAttempts) && FreshClaim(left, w.clock)
            && (forall x :: x in w.db.outbox && x !in BatchOf(w) ==> x in w'.db.outbox)
            && (forall x' :: x' in w'.db.outbox && Claimable(x', w.clock, w.cfg.maxAttempts) && x'.id <= left.id
                  ==> x'.id == BatchOf(w)[0].id)
  {
    FailureKeepsRest(w);
    LeftoverRows(w);
    AfterFailureIs(w);
    BatchMembers(w.db.outbox, w.clock, w.cfg.maxAttempts, w.cfg.batchSize);
    assert BatchOf(w)[1] in BatchOf(w);
    forall x' | x' in AfterFailure(w).db.outbox && Claimable(x', w.clock, w.cfg.maxAttempts) && x'.id <= BatchOf(w)[1].id
      ensures x'.id == BatchOf(w)[0].id
    {
      OlderClaimable(w, x');
    }
  }

  lemma OlderClaimable(w: World, x': Row)
    requires DistinctIds(w.db.outbox) && Resting(w) && |BatchOf(w)| >= 2
    requires x' in MarkFailed(StampClaims(w.db.outbox, Ids(BatchOf(w)), w.clock), BatchOf(w)[0].id)
    requires Claimable(x', w.clock, w.cfg.maxAttempts) && x'.id <= BatchOf(w)[1].id
    ensures x'.id == BatchOf(w)[0].id
  {
    var rows, batch := w.db.outbox, BatchOf(w);
    var rows' := MarkFailed(StampClaims(rows, Ids(batch), w.clock), batch[0].id);
    var i :| 0 <= i < |rows'| && rows'[i] == x';
    BatchTakesFirst(rows, w.clock, w.cfg.maxAttempts, w.cfg.batchSize);
    assert batch[1] in batch && batch[0].id in Ids(batch);
    assert x'.id !in Ids(batch) ==> x' in rows;
    assert x' in batch ==> x'.id in Ids(batch);
  }

  /** The failed row as the pass leaves it. */
  function FailedRow(w: World): Row
    requires BatchOf(w) != []
  {
    BatchOf(w)[0].(attempts := BatchOf(w)[0].attempts + 1, claimedAt := None)
  }

  lemma FailedRowIsThere(w: World)
    requires DistinctIds(w.db.outbox) && Resting(w) && BatchOf(w) != []
    ensures FailedRow(w) in AfterFailure(w).db.outbox && DistinctIds(AfterFailure(w).db.outbox)
    ensures BatchOf(w)[0].publishedAt.None?
    ensures forall y :: y in AfterFailure(w).db.outbox && y.id == BatchOf(w)[0].id ==> y == FailedRow(w)
  {
    var rows, batch := w.db.outbox, BatchOf(w);
    AfterFailureIs(w);
    BatchMembers(rows, w.clock, w.cfg.maxAttempts, w.cfg.batchSize);
    assert batch[0] in batch && batch[0].id in Ids(batch);
    var i :| 0 <= i < |rows| && rows[i] == batch[0];
    assert AfterFailure(w).db.outbox[i] == FailedRow(w);
  }

  /** A failed row that has attempts left is released at once, and the next pass begins with it. */
  lemma FailedHeadGoesFirst(w: World)
    requires DistinctIds(w.db.outbox) && Resting(w) && BatchOf(w) != []
    ensures var head, next := BatchOf(w)[0], BatchOf(AfterFailure(w));
            if head.attempts + 1 < w.cfg.maxAttempts
            then next != [] && next[0] == head.(attempts := head.attempts + 1, claimedAt := None)
            else forall y :: y in next ==> y.id != head.id
  {
    var w' := AfterFailure(w);
    FailedRowIsThere(w);
    FailureKeepsRest(w);
    if FailedRow(w).attempts < w.cfg.maxAttempts {
      NothingBelowFailed(w);
      OldestGoesFirst(w'.db.outbox, w.clock, w.cfg.maxAttempts, w.cfg.batchSize, FailedRow(w));
    } else {
      BatchMembers(w'.db.outbox, w.clock, w.cfg.maxAttempts, w.cfg.batchSize);
    }
  }

  /**
   * An oversized event fails its first pass for certain, and that pass
   * dead-letters it exactly when it was on its last attempt.
   */
  lemma OversizedDeadLetteredExactly(w: World)
    requires DistinctIds(w.db.outbox) && Resting(w) && BatchOf(w) != [] && BatchOf(w)[0].bytes > MAX_PAYLOAD_BYTES
    ensures forall step :: Enabled(Next(w, Claim(0)), step) && !step.Request? && !step.Tick? ==>
              step == SendErred(0, false) || step == Crash(0)
    ensures (forall y :: y in BatchOf(AfterFailure(w)) ==> y.id != BatchOf(w)[0].id)
            <==> BatchOf(w)[0].attempts + 1 >= w.cfg.maxAttempts
  {
    FailedHeadGoesFirst(w);
    var next := BatchOf(AfterFailure(w));
    assert next != [] ==> next[0] in next;
  }

  lemma OldestGoesFirst(rows: seq<Row>, now: nat, maxAttempts: nat, limit: nat, x: Row)
    requires DistinctIds(rows) && limit >= 1 && x in rows && Claimable(x, now, maxAttempts)
    requires forall y :: y in rows && Claimable(y, now, maxAttempts) ==> x.id <= y.id
    ensures Batch(rows, now, maxAttempts, limit) != [] && Batch(rows, now, maxAttempts, limit)[0] == x
  {
    var b := Batch(rows, now, maxAttempts, limit);
    BatchMembers(rows, now, maxAttempts, limit);
    BatchTakesFirst(rows, now, maxAttempts, limit);
    BatchIncreasing(rows, now, maxAttempts, limit);
    assert b != [] ==> b[0] in b;
    var k :| 0 <= k < |b| && b[k] == x;
  }

  /** After the failure no row below the failed one can be claimed. */
  lemma NothingBelowFailed(w: World)
    requires DistinctIds(w.db.outbox) && Resting(w) && BatchOf(w) != []
    ensures forall y :: y in AfterFailure(w).db.outbox && Claimable(y, w.clock, w.cfg.maxAttempts) ==> BatchOf(w)[0].id <= y.id
  {
    var rows, batch := w.db.outbox, BatchOf(w);
    AfterFailureIs(w);
    var rows' := AfterFailure(w).db.outbox;
    BatchTakesFirst(rows, w.clock, w.cfg.maxAttempts, w.cfg.batchSize);
    BatchIncreasing(rows, w.clock, w.cfg.maxAttempts, w.cfg.batchSize);
    assert batch[0] in batch;
    forall y | y in rows' && Claimable(y, w.clock, w.cfg.maxAttempts) ensures batch[0].id <= y.id {
      var i :| 0 <= i < |rows'| && rows'[i] == y;
      if y.id !in Ids(batch) {
        assert y == rows[i] && y in rows;
      } else {
        var k :| 0 <= k < |batch| && batch[k].id == y.id;
      }
    }
  }

  /**
   * So the promise that a failed publish never lets a later event overtake does
   * not hold: whenever the first send of a batch of two or more fails while a
   * further row waits, the very next pass overtakes the row left behind, and a
   * continuation without another fault puts the log out of order.
   */
  lemma FailedSendDisorders(w: World, z: Row)
    requires Inv(w) && AtRest(w) && |BatchOf(w)| >= 2
    requires z in w.db.outbox && z !in BatchOf(w) && Claimable(z, w.clock, w.cfg.maxAttempts)
    ensures !NoOvertaking(AfterFailure(w))
    ensures exists ms :: !SortedLog(Play(AfterFailure(w), PassAndNext(AfterFailure(w), ms)).log)
  {
    var w', batch, left := AfterFailure(w), BatchOf(w), BatchOf(w)[1].(claimedAt := Some(w.clock));
    LeftoverStaysClaimed(w);
    StepKeepsInv(w, Claim(0));
    StepKeepsInv(Next(w, Claim(0)), SendErred(0, false));
    StepKeepsInv(Next(Next(w, Claim(0)), SendErred(0, false)), FailDone(0));
    BatchTakesFirst(w.db.outbox, w.clock, w.cfg.maxAttempts, w.cfg.batchSize);
    assert batch[1] in batch;
    var y := NextBatchOvertakes(w', left, z, batch[0].id);
    PassKeepsIds(w');
    OvertakingDisorders(w', left, y);
  }

  lemma NextBatchOvertakes(w: World, left: Row, z: Row, headId: nat) returns (y: Row)
    requires DistinctIds(w.db.outbox) && w.cfg.batchSize >= 2
    requires left in w.db.outbox && Live(left, w.cfg.maxAttempts) && FreshClaim(left, w.clock)
    requires z in w.db.outbox && Claimable(z, w.clock, w.cfg.maxAttempts) && left.id < z.id
    requires forall x :: x in w.db.outbox && Claimable(x, w.clock, w.cfg.maxAttempts) && x.id <= left.id ==> x.id == headId
    ensures LeftBehind(w, left, y) && !NoOvertaking(w)
  {
    var rows, next := w.db.outbox, BatchOf(w);
    BatchIncreasing(rows, w.clock, w.cfg.maxAttempts, w.cfg.batchSize);
    BatchMembers(rows, w.clock, w.cfg.maxAttempts, w.cfg.batchSize);
    BatchTakesFirst(rows, w.clock, w.cfg.maxAttempts, w.cfg.batchSize);
    if left.id in Ids(next) {
      BatchedById(rows, w.clock, w.cfg.maxAttempts, w.cfg.batchSize, left);
    }
    if z in next {
      y := z;
    } else {
      y := next[1];
      assert next[0] in next && next[1] in next;
      assert next[0].id < next[1].id < z.id;
    }
    var k :| 0 <= k < |next| && next[k] == y;
  }
}
