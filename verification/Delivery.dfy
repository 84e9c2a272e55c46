/** How often a row reaches the broker, with one relay or with several that keep to the claim timeout. */
module Delivery {
  import opened Wrappers
  import opened Outbox
  import opened Pipeline

  function Copies(log: seq<Message>, id: nat): nat {
    if log == [] then 0
    else Copies(log[..|log| - 1], id) + if log[|log| - 1].sequence == id then 1 else 0
  }

  function QueueIds(b: Relay): set<nat> {
    if b.Busy? then Ids(b.queue) else {}
  }

  // ---------------------------------------------------------------- disjoint batches

  /** The unprocessed parts of any two relays' batches are disjoint. */
  ghost predicate Disjoint(w: World) {
    forall r, s :: 0 <= r < |w.relays| && 0 <= s < |w.relays| && r != s ==>
      QueueIds(w.relays[r]) !! QueueIds(w.relays[s])
  }

  /** A row in hand is unpublished, unless it is a head whose mark took effect but reported an error. */
  ghost predicate InHandUnpublished(rows: seq<Row>, b: Relay) {
    b.Busy? ==>
      forall i, k :: 0 <= i < |rows| && 0 <= k < |b.queue| && rows[i].id == b.queue[k].id && rows[i].publishedAt.Some?
        ==> k == 0 && b.phase == Failing
  }

  ghost predicate Exclusive(w: World) {
    Disjoint(w) && forall r :: 0 <= r < |w.relays| ==> InHandUnpublished(w.db.outbox, w.relays[r])
  }

  /** The claim takes no row that another relay still has in hand. */
  ghost predicate Apart(w: World, step: Step) {
    step.Claim? && Enabled(w, step) ==>
      forall s :: 0 <= s < |w.relays| && s != step.relay ==> Ids(BatchOf(w)) !! QueueIds(w.relays[s])
  }

  ghost predicate ApartRun(w: World, steps: seq<Step>) {
    forall i :: 0 <= i < |steps| ==> Apart(Play(w, steps[..i]), steps[i])
  }

  lemma ApartRunInit(w: World, steps: seq<Step>)
    requires steps != [] && ApartRun(w, steps)
    ensures ApartRun(w, steps[..|steps| - 1])
    ensures Apart(Play(w, steps[..|steps| - 1]), steps[|steps| - 1])
  {
    var init := steps[..|steps| - 1];
    forall i | 0 <= i < |init| ensures Apart(Play(w, init[..i]), init[i]) {
      assert Apart(Play(w, steps[..i]), steps[i]);
      assert init[..i] == steps[..i];
    }
  }

  /** A queue shrinks, or is the batch just claimed. */
  lemma QueueMoves(w: World, step: Step, r: nat)
    requires r < |w.relays|
    ensures var ids' := QueueIds(Next(w, step).relays[r]);
            ids' <= QueueIds(w.relays[r]) || (step == Claim(r) && Enabled(w, step) && ids' == Ids(BatchOf(w)))
  {
  }

  lemma StepKeepsDisjoint(w: World, step: Step)
    requires Disjoint(w) && Apart(w, step)
    ensures Disjoint(Next(w, step))
  {
    var w' := Next(w, step);
    forall r: nat, s: nat | r < |w.relays| && s < |w.relays| && r != s
      ensures QueueIds(w'.relays[r]) !! QueueIds(w'.relays[s])
    {
      QueueMoves(w, step, r);
      QueueMoves(w, step, s);
      assert QueueIds(w.relays[r]) !! QueueIds(w.relays[s]);
    }
  }

  lemma ClaimedUnpublished(rows: seq<Row>, now: nat, maxAttempts: nat, limit: nat, since: nat)
    requires DistinctIds(rows)
    ensures var batch := Batch(rows, now, maxAttempts, limit);
            InHandUnpublished(StampClaims(rows, Ids(batch), now), Busy(batch, Sending, since))
  {
    var batch := Batch(rows, now, maxAttempts, limit);
    BatchMembers(rows, now, maxAttempts, limit);
    forall i, k | 0 <= i < |rows| && 0 <= k < |batch| && rows[i].id == batch[k].id
      ensures rows[i].publishedAt.None?
    {
      assert rows[i].id in Ids(batch);
      BatchedById(rows, now, maxAttempts, limit, rows[i]);
    }
  }

  /** Other relays' marks do not touch the rows this relay has in hand. */
  lemma OtherMarkKeeps(rows: seq<Row>, b: Relay, id: nat, now: nat)
    requires InHandUnpublished(rows, b) && id !in QueueIds(b)
    ensures InHandUnpublished(MarkPublished(rows, id, now), b)
  {
    if b.Busy? {
      assert forall k :: 0 <= k < |b.queue| ==> b.queue[k].id in QueueIds(b);
    }
  }

  lemma MoverUnpublished(w: World, step: Step, r: nat)
    requires Exclusive(w) && DistinctIds(w.db.outbox) && r < |w.relays| && RelayOk(w.db.outbox, w.log, w.relays[r])
    requires Enabled(w, step) && !step.Request? && !step.Tick? && step.relay == r
    ensures InHandUnpublished(Next(w, step).db.outbox, Next(w, step).relays[r])
  {
    if step.Claim? {
      ClaimedUnpublished(w.db.outbox, w.clock, w.cfg.maxAttempts, w.cfg.batchSize, w.clock);
    } else {
      assert InHandUnpublished(w.db.outbox, w.relays[r]);
    }
  }

  lemma BystanderUnpublished(w: World, step: Step, r: nat)
    requires Inv(w) && Exclusive(w) && r < |w.relays|
    requires Enabled(w, step) && (step.Request? || step.Tick? || step.relay != r)
    ensures InHandUnpublished(Next(w, step).db.outbox, Next(w, step).relays[r])
  {
    var b := w.relays[r];
    assert InHandUnpublished(w.db.outbox, b);
    if step.Request? {
      RequestAppends(w, step.tx);
    } else if step.MarkDone? || step.MarkErred? {
      HeadIsTheirs(w, step.relay, r);
      OtherMarkKeeps(w.db.outbox, b, Head(w, step.relay).id, w.clock);
    }
  }

  lemma HeadIsTheirs(w: World, s: nat, r: nat)
    requires Disjoint(w) && s < |w.relays| && r < |w.relays| && r != s
    requires w.relays[s].Busy? && w.relays[s].queue != []
    ensures Head(w, s).id !in QueueIds(w.relays[r])
  {
    assert QueueIds(w.relays[r]) !! QueueIds(w.relays[s]);
    assert Head(w, s).id in QueueIds(w.relays[s]);
  }

  lemma StepKeepsExclusive(w: World, step: Step)
    requires Inv(w) && Exclusive(w) && Apart(w, step)
    ensures Exclusive(Next(w, step))
  {
    StepKeepsDisjoint(w, step);
    forall r: nat | r < |w.relays|
      ensures InHandUnpublished(Next(w, step).db.outbox, Next(w, step).relays[r])
    {
      if Enabled(w, step) {
        assert RelayOk(w.db.outbox, w.log, w.relays[r]);
        if step.Request? || step.Tick? || step.relay != r {
          BystanderUnpublished(w, step, r);
        } else {
          MoverUnpublished(w, step, r);
        }
      }
    }
  }

  // ---------------------------------------------------------------- who keeps batches disjoint

  /** One relay has nobody to collide with. */
  lemma OneRelayIsApart(w: World, step: Step)
    requires |w.relays| == 1
    ensures Apart(w, step)
  {
  }

  /** Time passes only while every batch in hand is within the claim timeout. */
  predicate Timely(w: World, step: Step) {
    step.Tick? ==>
      forall r :: 0 <= r < |w.relays| && w.relays[r].Busy? ==> w.clock + step.ms <= w.relays[r].since + CLAIM_TIMEOUT_MS
  }

  ghost predicate TimelyRun(w: World, steps: seq<Step>) {
    forall i :: 0 <= i < |steps| ==> Timely(Play(w, steps[..i]), steps[i])
  }

  /** A row in hand carries its relay's claim, or is published already. */
  ghost predicate HoldsClaims(rows: seq<Row>, b: Relay) {
    b.Busy? ==>
      forall i, k :: 0 <= i < |rows| && 0 <= k < |b.queue| && rows[i].id == b.queue[k].id
        ==> rows[i].publishedAt.Some? || rows[i].claimedAt == Some(b.since)
  }

  ghost predicate Timed(w: World) {
    forall r :: 0 <= r < |w.relays| && w.relays[r].Busy? ==>
      w.clock <= w.relays[r].since + CLAIM_TIMEOUT_MS && HoldsClaims(w.db.outbox, w.relays[r])
  }

  lemma TimedIsApart(w: World, step: Step)
    requires Inv(w) && Timed(w)
    ensures Apart(w, step)
  {
    if step.Claim? && Enabled(w, step) {
      var rows, batch := w.db.outbox, BatchOf(w);
      BatchMembers(rows, w.clock, w.cfg.maxAttempts, w.cfg.batchSize);
      forall s, k | 0 <= s < |w.relays| && s != step.relay && 0 <= k < |batch|
        ensures batch[k].id !in QueueIds(w.relays[s])
      {
        assert batch[k] in batch;
        var i :| 0 <= i < |rows| && rows[i] == batch[k];
        if w.relays[s].Busy? {
          assert HoldsClaims(rows, w.relays[s]);
        }
      }
    }
  }

  lemma OtherUpdateKeepsClaims(rows: seq<Row>, rows': seq<Row>, ids: set<nat>, b: Relay)
    requires HoldsClaims(rows, b) && QueueIds(b) !! ids && |rows'| == |rows|
    requires forall i :: 0 <= i < |rows| ==> rows'[i].id == rows[i].id && (rows[i].id !in ids ==> rows'[i] == rows[i])
    ensures HoldsClaims(rows', b)
  {
    if b.Busy? {
      assert forall k :: 0 <= k < |b.queue| ==> b.queue[k].id in QueueIds(b);
    }
  }

  /** The rows one step may update. */
  function Touched(w: World, step: Step): set<nat>
    requires Enabled(w, step)
  {
    match step
    case Claim(_) => Ids(BatchOf(w))
    case MarkDone(r) => {Head(w, r).id}
    case MarkErred(r, _) => {Head(w, r).id}
    case FailDone(r) => {Head(w, r).id}
    case FailErred(r, _) => {Head(w, r).id}
    case _ => {}
  }

  lemma AppendKeepsClaims(rows: seq<Row>, rows': seq<Row>, log: seq<Message>, b: Relay)
    requires HoldsClaims(rows, b) && RelayOk(rows, log, b) && rows <= rows'
    requires forall i, q :: |rows| <= i < |rows'| && InTable(rows, q) ==> q.id != rows'[i].id
    ensures HoldsClaims(rows', b)
  {
    if b.Busy? {
      forall i, k | |rows| <= i < |rows'| && 0 <= k < |b.queue| ensures rows'[i].id != b.queue[k].id {
        assert b.queue[k] in b.queue;
      }
    }
  }

  lemma BystanderKeepsClaims(w: World, step: Step, r: nat)
    requires Inv(w) && Exclusive(w) && Timed(w) && r < |w.relays| && w.relays[r].Busy?
    requires Enabled(w, step) && (step.Request? || step.Tick? || step.relay != r)
    ensures HoldsClaims(Next(w, step).db.outbox, w.relays[r])
  {
    var b := w.relays[r];
    assert HoldsClaims(w.db.outbox, b) && RelayOk(w.db.outbox, w.log, b);
    if step.Request? {
      RequestAppends(w, step.tx);
      AppendKeepsClaims(w.db.outbox, Next(w, step).db.outbox, w.log, b);
    } else if !step.Tick? {
      TimedIsApart(w, step);
      if !step.Claim? && !step.Crash? {
        HeadIsTheirs(w, step.relay, r);
      }
      OtherUpdateKeepsClaims(w.db.outbox, Next(w, step).db.outbox, Touched(w, step), b);
    }
  }

  lemma MoverKeepsClaims(w: World, step: Step, r: nat)
    requires DistinctIds(w.db.outbox) && Timed(w) && r < |w.relays| && RelayOk(w.db.outbox, w.log, w.relays[r])
    requires Enabled(w, step) && !step.Request? && !step.Tick? && step.relay == r
    requires Next(w, step).relays[r].Busy?
    ensures HoldsClaims(Next(w, step).db.outbox, Next(w, step).relays[r])
    ensures w.clock <= Next(w, step).relays[r].since + CLAIM_TIMEOUT_MS
  {
    if step.Claim? {
      assert forall k :: 0 <= k < |BatchOf(w)| ==> BatchOf(w)[k].id in Ids(BatchOf(w));
    } else {
      assert HoldsClaims(w.db.outbox, w.relays[r]);
    }
  }

  lemma StepKeepsTimed(w: World, step: Step)
    requires Inv(w) && Exclusive(w) && Timed(w) && Timely(w, step)
    ensures Timed(Next(w, step))
  {
    var w' := Next(w, step);
    forall r: nat | r < |w'.relays| && w'.relays[r].Busy?
      ensures w'.clock <= w'.relays[r].since + CLAIM_TIMEOUT_MS && HoldsClaims(w'.db.outbox, w'.relays[r])
    {
      if Enabled(w, step) {
        assert RelayOk(w.db.outbox, w.log, w.relays[r]);
        if step.Request? || step.Tick? || step.relay != r {
          BystanderKeepsClaims(w, step, r);
        } else {
          MoverKeepsClaims(w, step, r);
        }
      }
    }
  }

  /**
   * Several relays: if every relay is done with its batch within the claim
   * timeout, no two ever have the same row in hand.
   */
  lemma {:induction false} TimelyRelaysAreDisjoint(cfg: Config, relays: nat, steps: seq<Step>)
    requires TimelyRun(Start(cfg, relays), steps)
    ensures var w := Play(Start(cfg, relays), steps); Exclusive(w) && Timed(w)
    ensures ApartRun(Start(cfg, relays), steps)
  {
    if steps != [] {
      var init, step := steps[..|steps| - 1], steps[|steps| - 1];
      var w := Play(Start(cfg, relays), init);
      forall i | 0 <= i < |init| ensures Timely(Play(Start(cfg, relays), init[..i]), init[i]) {
        assert Timely(Play(Start(cfg, relays), steps[..i]), steps[i]);
        assert init[..i] == steps[..i];
      }
      TimelyRelaysAreDisjoint(cfg, relays, init);
      Reachable(cfg, relays, init);
      TimedIsApart(w, step);
      assert Timely(Play(Start(cfg, relays), steps[..|steps| - 1]), steps[|steps| - 1]);
      StepKeepsExclusive(w, step);
      StepKeepsTimed(w, step);
      forall i | 0 <= i < |steps| ensures Apart(Play(Start(cfg, relays), steps[..i]), steps[i]) {
        if i < |init| {
          assert Apart(Play(Start(cfg, relays), init[..i]), init[i]);
          assert init[..i] == steps[..i];
        }
      }
    }
  }

  // ---------------------------------------------------------------- accounting for copies

  /** Steps that may let a message already appended be sent again. */
  predicate IsFault(w: World, step: Step, id: nat) {
    Enabled(w, step) &&
    match step
    case SendErred(r, appended) => appended && Head(w, r).id == id
    case MarkErred(r, _) => Head(w, r).id == id
    case Crash(r) => InPhase(w, r, Marking) && Head(w, r).id == id
    case _ => false
  }

  function Faults(w: World, steps: seq<Step>, id: nat): nat {
    if steps == [] then 0
    else
      var init := steps[..|steps| - 1];
      Faults(w, init, id) + if IsFault(Play(w, init), steps[|steps| - 1], id) then 1 else 0
  }

  ghost predicate PublishedRow(rows: seq<Row>, id: nat) {
    exists i :: 0 <= i < |rows| && rows[i].id == id && rows[i].publishedAt.Some?
  }

  ghost predicate BeingMarked(w: World, id: nat) {
    exists r: nat :: InPhase(w, r, Marking) && Head(w, r).id == id
  }

  /** One more copy is to be expected unless the row is published or about to be marked. */
  ghost function Expected(w: World, id: nat): nat {
    if PublishedRow(w.db.outbox, id) || BeingMarked(w, id) then 0 else 1
  }

  lemma CopiesAppend(log: seq<Message>, m: Message, id: nat)
    ensures Copies(log + [m], id) == Copies(log, id) + if m.sequence == id then 1 else 0
  {
    assert (log + [m])[..|log|] == log;
  }

  /** A published row stays published. */
  lemma PublishedStays(w: World, step: Step, id: nat)
    requires PublishedRow(w.db.outbox, id)
    ensures PublishedRow(Next(w, step).db.outbox, id)
  {
    var i :| 0 <= i < |w.db.outbox| && w.db.outbox[i].id == id && w.db.outbox[i].publishedAt.Some?;
    assert Next(w, step).db.outbox[i].id == id && Next(w, step).db.outbox[i].publishedAt.Some?;
  }

  lemma MarkDonePublishes(w: World, r: nat)
    requires InPhase(w, r, Marking) && RelayOk(w.db.outbox, w.log, w.relays[r])
    ensures PublishedRow(Next(w, MarkDone(r)).db.outbox, Head(w, r).id)
  {
    var q := Head(w, r);
    assert q in w.relays[r].queue;
    var i :| 0 <= i < |w.db.outbox| && SameEntries([w.db.outbox[i]], [q]);
    assert [w.db.outbox[i]][0].id == [q][0].id;
    var rows' := Next(w, MarkDone(r)).db.outbox;
    assert rows'[i].id == q.id && rows'[i].publishedAt.Some?;
  }

  lemma MarkingUntouched(w: World, step: Step, r: nat)
    requires InPhase(w, r, Marking) && step != MarkDone(r) && !IsFault(w, step, Head(w, r).id)
    ensures InPhase(Next(w, step), r, Marking) && Head(Next(w, step), r) == Head(w, r)
  {
  }

  /** A row being marked stays so, or becomes published, unless a fault strikes it. */
  lemma MarkedStays(w: World, step: Step, id: nat)
    requires Inv(w) && BeingMarked(w, id) && !IsFault(w, step, id)
    ensures Expected(Next(w, step), id) == 0
  {
    var r: nat :| InPhase(w, r, Marking) && Head(w, r).id == id;
    assert RelayOk(w.db.outbox, w.log, w.relays[r]);
    if step == MarkDone(r) {
      MarkDonePublishes(w, r);
    } else {
      MarkingUntouched(w, step, r);
      assert BeingMarked(Next(w, step), id);
    }
  }

  /** A send hits a row that still expects a copy, and an acknowledged send uses that copy up. */
  lemma SendExpected(w: World, r: nat)
    requires Inv(w) && Exclusive(w) && InPhase(w, r, Sending)
    ensures Expected(w, Head(w, r).id) == 1
  {
    var id := Head(w, r).id;
    assert InHandUnpublished(w.db.outbox, w.relays[r]);
    assert id in QueueIds(w.relays[r]);
    forall s: nat | InPhase(w, s, Marking) ensures Head(w, s).id != id {
      assert QueueIds(w.relays[r]) !! QueueIds(w.relays[s]);
      assert Head(w, s).id in QueueIds(w.relays[s]);
    }
  }

  lemma StepAccounts(w: World, step: Step, id: nat)
    requires Inv(w) && Exclusive(w)
    ensures Copies(Next(w, step).log, id) + Expected(Next(w, step), id)
         <= Copies(w.log, id) + Expected(w, id) + if IsFault(w, step, id) then 1 else 0
  {
    var w' := Next(w, step);
    if Expected(w, id) == 0 {
      if PublishedRow(w.db.outbox, id) {
        PublishedStays(w, step, id);
      } else if !IsFault(w, step, id) {
        MarkedStays(w, step, id);
      }
    }
    if w'.log != w.log {
      CopiesAppend(w.log, MessageOf(Head(w, step.relay)), id);
      SendExpected(w, step.relay);
      if step.SendAcked? && Head(w, step.relay).id == id {
        assert InPhase(w', step.relay, Marking) && Head(w', step.relay).id == id;
      }
    }
  }

  /**
   * Duplicates are accounted for: if batches in hand are disjoint, the broker
   * holds at most one copy of a row plus one for each crash, failed mark or
   * unacknowledged append that struck that row after it was sent.
   */
  lemma {:induction false} CopiesAccounted(cfg: Config, relays: nat, steps: seq<Step>, id: nat)
    requires ApartRun(Start(cfg, relays), steps)
    ensures var w := Play(Start(cfg, relays), steps);
            && Exclusive(w)
            && Copies(w.log, id) + Expected(w, id) <= 1 + Faults(Start(cfg, relays), steps, id)
  {
    if steps != [] {
      var init, step := steps[..|steps| - 1], steps[|steps| - 1];
      ApartRunInit(Start(cfg, relays), steps);
      CopiesAccounted(cfg, relays, init, id);
      Reachable(cfg, relays, init);
      StepKeepsExclusive(Play(Start(cfg, relays), init), step);
      StepAccounts(Play(Start(cfg, relays), init), step, id);
    }
  }

  /** With one relay this needs no assumption about time. */
  lemma OneRelayCopies(cfg: Config, steps: seq<Step>, id: nat)
    ensures Copies(Play(Start(cfg, 1), steps).log, id) <= 1 + Faults(Start(cfg, 1), steps, id)
  {
    forall i | 0 <= i < |steps| ensures Apart(Play(Start(cfg, 1), steps[..i]), steps[i]) {
      RelayCountFixed(Start(cfg, 1), steps[..i]);
      OneRelayIsApart(Play(Start(cfg, 1), steps[..i]), steps[i]);
    }
    CopiesAccounted(cfg, 1, steps, id);
  }

  lemma {:induction false} RelayCountFixed(w: World, steps: seq<Step>)
    ensures |Play(w, steps).relays| == |w.relays|
  {
    if steps != [] {
      RelayCountFixed(w, steps[..|steps| - 1]);
    }
  }

  /** With several timely relays, a row that no fault strikes reaches the broker at most once. */
  lemma TimelyRelaysSendOnce(cfg: Config, relays: nat, steps: seq<Step>, id: nat)
    requires TimelyRun(Start(cfg, relays), steps)
    requires Faults(Start(cfg, relays), steps, id) == 0
    ensures Copies(Play(Start(cfg, relays), steps).log, id) <= 1
  {
    TimelyRelaysAreDisjoint(cfg, relays, steps);
    CopiesAccounted(cfg, relays, steps, id);
  }
}
