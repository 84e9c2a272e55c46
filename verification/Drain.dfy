/** The queue drains: what each pass spends, and how many passes there can be. */
module Drain {
  import opened Outbox
  import opened Pipeline
  import opened Delivery
  import opened Overtaking
  import opened OutboxRelay

  /** Attempts a row may still fail. */
  function Remaining(row: Row, maxAttempts: nat): nat {
    if Live(row, maxAttempts) then maxAttempts - row.attempts else 0
  }

  function Budget(rows: seq<Row>, maxAttempts: nat): nat {
    if rows == [] then 0
    else Budget(rows[..|rows| - 1], maxAttempts) + Remaining(rows[|rows| - 1], maxAttempts)
  }

  function Backlog(rows: seq<Row>): nat {
    if rows == [] then 0
    else Backlog(rows[..|rows| - 1]) + if rows[|rows| - 1].publishedAt.None? then 1 else 0
  }

  lemma {:induction false} BudgetMonotone(a: seq<Row>, b: seq<Row>, maxAttempts: nat)
    requires |a| == |b|
    requires forall i :: 0 <= i < |a| ==> Remaining(b[i], maxAttempts) <= Remaining(a[i], maxAttempts)
    ensures Budget(b, maxAttempts) <= Budget(a, maxAttempts)
    ensures forall i :: 0 <= i < |a| && Remaining(b[i], maxAttempts) < Remaining(a[i], maxAttempts)
              ==> Budget(b, maxAttempts) < Budget(a, maxAttempts)
  {
    if a != [] {
      BudgetMonotone(a[..|a| - 1], b[..|b| - 1], maxAttempts);
    }
  }

  lemma {:induction false} BacklogMonotone(a: seq<Row>, b: seq<Row>)
    requires |a| == |b|
    requires forall i :: 0 <= i < |a| && a[i].publishedAt.Some? ==> b[i].publishedAt.Some?
    ensures Backlog(b) <= Backlog(a)
    ensures forall i :: 0 <= i < |a| && a[i].publishedAt.None? && b[i].publishedAt.Some? ==> Backlog(b) < Backlog(a)
  {
    if a != [] {
      BacklogMonotone(a[..|a| - 1], b[..|b| - 1]);
    }
  }

  lemma {:induction false} BudgetBounds(rows: seq<Row>, maxAttempts: nat)
    ensures Budget(rows, maxAttempts) <= maxAttempts * |rows|
    ensures Budget(rows, maxAttempts) == 0 <==> forall row :: row in rows ==> !Live(row, maxAttempts)
  {
    if rows != [] {
      var n := |rows| - 1;
      BudgetBounds(rows[..n], maxAttempts);
      assert rows == rows[..n] + [rows[n]];
      assert maxAttempts * |rows| == maxAttempts * n + maxAttempts;
    }
  }

  // ---------------------------------------------------------------- one step

  lemma StepOnlySpends(w: World, step: Step)
    requires !step.Request?
    ensures var rows, rows' := w.db.outbox, Next(w, step).db.outbox;
            && |rows| == |rows'|
            && forall i :: 0 <= i < |rows| ==>
                 && Remaining(rows'[i], w.cfg.maxAttempts) <= Remaining(rows[i], w.cfg.maxAttempts)
                 && (rows[i].publishedAt.Some? ==> rows'[i].publishedAt.Some?)
  {
  }

  /** Nothing but a request adds to what is left to do. */
  lemma StepSpends(w: World, step: Step)
    requires !step.Request?
    ensures Budget(Next(w, step).db.outbox, w.cfg.maxAttempts) <= Budget(w.db.outbox, w.cfg.maxAttempts)
    ensures Backlog(Next(w, step).db.outbox) <= Backlog(w.db.outbox)
  {
    StepOnlySpends(w, step);
    BudgetMonotone(w.db.outbox, Next(w, step).db.outbox, w.cfg.maxAttempts);
    BacklogMonotone(w.db.outbox, Next(w, step).db.outbox);
  }

  lemma {:induction false} PlaySpends(w: World, steps: seq<Step>)
    requires forall i :: 0 <= i < |steps| ==> !steps[i].Request?
    ensures Play(w, steps).cfg == w.cfg
    ensures Budget(Play(w, steps).db.outbox, w.cfg.maxAttempts) <= Budget(w.db.outbox, w.cfg.maxAttempts)
    ensures Backlog(Play(w, steps).db.outbox) <= Backlog(w.db.outbox)
  {
    if steps != [] {
      PlaySpends(w, steps[..|steps| - 1]);
      StepSpends(Play(w, steps[..|steps| - 1]), steps[|steps| - 1]);
    }
  }

  /** The table position of a row in hand. */
  lemma HeadPosition(w: World, r: nat) returns (i: nat)
    requires Inv(w) && r < |w.relays| && w.relays[r].Busy?
    ensures w.relays[r].queue != []
    ensures i < |w.db.outbox| && w.db.outbox[i].id == Head(w, r).id
  {
    assert RelayOk(w.db.outbox, w.log, w.relays[r]);
    assert Head(w, r) in w.relays[r].queue;
    i :| 0 <= i < |w.db.outbox| && SameEntries([w.db.outbox[i]], [Head(w, r)]);
    assert [w.db.outbox[i]][0].id == [Head(w, r)][0].id;
  }

  predicate HeadLive(w: World) {
    |w.relays| == 1 && w.relays[0].Busy? && w.relays[0].queue != [] &&
    forall i :: 0 <= i < |w.db.outbox| && w.db.outbox[i].id == Head(w, 0).id ==> Live(w.db.outbox[i], w.cfg.maxAttempts)
  }

  /** Recording the outcome for a live head, success or failure, spends at least one attempt. */
  lemma RecordingSpends(w: World, step: Step)
    requires Inv(w) && HeadLive(w) && Enabled(w, step)
    requires step == MarkDone(0) || step == FailDone(0)
    ensures Budget(Next(w, step).db.outbox, w.cfg.maxAttempts) < Budget(w.db.outbox, w.cfg.maxAttempts)
  {
    var i := HeadPosition(w, 0);
    var rows' := Next(w, step).db.outbox;
    BudgetMonotone(w.db.outbox, rows', w.cfg.maxAttempts);
    assert Remaining(rows'[i], w.cfg.maxAttempts) < Remaining(w.db.outbox[i], w.cfg.maxAttempts);
  }

  // ---------------------------------------------------------------- one pass

  /** Both database writes an event may need succeed; the broker may do as it likes. */
  predicate WritesSucceed(attempts: seq<Attempt>) {
    forall i :: 0 <= i < |attempts| ==> attempts[i].mark.Done? && attempts[i].fail.Done?
  }

  function PassSteps(w: World, attempts: seq<Attempt>): seq<Step>
    requires |BatchOf(w)| <= |attempts|
  {
    [Claim(0)] + Script(BatchOf(w), attempts)
  }

  lemma {:induction false} ScriptHasNoRequest(queue: seq<Row>, attempts: seq<Attempt>)
    requires |queue| <= |attempts|
    ensures forall i :: 0 <= i < |Script(queue, attempts)| ==> !Script(queue, attempts)[i].Request?
  {
    if queue != [] && Delivered(queue[0], attempts[0]) {
      ScriptHasNoRequest(queue[1..], attempts[1..]);
    }
  }

  lemma SendLeavesTable(w: World, step: Step)
    requires HeadLive(w) && Enabled(w, step) && (step.SendAcked? || step.SendErred?)
    ensures var w' := Next(w, step);
            && w'.db == w.db && w'.cfg == w.cfg && HeadLive(w')
            && w'.relays[0].phase == (if step.SendAcked? then Marking else Failing)
  {
  }

  lemma RowStepsSpend(w: World, a: Attempt)
    requires Inv(w) && HeadLive(w) && w.relays[0].phase == Sending && a.mark.Done? && a.fail.Done?
    ensures Budget(Play(w, RowSteps(Head(w, 0), a)).db.outbox, w.cfg.maxAttempts) < Budget(w.db.outbox, w.cfg.maxAttempts)
  {
    var first := if Delivered(Head(w, 0), a) then SendAcked(0) else SendErred(0, a.send.Unanswered? && Head(w, 0).bytes <= MAX_PAYLOAD_BYTES);
    var second := if Delivered(Head(w, 0), a) then MarkDone(0) else FailDone(0);
    assert RowSteps(Head(w, 0), a) == [first, second];
    PlayTwo(w, first, second);
    StepKeepsInv(w, first);
    SendLeavesTable(w, first);
    RecordingSpends(Next(w, first), second);
  }

  /** The script after its first row. */
  function RestOf(queue: seq<Row>, attempts: seq<Attempt>): seq<Step>
    requires queue != [] && |queue| <= |attempts|
  {
    if Delivered(queue[0], attempts[0]) then Script(queue[1..], attempts[1..]) else []
  }

  lemma ScriptSplits(w: World, queue: seq<Row>, attempts: seq<Attempt>)
    requires queue != [] && |queue| <= |attempts|
    ensures Play(w, Script(queue, attempts)) == Play(Play(w, RowSteps(queue[0], attempts[0])), RestOf(queue, attempts))
  {
    PlayAppend(w, RowSteps(queue[0], attempts[0]), RestOf(queue, attempts));
  }

  lemma RestHasNoRequest(queue: seq<Row>, attempts: seq<Attempt>)
    requires queue != [] && |queue| <= |attempts|
    ensures forall i :: 0 <= i < |RestOf(queue, attempts)| ==> !RestOf(queue, attempts)[i].Request?
  {
    ScriptHasNoRequest(queue[1..], attempts[1..]);
  }

  lemma RestSpends(w: World, queue: seq<Row>, attempts: seq<Attempt>)
    requires queue != [] && |queue| <= |attempts|
    ensures Budget(Play(w, Script(queue, attempts)).db.outbox, w.cfg.maxAttempts)
         <= Budget(Play(w, RowSteps(queue[0], attempts[0])).db.outbox, w.cfg.maxAttempts)
  {
    ScriptSplits(w, queue, attempts);
    RestHasNoRequest(queue, attempts);
    CfgFixed(w, RowSteps(queue[0], attempts[0]));
    PlaySpends(Play(w, RowSteps(queue[0], attempts[0])), RestOf(queue, attempts));
  }

  /** Every pass that claims a row and whose writes succeed strictly spends. */
  lemma PassSpends(w: World, attempts: seq<Attempt>)
    requires Inv(w) && |w.relays| == 1 && w.relays[0].Idle?
    requires BatchOf(w) != [] && |BatchOf(w)| <= |attempts| && WritesSucceed(attempts)
    ensures Budget(Play(w, PassSteps(w, attempts)).db.outbox, w.cfg.maxAttempts) < Budget(w.db.outbox, w.cfg.maxAttempts)
  {
    PlayFirst(w, Claim(0), Script(BatchOf(w), attempts));
    StepSpends(w, Claim(0));
    StepKeepsInv(w, Claim(0));
    BatchHeadLive(w);
    RowStepsSpend(Next(w, Claim(0)), attempts[0]);
    RestSpends(Next(w, Claim(0)), BatchOf(w), attempts);
  }

  lemma BatchHeadLive(w: World)
    requires Inv(w) && |w.relays| == 1 && w.relays[0].Idle? && BatchOf(w) != []
    ensures HeadLive(Next(w, Claim(0))) && Next(w, Claim(0)).relays[0].phase == Sending
  {
    var rows, batch := w.db.outbox, BatchOf(w);
    BatchMembers(rows, w.clock, w.cfg.maxAttempts, w.cfg.batchSize);
    forall i | 0 <= i < |rows| && rows[i].id == batch[0].id ensures Live(rows[i], w.cfg.maxAttempts) {
      assert rows[i].id in Ids(batch);
      BatchedById(rows, w.clock, w.cfg.maxAttempts, w.cfg.batchSize, rows[i]);
    }
  }

  // ---------------------------------------------------------------- many passes

  /** A pause and then a pass in which the broker and the database behave as told. */
  datatype Pass = Pass(pause: nat, attempts: seq<Attempt>)

  /** The state in which a pass claims. */
  function Waited(w: World, pass: Pass): World {
    Next(w, Tick(pass.pause))
  }

  function AfterOne(w: World, pass: Pass): World
    requires |BatchOf(Waited(w, pass))| <= |pass.attempts|
  {
    Play(Waited(w, pass), PassSteps(Waited(w, pass), pass.attempts))
  }

  /** Each pass claims at least one row and its database writes succeed. */
  predicate AllWork(w: World, passes: seq<Pass>)
    decreases |passes|
  {
    if passes == [] then true
    else
      var v := Waited(w, passes[0]);
      && 1 <= |BatchOf(v)| <= |passes[0].attempts|
      && WritesSucceed(passes[0].attempts)
      && AllWork(AfterOne(w, passes[0]), passes[1..])
  }

  function AfterAll(w: World, passes: seq<Pass>): World
    requires AllWork(w, passes)
    decreases |passes|
  {
    if passes == [] then w else AfterAll(AfterOne(w, passes[0]), passes[1..])
  }

  /** A pass ends with the relay at rest. */
  lemma PassEndsIdle(w: World, attempts: seq<Attempt>)
    requires Inv(w) && |w.relays| == 1 && w.relays[0].Idle? && |BatchOf(w)| <= |attempts|
    ensures Play(w, PassSteps(w, attempts)).relays == [Idle]
  {
    var batch, w1 := BatchOf(w), Next(w, Claim(0));
    PlayFirst(w, Claim(0), Script(batch, attempts));
    assert w1.relays == [if batch == [] then Idle else Busy(batch, Sending, w.clock)];
    ScriptEndsIdle(w1, batch, attempts, w.clock);
  }

  lemma {:induction false} ScriptEndsIdle(w: World, queue: seq<Row>, attempts: seq<Attempt>, since: nat)
    requires |queue| <= |attempts|
    requires w.relays == [if queue == [] then Idle else Busy(queue, Sending, since)]
    ensures Play(w, Script(queue, attempts)).relays == [Idle]
    decreases |queue|
  {
    if queue != [] {
      var steps := RowSteps(queue[0], attempts[0]);
      var rest := if Delivered(queue[0], attempts[0]) then Script(queue[1..], attempts[1..]) else [];
      PlayAppend(w, steps, rest);
      RowStepsMove(w, queue, attempts[0], since);
      if Delivered(queue[0], attempts[0]) {
        ScriptEndsIdle(Play(w, steps), queue[1..], attempts[1..], since);
      }
    }
  }

  lemma UnmarkedRowMoves(w: World, queue: seq<Row>, a: Attempt, since: nat)
    requires queue != [] && w.relays == [Busy(queue, Sending, since)] && |RowSteps(queue[0], a)| == 3
    ensures Play(w, RowSteps(queue[0], a)).relays == [Idle]
  {
    var steps := RowSteps(queue[0], a);
    PlayThree(w, steps[0], steps[1], steps[2]);
    assert Next(w, steps[0]).relays == [Busy(queue, Marking, since)];
    assert Next(Next(w, steps[0]), steps[1]).relays == [Busy(queue, Failing, since)];
  }

  lemma UnsentRowMoves(w: World, queue: seq<Row>, a: Attempt, since: nat)
    requires queue != [] && w.relays == [Busy(queue, Sending, since)]
    requires queue[0].bytes > MAX_PAYLOAD_BYTES || !a.send.Done?
    ensures Play(w, RowSteps(queue[0], a)).relays == [Idle]
  {
    var steps := RowSteps(queue[0], a);
    PlayTwo(w, steps[0], steps[1]);
    assert Next(w, steps[0]).relays == [Busy(queue, Failing, since)];
  }

  lemma DeliveredRowMoves(w: World, queue: seq<Row>, a: Attempt, since: nat)
    requires queue != [] && w.relays == [Busy(queue, Sending, since)] && Delivered(queue[0], a)
    ensures Play(w, RowSteps(queue[0], a)).relays == [if |queue| > 1 then Busy(queue[1..], Sending, since) else Idle]
  {
    PlayTwo(w, SendAcked(0), MarkDone(0));
    assert Next(w, SendAcked(0)).relays == [Busy(queue, Marking, since)];
  }

  lemma RowStepsMove(w: World, queue: seq<Row>, a: Attempt, since: nat)
    requires queue != [] && w.relays == [Busy(queue, Sending, since)]
    ensures Play(w, RowSteps(queue[0], a)).relays ==
            [if Delivered(queue[0], a) && |queue| > 1 then Busy(queue[1..], Sending, since) else Idle]
  {
    if Delivered(queue[0], a) {
      DeliveredRowMoves(w, queue, a, since);
    } else if |RowSteps(queue[0], a)| == 3 {
      UnmarkedRowMoves(w, queue, a, since);
    } else {
      UnsentRowMoves(w, queue, a, since);
    }
  }

  /**
   * With no new rows, working passes number at most what was left to spend,
   * hence at most `maxAttempts` times the rows, however the broker behaves.
   */
  lemma {:induction false} WorkingPassesAreBounded(w: World, passes: seq<Pass>)
    requires Inv(w) && w.relays == [Idle] && AllWork(w, passes)
    ensures Inv(AfterAll(w, passes)) && AfterAll(w, passes).relays == [Idle] && AfterAll(w, passes).cfg == w.cfg
    ensures |passes| + Budget(AfterAll(w, passes).db.outbox, w.cfg.maxAttempts) <= Budget(w.db.outbox, w.cfg.maxAttempts)
    ensures |passes| <= w.cfg.maxAttempts * |w.db.outbox|
    decreases |passes|
  {
    BudgetBounds(w.db.outbox, w.cfg.maxAttempts);
    if passes != [] {
      var v := Waited(w, passes[0]);
      StepKeepsInv(w, Tick(passes[0].pause));
      PassSpends(v, passes[0].attempts);
      PassEndsIdle(v, passes[0].attempts);
      PlayKeepsInv(v, PassSteps(v, passes[0].attempts));
      ScriptHasNoRequest(BatchOf(v), passes[0].attempts);
      PlaySpends(v, PassSteps(v, passes[0].attempts));
      WorkingPassesAreBounded(AfterOne(w, passes[0]), passes[1..]);
    }
  }

  /** As long as a row is neither published nor dead, waiting out the claims makes the next pass claim one. */
  lemma WorkRemains(w: World)
    requires Inv(w) && w.cfg.batchSize >= 1 && Budget(w.db.outbox, w.cfg.maxAttempts) > 0
    ensures exists pause :: BatchOf(Next(w, Tick(pause))) != []
  {
    BudgetBounds(w.db.outbox, w.cfg.maxAttempts);
    var x :| x in w.db.outbox && Live(x, w.cfg.maxAttempts);
    var pause := if x.claimedAt.Some? then x.claimedAt.value + CLAIM_TIMEOUT_MS + 1 else 0;
    var v := Next(w, Tick(pause));
    BatchTakesFirst(v.db.outbox, v.clock, v.cfg.maxAttempts, v.cfg.batchSize);
    assert BatchOf(v) != [];
  }

  /** Nothing left to spend means every row is published or at the attempt limit. */
  lemma Drained(w: World)
    ensures Budget(w.db.outbox, w.cfg.maxAttempts) == 0 <==>
            forall row :: row in w.db.outbox ==> row.publishedAt.Some? || row.attempts >= w.cfg.maxAttempts
  {
    BudgetBounds(w.db.outbox, w.cfg.maxAttempts);
  }

  // ---------------------------------------------------------------- a healthy broker

  /** Every call made for every event succeeds. */
  predicate Healthy(attempts: seq<Attempt>) {
    forall i :: 0 <= i < |attempts| ==> attempts[i].send.Done? && attempts[i].mark.Done? && attempts[i].fail.Done?
  }

  /** No row has been given up on, and the broker can take every row. */
  predicate Deliverable(w: World) {
    forall i :: 0 <= i < |w.db.outbox| ==>
      && w.db.outbox[i].bytes <= MAX_PAYLOAD_BYTES
      && (w.db.outbox[i].publishedAt.Some? || w.db.outbox[i].attempts < w.cfg.maxAttempts)
  }

  predicate Untroubled(step: Step) {
    step.Tick? || step.Claim? || step.SendAcked? || step.MarkDone?
  }

  lemma {:induction false} HealthyScript(queue: seq<Row>, attempts: seq<Attempt>)
    requires |queue| <= |attempts| && Healthy(attempts) && Sendable(queue)
    ensures forall i :: 0 <= i < |Script(queue, attempts)| ==> Untroubled(Script(queue, attempts)[i])
  {
    if queue != [] {
      assert Sendable(queue[1..]);
      HealthyScript(queue[1..], attempts[1..]);
    }
  }

  lemma {:induction false} UntroubledStaysDeliverable(w: World, steps: seq<Step>)
    requires Deliverable(w) && forall i :: 0 <= i < |steps| ==> Untroubled(steps[i])
    ensures Deliverable(Play(w, steps))
  {
    if steps != [] {
      UntroubledStaysDeliverable(w, steps[..|steps| - 1]);
    }
  }

  lemma HealthyPassStaysDeliverable(w: World, pass: Pass)
    requires Deliverable(w) && |BatchOf(Waited(w, pass))| <= |pass.attempts| && Healthy(pass.attempts)
    ensures Deliverable(AfterOne(w, pass))
  {
    var v := Waited(w, pass);
    BatchSendable(v);
    HealthyScript(BatchOf(v), pass.attempts);
    UntroubledStaysDeliverable(v, PassSteps(v, pass.attempts));
  }

  /**
   * With a healthy broker and no oversized event, passes that work until nothing
   * is left publish every row; none is dead-lettered.
   */
  lemma {:induction false} HealthyPassesPublishAll(w: World, passes: seq<Pass>)
    requires AllWork(w, passes) && Deliverable(w)
    requires forall i :: 0 <= i < |passes| ==> Healthy(passes[i].attempts)
    requires Budget(AfterAll(w, passes).db.outbox, AfterAll(w, passes).cfg.maxAttempts) == 0
    ensures forall row :: row in AfterAll(w, passes).db.outbox ==> row.publishedAt.Some?
    decreases |passes|
  {
    if passes == [] {
      Drained(w);
    } else {
      HealthyPassStaysDeliverable(w, passes[0]);
      HealthyPassesPublishAll(AfterOne(w, passes[0]), passes[1..]);
    }
  }

  // ---------------------------------------------------------------- passes without delay

  /** What the calls of successive passes will meet: enough of it, and every database write succeeds. */
  predicate Supplied(fates: seq<seq<Attempt>>, cfg: Config) {
    forall k :: 0 <= k < |fates| ==> cfg.batchSize <= |fates[k]| && WritesSucceed(fates[k])
  }

  /** These passes meet these fates, in this order. */
  predicate Meets(passes: seq<Pass>, fates: seq<seq<Attempt>>) {
    |passes| <= |fates| && forall k :: 0 <= k < |passes| ==> passes[k].attempts == fates[k]
  }

  /** Passes, with waits between them, until every row is published or at the attempt limit. */
  lemma {:induction false} WorkUntilDrained(w: World, fates: seq<seq<Attempt>>) returns (passes: seq<Pass>)
    requires Inv(w) && w.relays == [Idle] && w.cfg.batchSize >= 1
    requires Budget(w.db.outbox, w.cfg.maxAttempts) <= |fates| && Supplied(fates, w.cfg)
    ensures AllWork(w, passes) && Meets(passes, fates)
    ensures Budget(AfterAll(w, passes).db.outbox, w.cfg.maxAttempts) == 0
    decreases |fates|
  {
    if Budget(w.db.outbox, w.cfg.maxAttempts) == 0 {
      return [];
    }
    WorkRemains(w);
    var pause: nat :| BatchOf(Next(w, Tick(pause))) != [];
    var first := Pass.Pass(pause, fates[0]);
    var v := Waited(w, first);
    BatchMembers(v.db.outbox, v.clock, v.cfg.maxAttempts, v.cfg.batchSize);
    assert AllWork(w, [first]);
    assert AfterAll(w, [first]) == AfterOne(w, first) by { assert [first][1..] == []; }
    WorkingPassesAreBounded(w, [first]);
    var rest := WorkUntilDrained(AfterOne(w, first), fates[1..]);
    passes := [first] + rest;
    assert passes[1..] == rest;
  }

  /**
   * The queue drains. From any state with the relay at rest, whatever the broker
   * does to each send, as long as database writes succeed: at most `maxAttempts`
   * passes a row leave every row published or at the attempt limit, and if the
   * broker is healthy and can take the rows, every row published.
   */
  lemma Drains(w: World, fates: seq<seq<Attempt>>)
    requires Inv(w) && w.relays == [Idle] && w.cfg.batchSize >= 1
    requires w.cfg.maxAttempts * |w.db.outbox| <= |fates| && Supplied(fates, w.cfg)
    ensures exists passes ::
              && AllWork(w, passes) && Meets(passes, fates)
              && |passes| <= w.cfg.maxAttempts * |w.db.outbox|
              && var w' := AfterAll(w, passes);
              && (forall row :: row in w'.db.outbox ==> row.publishedAt.Some? || row.attempts >= w.cfg.maxAttempts)
              && (Deliverable(w) && (forall k :: 0 <= k < |fates| ==> Healthy(fates[k])) ==>
                    forall row :: row in w'.db.outbox ==> row.publishedAt.Some?)
  {
    BudgetBounds(w.db.outbox, w.cfg.maxAttempts);
    var passes := WorkUntilDrained(w, fates);
    WorkingPassesAreBounded(w, passes);
    Drained(AfterAll(w, passes));
    if Deliverable(w) && forall k :: 0 <= k < |fates| ==> Healthy(fates[k]) {
      HealthyPassesPublishAll(w, passes);
    }
  }

  /** One relay, with the rows in hand unpublished. */
  ghost predicate Solo(w: World) {
    |w.relays| == 1 && Inv(w) && Exclusive(w)
  }

  lemma SoloStep(w: World, step: Step)
    requires Solo(w)
    ensures Solo(Next(w, step))
  {
    StepKeepsInv(w, step);
    OneRelayIsApart(w, step);
    StepKeepsExclusive(w, step);
  }

  lemma {:induction false} SoloPlay(w: World, steps: seq<Step>)
    requires Solo(w)
    ensures Solo(Play(w, steps))
  {
    if steps != [] {
      SoloPlay(w, steps[..|steps| - 1]);
      SoloStep(Play(w, steps[..|steps| - 1]), steps[|steps| - 1]);
    }
  }

  lemma MarkShrinksBacklog(rows: seq<Row>, i: nat, now: nat)
    requires i < |rows| && rows[i].publishedAt.None?
    ensures Backlog(MarkPublished(rows, rows[i].id, now)) < Backlog(rows)
  {
    var rows' := MarkPublished(rows, rows[i].id, now);
    BacklogMonotone(rows, rows');
    assert rows'[i].publishedAt.Some?;
  }

  lemma DeliveryMarks(w: World, queue: seq<Row>, a: Attempt, since: nat)
    requires queue != [] && w.relays == [Busy(queue, Sending, since)] && Delivered(queue[0], a)
    ensures Play(w, RowSteps(queue[0], a)).db.outbox == MarkPublished(w.db.outbox, queue[0].id, w.clock)
  {
    PlayTwo(w, SendAcked(0), MarkDone(0));
    assert Next(w, SendAcked(0)).relays == [Busy(queue, Marking, since)];
  }

  lemma DeliveryShrinksBacklog(w: World, queue: seq<Row>, a: Attempt, since: nat)
    requires Solo(w) && queue != [] && w.relays == [Busy(queue, Sending, since)] && Delivered(queue[0], a)
    ensures Backlog(Play(w, RowSteps(queue[0], a)).db.outbox) < Backlog(w.db.outbox)
  {
    var i := HeadPosition(w, 0);
    assert InHandUnpublished(w.db.outbox, w.relays[0]);
    DeliveryMarks(w, queue, a, since);
    MarkShrinksBacklog(w.db.outbox, i, w.clock);
  }

  lemma {:induction false} ScriptPublishes(w: World, queue: seq<Row>, attempts: seq<Attempt>, since: nat)
    requires Solo(w) && |queue| <= |attempts|
    requires w.relays == [if queue == [] then Idle else Busy(queue, Sending, since)]
    ensures Backlog(Play(w, Script(queue, attempts)).db.outbox) + DeliveredPrefix(queue, attempts) <= Backlog(w.db.outbox)
    decreases |queue|
  {
    if queue != [] {
      var steps := RowSteps(queue[0], attempts[0]);
      var delivered := Delivered(queue[0], attempts[0]);
      PlayAppend(w, steps, if delivered then Script(queue[1..], attempts[1..]) else []);
      RowStepsMove(w, queue, attempts[0], since);
      if delivered {
        SoloPlay(w, steps);
        DeliveryShrinksBacklog(w, queue, attempts[0], since);
        ScriptPublishes(Play(w, steps), queue[1..], attempts[1..], since);
      } else {
        PlaySpends(w, steps);
      }
    }
  }

  /** Consecutive passes, each entirely published and so followed by no delay. */
  predicate AllWithoutDelay(w: World, passes: seq<Pass>, pollIntervalMs: nat)
    decreases |passes|
  {
    if passes == [] then true
    else
      var v := Waited(w, passes[0]);
      && |BatchOf(v)| <= |passes[0].attempts|
      && DelayAfter(w.cfg, DeliveredPrefix(BatchOf(v), passes[0].attempts), pollIntervalMs) == 0
      && AllWithoutDelay(AfterOne(w, passes[0]), passes[1..], pollIntervalMs)
  }

  /** A pass takes what it publishes off the backlog and leaves the relay at rest. */
  lemma PassPublishes(w: World, pass: Pass)
    requires Solo(w) && w.relays == [Idle] && |BatchOf(Waited(w, pass))| <= |pass.attempts|
    ensures var w' := AfterOne(w, pass);
            && Solo(w') && w'.relays == [Idle] && w'.cfg == w.cfg
            && Backlog(w'.db.outbox) + DeliveredPrefix(BatchOf(Waited(w, pass)), pass.attempts) <= Backlog(w.db.outbox)
  {
    var v := Waited(w, pass);
    var batch, attempts := BatchOf(v), pass.attempts;
    SoloStep(w, Tick(pass.pause));
    SoloStep(v, Claim(0));
    StepSpends(v, Claim(0));
    PlayFirst(v, Claim(0), Script(batch, attempts));
    assert Next(v, Claim(0)).relays == [if batch == [] then Idle else Busy(batch, Sending, v.clock)];
    ScriptPublishes(Next(v, Claim(0)), batch, attempts, v.clock);
    SoloPlay(v, PassSteps(v, attempts));
    PassEndsIdle(v, attempts);
    ScriptHasNoRequest(batch, attempts);
    PlaySpends(Next(v, Claim(0)), Script(batch, attempts));
  }

  lemma OneMore(n: nat, size: nat, rest: nat, whole: nat)
    requires n * size <= rest && rest + size <= whole
    ensures (n + 1) * size <= whole
  {
  }

  /** Back-to-back passes number at most the backlog over the batch size: the loop cannot spin. */
  lemma {:induction false} PassesWithoutDelayAreBounded(w: World, passes: seq<Pass>, pollIntervalMs: nat)
    requires Solo(w) && w.relays == [Idle] && w.cfg.batchSize >= 1 && pollIntervalMs > 0
    requires AllWithoutDelay(w, passes, pollIntervalMs)
    ensures |passes| * w.cfg.batchSize <= Backlog(w.db.outbox)
    decreases |passes|
  {
    if passes != [] {
      PassPublishes(w, passes[0]);
      PassesWithoutDelayAreBounded(AfterOne(w, passes[0]), passes[1..], pollIntervalMs);
      OneMore(|passes[1..]|, w.cfg.batchSize, Backlog(AfterOne(w, passes[0]).db.outbox), Backlog(w.db.outbox));
    }
  }
}
