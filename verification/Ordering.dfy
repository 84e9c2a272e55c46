/** With one relay: when the broker log is in sequence order, and exactly when a pass can break it. */
module Ordering {
  import opened Outbox
  import opened PatentDb
  import opened Pipeline

  ghost predicate SortedLog(log: seq<Message>) {
    forall i, j :: 0 <= i < j < |log| ==> log[i].sequence <= log[j].sequence
  }

  ghost predicate AboveLog(log: seq<Message>, id: nat) {
    forall m :: m in log ==> m.sequence <= id
  }

  /** Every live row is among `queue` or comes after all of it. */
  ghost predicate LiveInOrAbove(rows: seq<Row>, maxAttempts: nat, queue: seq<Row>) {
    forall x :: x in rows && Live(x, maxAttempts) ==>
      x.id in Ids(queue) || forall k :: 0 <= k < |queue| ==> queue[k].id < x.id
  }

  /** A pass starting now would leave no live row behind that is older than one it takes. */
  ghost predicate NoOvertaking(w: World) {
    LiveInOrAbove(w.db.outbox, w.cfg.maxAttempts, BatchOf(w))
  }

  ghost predicate NoFreshLeftover(w: World) {
    forall x :: x in w.db.outbox && Live(x, w.cfg.maxAttempts) ==> !FreshClaim(x, w.clock)
  }

  ghost predicate OrderInv(w: World) {
    && |w.relays| == 1
    && SortedLog(w.log)
    && match w.relays[0]
       case Idle => forall x :: x in w.db.outbox && Live(x, w.cfg.maxAttempts) ==> AboveLog(w.log, x.id)
       case Busy(queue, _, _) =>
         && LiveInOrAbove(w.db.outbox, w.cfg.maxAttempts, queue)
         && forall k :: 0 <= k < |queue| ==> AboveLog(w.log, queue[k].id)
  }

  /** No event of a higher id was sent, or is in hand, when the request commits. */
  ghost predicate CommitsAbove(w: World, tx: Tx) {
    forall x :: x in Next(w, Request(tx)).db.outbox && x !in w.db.outbox ==>
      && AboveLog(w.log, x.id)
      && forall r :: 0 <= r < |w.relays| && w.relays[r].Busy? ==>
           forall k :: 0 <= k < |w.relays[r].queue| ==> w.relays[r].queue[k].id < x.id
  }

  /** The condition under which a run is ordered: a pass begins, and an event commits, with nothing to overtake. */
  ghost predicate Orderly(w: World, step: Step) {
    && (step.Claim? && Enabled(w, step) ==> NoOvertaking(w))
    && (step.Request? ==> CommitsAbove(w, step.tx))
  }

  ghost predicate OrderlyRun(w: World, steps: seq<Step>) {
    forall i :: 0 <= i < |steps| ==> Orderly(Play(w, steps[..i]), steps[i])
  }

  /** No fresh claim left on a live row is enough: the batch is then the oldest live rows. */
  lemma NoLeftoverNoOvertaking(w: World)
    requires Inv(w) && NoFreshLeftover(w)
    ensures NoOvertaking(w)
  {
    BatchTakesFirst(w.db.outbox, w.clock, w.cfg.maxAttempts, w.cfg.batchSize);
    var batch := BatchOf(w);
    forall x | x in w.db.outbox && Live(x, w.cfg.maxAttempts)
      ensures x.id in Ids(batch) || forall k :: 0 <= k < |batch| ==> batch[k].id < x.id
    {
      if x in batch {
        var k :| 0 <= k < |batch| && batch[k] == x;
      }
    }
  }

  // ---------------------------------------------------------------- one step

  /** Live rows after a table update are live rows before it, claims apart. */
  ghost predicate LiveFrom(rows: seq<Row>, rows': seq<Row>, maxAttempts: nat) {
    forall x' :: x' in rows' && Live(x', maxAttempts) ==>
      exists x :: x in rows && Live(x, maxAttempts) && x.id == x'.id
  }

  lemma UpdateLiveFrom(rows: seq<Row>, rows': seq<Row>, maxAttempts: nat)
    requires SameEntries(rows, rows')
    requires forall i :: 0 <= i < |rows| && Live(rows'[i], maxAttempts) ==> Live(rows[i], maxAttempts)
    ensures LiveFrom(rows, rows', maxAttempts)
  {
    forall x' | x' in rows' && Live(x', maxAttempts)
      ensures exists x :: x in rows && Live(x, maxAttempts) && x.id == x'.id
    {
      var i :| 0 <= i < |rows'| && rows'[i] == x';
      assert rows[i] in rows && Live(rows[i], maxAttempts);
    }
  }

  lemma LiveInOrAboveFrom(rows: seq<Row>, rows': seq<Row>, maxAttempts: nat, queue: seq<Row>)
    requires LiveInOrAbove(rows, maxAttempts, queue) && LiveFrom(rows, rows', maxAttempts)
    ensures LiveInOrAbove(rows', maxAttempts, queue)
  {
    forall x' | x' in rows' && Live(x', maxAttempts)
      ensures x'.id in Ids(queue) || forall k :: 0 <= k < |queue| ==> queue[k].id < x'.id
    {
      var x :| x in rows && Live(x, maxAttempts) && x.id == x'.id;
    }
  }

  lemma StepLiveFrom(w: World, step: Step)
    requires !step.Request?
    ensures LiveFrom(w.db.outbox, Next(w, step).db.outbox, w.cfg.maxAttempts)
  {
    UpdateLiveFrom(w.db.outbox, Next(w, step).db.outbox, w.cfg.maxAttempts);
  }

  /** A committed request adds at most one row; what is sent or in hand lies below it. */
  lemma RequestKeepsOrder(w: World, tx: Tx)
    requires OrderInv(w) && CommitsAbove(w, tx)
    ensures OrderInv(Next(w, Request(tx)))
  {
  }

  /** The new event, if any, has the highest id in the table. */
  ghost predicate InIdOrder(w: World, tx: Tx) {
    forall x, y :: x in Next(w, Request(tx)).db.outbox && x !in w.db.outbox && y in w.db.outbox ==> y.id < x.id
  }

  lemma InIdOrderCommitsAbove(w: World, tx: Tx)
    requires Inv(w) && InIdOrder(w, tx)
    ensures CommitsAbove(w, tx)
  {
    var rows := w.db.outbox;
    forall x | x in Next(w, Request(tx)).db.outbox && x !in rows
      ensures AboveLog(w.log, x.id)
      ensures forall q :: InTable(rows, q) ==> q.id < x.id
    {
      forall m | m in w.log ensures m.sequence <= x.id {
        var i :| 0 <= i < |rows| && MessageOf(rows[i]) == m;
        assert rows[i] in rows;
      }
      forall q | InTable(rows, q) ensures q.id < x.id {
        InTableId(rows, q);
        var j :| 0 <= j < |rows| && rows[j].id == q.id;
        assert rows[j] in rows;
      }
    }
    assert forall r :: 0 <= r < |w.relays| ==> RelayOk(rows, w.log, w.relays[r]);
  }

  lemma ClaimKeepsOrder(w: World)
    requires Inv(w) && OrderInv(w) && w.relays[0].Idle? && NoOvertaking(w)
    ensures OrderInv(Next(w, Claim(0)))
  {
    var w' := Next(w, Claim(0));
    var batch := BatchOf(w);
    StepLiveFrom(w, Claim(0));
    LiveInOrAboveFrom(w.db.outbox, w'.db.outbox, w.cfg.maxAttempts, batch);
    BatchMembers(w.db.outbox, w.clock, w.cfg.maxAttempts, w.cfg.batchSize);
    assert forall k :: 0 <= k < |batch| ==> batch[k] in batch;
    if batch == [] {
      forall x' | x' in w'.db.outbox && Live(x', w.cfg.maxAttempts) ensures AboveLog(w.log, x'.id) {
        var x :| x in w.db.outbox && Live(x, w.cfg.maxAttempts) && x.id == x'.id;
      }
    }
  }

  lemma SendKeepsOrder(log: seq<Message>, head: Row)
    requires SortedLog(log) && AboveLog(log, head.id)
    ensures SortedLog(log + [MessageOf(head)])
    ensures forall id: nat :: AboveLog(log, id) && head.id <= id ==> AboveLog(log + [MessageOf(head)], id)
  {
    assert forall i :: 0 <= i < |log| ==> log[i] in log;
  }

  /** A relay that gives up its queue leaves only live rows at or above the log. */
  lemma QueueAboveLog(rows: seq<Row>, maxAttempts: nat, queue: seq<Row>, log: seq<Message>)
    requires LiveInOrAbove(rows, maxAttempts, queue) && queue != []
    requires forall k :: 0 <= k < |queue| ==> AboveLog(log, queue[k].id)
    ensures forall x :: x in rows && Live(x, maxAttempts) ==> AboveLog(log, x.id)
  {
    forall x | x in rows && Live(x, maxAttempts) ensures AboveLog(log, x.id) {
      if x.id in Ids(queue) {
        var k :| 0 <= k < |queue| && queue[k].id == x.id;
      } else {
        assert queue[0].id < x.id;
      }
    }
  }

  /** A head that is no longer live can be dropped from the queue. */
  lemma DropHead(rows: seq<Row>, maxAttempts: nat, queue: seq<Row>)
    requires LiveInOrAbove(rows, maxAttempts, queue) && queue != []
    requires forall x :: x in rows && x.id == queue[0].id ==> !Live(x, maxAttempts)
    ensures LiveInOrAbove(rows, maxAttempts, queue[1..])
  {
    var rest := queue[1..];
    forall x | x in rows && Live(x, maxAttempts)
      ensures x.id in Ids(rest) || forall k :: 0 <= k < |rest| ==> rest[k].id < x.id
    {
      if x.id in Ids(queue) {
        var k :| 0 <= k < |queue| && queue[k].id == x.id;
        assert rest[k - 1].id == x.id;
      }
    }
  }

  lemma GiveUpKeepsOrder(w: World, step: Step)
    requires OrderInv(w) && RelayOk(w.db.outbox, w.log, w.relays[0]) && Enabled(w, step)
    requires step.MarkDone? || step.FailDone? || step.FailErred? || step.Crash?
    requires w.relays[0].Busy? && Next(w, step).relays[0].Idle?
    ensures OrderInv(Next(w, step))
  {
    var rows' := Next(w, step).db.outbox;
    StepLiveFrom(w, step);
    LiveInOrAboveFrom(w.db.outbox, rows', w.cfg.maxAttempts, w.relays[0].queue);
    QueueAboveLog(rows', w.cfg.maxAttempts, w.relays[0].queue, w.log);
  }

  lemma MarkDoneKeepsOrder(w: World)
    requires OrderInv(w) && RelayOk(w.db.outbox, w.log, w.relays[0]) && Enabled(w, MarkDone(0))
    requires Next(w, MarkDone(0)).relays[0].Busy?
    ensures OrderInv(Next(w, MarkDone(0)))
  {
    var rows' := Next(w, MarkDone(0)).db.outbox;
    StepLiveFrom(w, MarkDone(0));
    LiveInOrAboveFrom(w.db.outbox, rows', w.cfg.maxAttempts, w.relays[0].queue);
    DropHead(rows', w.cfg.maxAttempts, w.relays[0].queue);
  }

  lemma SendKeepsQueueAbove(log: seq<Message>, queue: seq<Row>)
    requires SortedLog(log) && queue != [] && Increasing(queue)
    requires forall k :: 0 <= k < |queue| ==> AboveLog(log, queue[k].id)
    ensures var log' := log + [MessageOf(queue[0])];
            SortedLog(log') && forall k :: 0 <= k < |queue| ==> AboveLog(log', queue[k].id)
  {
    SendKeepsOrder(log, queue[0]);
    assert AboveLog(log, queue[0].id);
  }

  lemma SameQueueKeepsOrder(w: World, w': World)
    requires OrderInv(w) && w.relays[0].Busy? && w.relays[0].queue != [] && Increasing(w.relays[0].queue)
    requires w'.cfg == w.cfg && |w'.relays| == 1 && w'.relays[0].Busy? && w'.relays[0].queue == w.relays[0].queue
    requires LiveFrom(w.db.outbox, w'.db.outbox, w.cfg.maxAttempts)
    requires w'.log == w.log || w'.log == w.log + [MessageOf(w.relays[0].queue[0])]
    ensures OrderInv(w')
  {
    LiveInOrAboveFrom(w.db.outbox, w'.db.outbox, w.cfg.maxAttempts, w.relays[0].queue);
    SendKeepsQueueAbove(w.log, w.relays[0].queue);
  }

  lemma AttemptKeepsQueue(w: World, step: Step)
    requires |w.relays| == 1 && Enabled(w, step) && (step.SendAcked? || step.SendErred? || step.MarkErred?)
    ensures var w' := Next(w, step);
            && w.relays[0].Busy? && w.relays[0].queue != []
            && w'.cfg == w.cfg && |w'.relays| == 1 && w'.relays[0].Busy? && w'.relays[0].queue == w.relays[0].queue
            && (w'.log == w.log || w'.log == w.log + [MessageOf(w.relays[0].queue[0])])
  {
  }

  lemma AttemptKeepsOrder(w: World, step: Step)
    requires OrderInv(w) && RelayOk(w.db.outbox, w.log, w.relays[0]) && Enabled(w, step)
    requires step.SendAcked? || step.SendErred? || step.MarkErred?
    ensures OrderInv(Next(w, step))
  {
    AttemptKeepsQueue(w, step);
    StepLiveFrom(w, step);
    SameQueueKeepsOrder(w, Next(w, step));
  }

  lemma StepKeepsOrder(w: World, step: Step)
    requires Inv(w) && OrderInv(w) && Orderly(w, step)
    ensures OrderInv(Next(w, step))
  {
    if step.Request? {
      RequestKeepsOrder(w, step.tx);
    } else if Enabled(w, step) && step.Claim? {
      ClaimKeepsOrder(w);
    } else if Enabled(w, step) && !step.Tick? && w.relays[0].Busy? {
      assert RelayOk(w.db.outbox, w.log, w.relays[0]);
      if step.SendAcked? || step.SendErred? || step.MarkErred? {
        AttemptKeepsOrder(w, step);
      } else if Next(w, step).relays[0].Idle? {
        GiveUpKeepsOrder(w, step);
      } else {
        MarkDoneKeepsOrder(w);
      }
    }
  }

  // ---------------------------------------------------------------- runs

  lemma {:induction false} PlayKeepsOrder(w: World, steps: seq<Step>)
    requires Inv(w) && OrderInv(w) && OrderlyRun(w, steps)
    ensures OrderInv(Play(w, steps))
  {
    if steps != [] {
      var init := steps[..|steps| - 1];
      assert forall i :: 0 <= i < |init| ==> init[..i] == steps[..i] && init[i] == steps[i];
      PlayKeepsOrder(w, init);
      PlayKeepsInv(w, init);
      StepKeepsOrder(Play(w, init), steps[|steps| - 1]);
    }
  }

  /**
   * Sends are non-decreasing: with one relay, through failed sends, lost answers,
   * failed marks, crashes and dead-lettering, the broker log is in sequence order
   * provided each pass begins with no older live row left under a fresh claim and
   * no event commits after one of a higher id was claimed.
   */
  lemma SendsNonDecreasing(cfg: Config, steps: seq<Step>)
    requires OrderlyRun(Start(cfg, 1), steps)
    ensures SortedLog(Play(Start(cfg, 1), steps).log)
  {
    InitialInv();
    PlayKeepsOrder(Start(cfg, 1), steps);
  }

  predicate Faultless(step: Step) {
    step.Request? || step.Tick? || step.Claim? || step.SendAcked? || step.MarkDone?
  }

  /** Without faults the only claims outstanding are on the batch in hand. */
  ghost predicate CleanInv(w: World) {
    && |w.relays| == 1
    && (w.relays[0].Busy? ==> w.relays[0].phase != Failing)
    && ClaimsAreOn(w.db.outbox, if w.relays[0].Busy? then Ids(w.relays[0].queue) else {})
  }

  predicate ClaimsAreOn(rows: seq<Row>, ids: set<nat>) {
    forall i :: 0 <= i < |rows| && rows[i].claimedAt.Some? ==> rows[i].id in ids
  }

  lemma MarkDropsHead(rows: seq<Row>, queue: seq<Row>, now: nat)
    requires queue != [] && ClaimsAreOn(rows, Ids(queue))
    ensures ClaimsAreOn(MarkPublished(rows, queue[0].id, now), Ids(queue[1..]))
  {
    var rows' := MarkPublished(rows, queue[0].id, now);
    forall i | 0 <= i < |rows'| && rows'[i].claimedAt.Some? ensures rows'[i].id in Ids(queue[1..]) {
      var k :| 0 <= k < |queue| && queue[k].id == rows[i].id;
      assert queue[1..][k - 1].id == rows[i].id;
    }
  }

  lemma StepKeepsClean(w: World, step: Step)
    requires Inv(w) && CleanInv(w) && Faultless(step)
    ensures CleanInv(Next(w, step))
  {
    if step.Request? {
      RequestAppends(w, step.tx);
    } else if step.MarkDone? && Enabled(w, step) {
      MarkDropsHead(w.db.outbox, w.relays[0].queue, w.clock);
    }
  }

  lemma CleanStepIsOrderly(w: World, step: Step)
    requires Inv(w) && CleanInv(w) && Faultless(step) && (step.Request? ==> InIdOrder(w, step.tx))
    ensures Orderly(w, step)
  {
    if step.Claim? && Enabled(w, step) {
      NoLeftoverNoOvertaking(w);
    } else if step.Request? {
      InIdOrderCommitsAbove(w, step.tx);
    }
  }

  /** Nothing fails and nothing crashes, and events commit in the order of their ids. */
  ghost predicate QuietRun(w: World, steps: seq<Step>) {
    forall i :: 0 <= i < |steps| ==>
      Faultless(steps[i]) && (steps[i].Request? ==> InIdOrder(Play(w, steps[..i]), steps[i].tx))
  }

  lemma OrderlyRunExtends(w: World, steps: seq<Step>)
    requires steps != [] && OrderlyRun(w, steps[..|steps| - 1])
    requires Orderly(Play(w, steps[..|steps| - 1]), steps[|steps| - 1])
    ensures OrderlyRun(w, steps)
  {
    var init := steps[..|steps| - 1];
    forall i | 0 <= i < |steps| ensures Orderly(Play(w, steps[..i]), steps[i]) {
      if i < |init| {
        assert Orderly(Play(w, init[..i]), init[i]);
        assert init[..i] == steps[..i];
      }
    }
  }

  lemma {:induction false} CleanRunsAreOrderly(cfg: Config, steps: seq<Step>)
    requires QuietRun(Start(cfg, 1), steps)
    ensures CleanInv(Play(Start(cfg, 1), steps)) && OrderlyRun(Start(cfg, 1), steps)
  {
    if steps != [] {
      var init, step := steps[..|steps| - 1], steps[|steps| - 1];
      assert forall i :: 0 <= i < |init| ==> init[..i] == steps[..i] && init[i] == steps[i];
      CleanRunsAreOrderly(cfg, init);
      Reachable(cfg, 1, init);
      CleanStepIsOrderly(Play(Start(cfg, 1), init), step);
      StepKeepsClean(Play(Start(cfg, 1), init), step);
      OrderlyRunExtends(Start(cfg, 1), steps);
    }
  }

  /** A run in which nothing fails and events commit in id order always has an ordered log. */
  lemma FaultlessRunsAreOrdered(cfg: Config, steps: seq<Step>)
    requires QuietRun(Start(cfg, 1), steps)
    ensures SortedLog(Play(Start(cfg, 1), steps).log)
  {
    CleanRunsAreOrderly(cfg, steps);
    SendsNonDecreasing(cfg, steps);
  }
}
