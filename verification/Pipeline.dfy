/**
 * Requests, relays, broker and clock as one step system. The relay steps cut
 * src/workers/outboxRelay.js at every await, so a crash, a lost answer or
 * another process may come between any two of its statements.
 */
module Pipeline {
  import opened Events
  import opened Outbox
  import opened PatentDb

  const MAX_PAYLOAD_BYTES := 900 * 1024

  /** What the broker stores: the outbox id stamped on the payload, keyed by patent. */
  datatype Message = Message(sequence: nat, key: nat, payload: Event)

  function MessageOf(row: Row): Message {
    Message(row.id, row.aggregateId, row.payload)
  }

  /** What the relay awaits for the head of its batch. */
  datatype Phase = Sending | Marking | Failing

  datatype Relay = Idle | Busy(queue: seq<Row>, phase: Phase, since: nat)

  datatype Config = Config(batchSize: nat, maxAttempts: nat)

  datatype World = World(cfg: Config, db: Db, log: seq<Message>, clock: nat, relays: seq<Relay>)

  /**
   * `appended` and `applied` tell whether the broker or the database did the
   * work although the caller saw an error. A claim whose answer is lost is
   * `Claim` followed by `Crash`.
   */
  datatype Step =
    | Request(tx: Tx)
    | Tick(ms: nat)
    | Claim(relay: nat)
    | SendAcked(relay: nat)
    | SendErred(relay: nat, appended: bool)
    | MarkDone(relay: nat)
    | MarkErred(relay: nat, applied: bool)
    | FailDone(relay: nat)
    | FailErred(relay: nat, applied: bool)
    | Crash(relay: nat)

  predicate InPhase(w: World, r: nat, phase: Phase) {
    r < |w.relays| && w.relays[r].Busy? && w.relays[r].phase == phase && w.relays[r].queue != []
  }

  predicate Enabled(w: World, step: Step) {
    match step
    case Request(_) => true
    case Tick(_) => true
    case Claim(r) => r < |w.relays| && w.relays[r].Idle?
    case SendAcked(r) => InPhase(w, r, Sending) && w.relays[r].queue[0].bytes <= MAX_PAYLOAD_BYTES
    case SendErred(r, appended) =>
      InPhase(w, r, Sending) && (appended ==> w.relays[r].queue[0].bytes <= MAX_PAYLOAD_BYTES)
    case MarkDone(r) => InPhase(w, r, Marking)
    case MarkErred(r, _) => InPhase(w, r, Marking)
    case FailDone(r) => InPhase(w, r, Failing)
    case FailErred(r, _) => InPhase(w, r, Failing)
    case Crash(r) => r < |w.relays|
  }

  function WithRows(w: World, rows: seq<Row>): World {
    w.(db := w.db.(outbox := rows))
  }

  function WithRelay(w: World, r: nat, state: Relay): World
    requires r < |w.relays|
  {
    w.(relays := w.relays[r := state])
  }

  function Append(w: World, row: Row): World {
    w.(log := w.log + [MessageOf(row)])
  }

  function BatchOf(w: World): seq<Row> {
    Batch(w.db.outbox, w.clock, w.cfg.maxAttempts, w.cfg.batchSize)
  }

  function AfterHead(b: Relay): Relay
    requires b.Busy? && b.queue != []
  {
    if |b.queue| == 1 then Idle else Busy(b.queue[1..], Sending, b.since)
  }

  function Head(w: World, r: nat): Row
    requires r < |w.relays| && w.relays[r].Busy? && w.relays[r].queue != []
  {
    w.relays[r].queue[0]
  }

  function Published(w: World, r: nat): World
    requires r < |w.relays| && w.relays[r].Busy? && w.relays[r].queue != []
  {
    WithRows(w, MarkPublished(w.db.outbox, Head(w, r).id, w.clock))
  }

  function Failed(w: World, r: nat): World
    requires r < |w.relays| && w.relays[r].Busy? && w.relays[r].queue != []
  {
    WithRows(w, MarkFailed(w.db.outbox, Head(w, r).id))
  }

  function Effect(w: World, step: Step): World
    requires Enabled(w, step)
  {
    match step
    case Request(tx) => w.(db := ApplyTx(w.db, tx))
    case Tick(ms) => w.(clock := w.clock + ms)
    case Claim(r) =>
      var batch := BatchOf(w);
      var stamped := WithRows(w, StampClaims(w.db.outbox, Ids(batch), w.clock));
      WithRelay(stamped, r, if batch == [] then Idle else Busy(batch, Sending, w.clock))
    case SendAcked(r) => WithRelay(Append(w, Head(w, r)), r, w.relays[r].(phase := Marking))
    case SendErred(r, appended) =>
      WithRelay(if appended then Append(w, Head(w, r)) else w, r, w.relays[r].(phase := Failing))
    case MarkDone(r) => WithRelay(Published(w, r), r, AfterHead(w.relays[r]))
    case MarkErred(r, applied) =>
      WithRelay(if applied then Published(w, r) else w, r, w.relays[r].(phase := Failing))
    case FailDone(r) => WithRelay(Failed(w, r), r, Idle)
    case FailErred(r, applied) => WithRelay(if applied then Failed(w, r) else w, r, Idle)
    case Crash(r) => WithRelay(w, r, Idle)
  }

  /** A step that is not enabled does nothing, so every sequence of steps is a run. */
  function Next(w: World, step: Step): World {
    if Enabled(w, step) then Effect(w, step) else w
  }

  function Play(w: World, steps: seq<Step>): World {
    if steps == [] then w else Next(Play(w, steps[..|steps| - 1]), steps[|steps| - 1])
  }

  /** The state after one more step of a given run. */
  lemma PlayPrefix(w: World, steps: seq<Step>, k: nat)
    requires k < |steps|
    ensures Play(w, steps[..k + 1]) == Next(Play(w, steps[..k]), steps[k])
  {
    assert steps[..k + 1][..k] == steps[..k];
  }

  function Start(cfg: Config, relays: nat): World {
    World(cfg, INITIAL, [], 0, seq(relays, _ => Idle))
  }

  // ---------------------------------------------------------------- invariant

  /** The table has a row with these unchanging columns. */
  ghost predicate InTable(rows: seq<Row>, q: Row) {
    exists i :: 0 <= i < |rows| && SameEntries([rows[i]], [q])
  }

  /** Every message is that of a row, and of one the broker can take. */
  ghost predicate LogFromTable(rows: seq<Row>, log: seq<Message>) {
    forall m :: m in log ==> exists i :: 0 <= i < |rows| && MessageOf(rows[i]) == m && rows[i].bytes <= MAX_PAYLOAD_BYTES
  }

  predicate PublishedInLog(rows: seq<Row>, log: seq<Message>) {
    forall i :: 0 <= i < |rows| && rows[i].publishedAt.Some? ==> MessageOf(rows[i]) in log
  }

  ghost predicate RelayOk(rows: seq<Row>, log: seq<Message>, b: Relay) {
    b.Busy? ==>
      && b.queue != [] && Increasing(b.queue)
      && (forall q :: q in b.queue ==> InTable(rows, q))
      && (b.phase == Marking ==> MessageOf(b.queue[0]) in log)
  }

  ghost predicate Inv(w: World) {
    && DbInv(w.db)
    && LogFromTable(w.db.outbox, w.log)
    && PublishedInLog(w.db.outbox, w.log)
    && (forall r :: 0 <= r < |w.relays| ==> RelayOk(w.db.outbox, w.log, w.relays[r]))
  }

  /** Rows are only appended, and their unchanging columns never change. */
  predicate Grows(a: seq<Row>, b: seq<Row>) {
    |a| <= |b| && SameEntries(a, b[..|a|])
  }

  lemma StepGrows(w: World, step: Step)
    ensures Grows(w.db.outbox, Next(w, step).db.outbox)
    ensures w.log <= Next(w, step).log
  {
  }

  /**
   * What a step leaves alone: requests and time do not touch relays or broker,
   * only requests touch patents and reviews, time and requests apart the clock
   * stands still, a relay moves alone, and only a send appends, the head's
   * message. A crash, like a send, leaves the table with the claims it has.
   */
  lemma StepFrame(w: World, step: Step)
    ensures var w' := Next(w, step);
            && w'.cfg == w.cfg && |w'.relays| == |w.relays|
            && (step.Request? ==> w' == w.(db := w'.db))
            && (step.Tick? ==> w' == w.(clock := w.clock + step.ms))
            && (!step.Request? ==> w'.db == w.db.(outbox := w'.db.outbox))
            && (!step.Tick? ==> w'.clock == w.clock)
            && (step.Crash? || step.SendAcked? || step.SendErred? ==> w'.db == w.db)
            && (!step.Request? && !step.Tick? ==>
                  forall r :: 0 <= r < |w.relays| && r != step.relay ==> w'.relays[r] == w.relays[r])
            && (w'.log == w.log
                || ((step.SendAcked? || (step.SendErred? && step.appended)) && InPhase(w, step.relay, Sending)
                    && w'.log == w.log + [MessageOf(w.relays[step.relay].queue[0])]))
  {
  }

  lemma DeliveryKeepsDb(db: Db, rows: seq<Row>)
    requires DbInv(db) && SameEntries(db.outbox, rows)
    ensures DbInv(db.(outbox := rows))
  {
    forall id: nat ensures LogAgrees(db.(outbox := rows), id) {
      assert LogAgrees(db, id);
      EventsOfSame(db.outbox, rows, id);
    }
  }

  lemma StepKeepsDb(w: World, step: Step)
    requires DbInv(w.db)
    ensures DbInv(Next(w, step).db)
  {
    if step.Request? {
      TxKeepsInv(w.db, step.tx);
    } else {
      DeliveryKeepsDb(w.db, Next(w, step).db.outbox);
    }
  }

  lemma InTableGrows(a: seq<Row>, b: seq<Row>, q: Row)
    requires InTable(a, q) && Grows(a, b)
    ensures InTable(b, q)
  {
    var i :| 0 <= i < |a| && SameEntries([a[i]], [q]);
    assert SameEntries([b[..|a|][i]], [q]);
  }

  lemma LogFromTableGrows(a: seq<Row>, b: seq<Row>, log: seq<Message>)
    requires LogFromTable(a, log) && Grows(a, b)
    ensures LogFromTable(b, log)
  {
    forall m | m in log ensures exists i :: 0 <= i < |b| && MessageOf(b[i]) == m && b[i].bytes <= MAX_PAYLOAD_BYTES {
      var i :| 0 <= i < |a| && MessageOf(a[i]) == m && a[i].bytes <= MAX_PAYLOAD_BYTES;
      assert MessageOf(b[..|a|][i]) == m;
    }
  }

  lemma RelayOkGrows(a: seq<Row>, b: seq<Row>, log: seq<Message>, log': seq<Message>, relay: Relay)
    requires RelayOk(a, log, relay) && Grows(a, b) && log <= log'
    ensures RelayOk(b, log', relay)
  {
    if relay.Busy? {
      forall q | q in relay.queue ensures InTable(b, q) {
        InTableGrows(a, b, q);
      }
    }
  }

  lemma BatchInTable(rows: seq<Row>, now: nat, maxAttempts: nat, limit: nat)
    ensures forall q :: q in Batch(rows, now, maxAttempts, limit) ==> InTable(rows, q)
  {
    BatchMembers(rows, now, maxAttempts, limit);
    forall q | q in Batch(rows, now, maxAttempts, limit) ensures InTable(rows, q) {
      var i :| 0 <= i < |rows| && rows[i] == q;
    }
  }

  /** The relay that moved: its new state is right for the new table and log. */
  lemma MoverOk(w: World, step: Step, r: nat)
    requires Inv(w) && Enabled(w, step)
    requires !step.Request? && !step.Tick? && step.relay == r && r < |w.relays|
    ensures RelayOk(Effect(w, step).db.outbox, Effect(w, step).log, Effect(w, step).relays[r])
  {
    var w' := Effect(w, step);
    var b := w.relays[r];
    assert RelayOk(w.db.outbox, w.log, b);
    StepGrows(w, step);
    RelayOkGrows(w.db.outbox, w'.db.outbox, w.log, w'.log, b);
    if step.Claim? {
      BatchInTable(w.db.outbox, w.clock, w.cfg.maxAttempts, w.cfg.batchSize);
      BatchIncreasing(w.db.outbox, w.clock, w.cfg.maxAttempts, w.cfg.batchSize);
      if BatchOf(w) != [] {
        RelayOkGrows(w.db.outbox, w'.db.outbox, w.log, w'.log, Busy(BatchOf(w), Sending, w.clock));
      }
    }
  }

  /** A request only appends to the outbox: unpublished, unclaimed rows other than any row in hand. */
  lemma RequestAppends(w: World, tx: Tx)
    ensures var rows, rows' := w.db.outbox, Next(w, Request(tx)).db.outbox;
            && rows <= rows'
            && (forall i :: |rows| <= i < |rows'| ==> rows'[i].publishedAt.None? && rows'[i].claimedAt.None?)
            && (forall i, q :: |rows| <= i < |rows'| && InTable(rows, q) ==> q.id != rows'[i].id)
  {
    var rows, rows' := w.db.outbox, Next(w, Request(tx)).db.outbox;
    forall i, q | |rows| <= i < |rows'| && InTable(rows, q) ensures q.id != rows'[i].id {
      InTableId(rows, q);
    }
  }

  lemma InTableId(rows: seq<Row>, q: Row)
    requires InTable(rows, q)
    ensures exists j :: 0 <= j < |rows| && rows[j].id == q.id
  {
    var j :| 0 <= j < |rows| && SameEntries([rows[j]], [q]);
    assert [rows[j]][0].id == [q][0].id;
  }

  lemma MarkingPublishesSent(rows: seq<Row>, log: seq<Message>, head: Row, now: nat)
    requires DistinctIds(rows) && InTable(rows, head)
    requires PublishedInLog(rows, log) && MessageOf(head) in log
    ensures PublishedInLog(MarkPublished(rows, head.id, now), log)
  {
    var k :| 0 <= k < |rows| && SameEntries([rows[k]], [head]);
    assert MessageOf([rows[k]][0]) == MessageOf([head][0]);
    var rows' := MarkPublished(rows, head.id, now);
    forall i | 0 <= i < |rows'| && rows'[i].publishedAt.Some? ensures MessageOf(rows'[i]) in log {
      assert rows[i].id == head.id ==> i == k;
    }
  }

  lemma UpdateKeepsPublished(rows: seq<Row>, rows': seq<Row>, log: seq<Message>, log': seq<Message>)
    requires PublishedInLog(rows, log) && log <= log' && |rows| <= |rows'|
    requires forall i :: 0 <= i < |rows'| && rows'[i].publishedAt.Some? ==>
               i < |rows| && rows[i].publishedAt.Some? && MessageOf(rows'[i]) == MessageOf(rows[i])
    ensures PublishedInLog(rows', log')
  {
  }

  /** A row becomes published only in `Marking`, when its message is already in the log. */
  lemma StepPublishesSent(w: World, step: Step)
    requires Inv(w)
    ensures PublishedInLog(Next(w, step).db.outbox, Next(w, step).log)
  {
    if (step.MarkDone? || step.MarkErred?) && Enabled(w, step) {
      var b := w.relays[step.relay];
      assert RelayOk(w.db.outbox, w.log, b) && b.queue[0] in b.queue;
      MarkingPublishesSent(w.db.outbox, w.log, b.queue[0], w.clock);
    } else {
      StepGrows(w, step);
      OnlyMarksPublish(w, step);
      UpdateKeepsPublished(w.db.outbox, Next(w, step).db.outbox, w.log, Next(w, step).log);
    }
  }

  lemma OnlyMarksPublish(w: World, step: Step)
    requires !((step.MarkDone? || step.MarkErred?) && Enabled(w, step))
    ensures var rows, rows' := w.db.outbox, Next(w, step).db.outbox;
            forall i :: 0 <= i < |rows'| && rows'[i].publishedAt.Some? ==>
              i < |rows| && rows[i].publishedAt.Some? && MessageOf(rows'[i]) == MessageOf(rows[i])
  {
  }

  lemma StepLogFromTable(w: World, step: Step)
    requires Inv(w)
    ensures LogFromTable(Next(w, step).db.outbox, Next(w, step).log)
  {
    var w' := Next(w, step);
    StepGrows(w, step);
    LogFromTableGrows(w.db.outbox, w'.db.outbox, w.log);
    if w'.log != w.log {
      var b := w.relays[step.relay];
      assert RelayOk(w.db.outbox, w.log, b) && b.queue[0] in b.queue;
      assert InTable(w'.db.outbox, b.queue[0]);
      var k :| 0 <= k < |w'.db.outbox| && SameEntries([w'.db.outbox[k]], [b.queue[0]]);
      assert MessageOf([w'.db.outbox[k]][0]) == MessageOf([b.queue[0]][0]);
    }
  }

  lemma StepKeepsInv(w: World, step: Step)
    requires Inv(w)
    ensures Inv(Next(w, step))
  {
    var w' := Next(w, step);
    StepKeepsDb(w, step);
    StepGrows(w, step);
    StepPublishesSent(w, step);
    StepLogFromTable(w, step);
    forall r | 0 <= r < |w'.relays| ensures RelayOk(w'.db.outbox, w'.log, w'.relays[r]) {
      if Enabled(w, step) && !step.Request? && !step.Tick? && step.relay == r {
        MoverOk(w, step, r);
      } else {
        RelayOkGrows(w.db.outbox, w'.db.outbox, w.log, w'.log, w.relays[r]);
      }
    }
  }

  lemma {:induction false} PlayKeepsInv(w: World, steps: seq<Step>)
    requires Inv(w)
    ensures Inv(Play(w, steps))
  {
    if steps != [] {
      PlayKeepsInv(w, steps[..|steps| - 1]);
      StepKeepsInv(Play(w, steps[..|steps| - 1]), steps[|steps| - 1]);
    }
  }

  /** Every state that any number of relays, requests and faults can reach from the empty system. */
  lemma Reachable(cfg: Config, relays: nat, steps: seq<Step>)
    ensures Inv(Play(Start(cfg, relays), steps))
  {
    InitialInv();
    PlayKeepsInv(Start(cfg, relays), steps);
  }

  lemma {:induction false} CfgFixed(w: World, steps: seq<Step>)
    ensures Play(w, steps).cfg == w.cfg
  {
    if steps != [] {
      CfgFixed(w, steps[..|steps| - 1]);
    }
  }

  lemma {:induction false} PlayGrows(w: World, steps: seq<Step>, more: seq<Step>)
    ensures Grows(Play(w, steps).db.outbox, Play(w, steps + more).db.outbox)
    ensures Play(w, steps).log <= Play(w, steps + more).log
  {
    if more != [] {
      var n := |more| - 1;
      assert (steps + more)[..|steps + more| - 1] == steps + more[..n];
      PlayGrows(w, steps, more[..n]);
      StepGrows(Play(w, steps + more[..n]), more[n]);
      GrowsOn(Play(w, steps).db.outbox, Play(w, steps + more[..n]).db.outbox, Play(w, steps + more).db.outbox);
    } else {
      assert steps + more == steps;
    }
  }

  lemma GrowsOn(a: seq<Row>, b: seq<Row>, c: seq<Row>)
    requires Grows(a, b) && Grows(b, c)
    ensures Grows(a, c)
  {
    assert forall i :: 0 <= i < |a| ==> b[..|a|][i] == b[i] && c[..|b|][i] == c[i] && c[..|a|][i] == c[i];
  }

  /**
   * Never lost: whatever happens after a row was enqueued, it is still in the
   * table with its payload, and it is published and in the broker log, or at the
   * attempt limit, or claimable again as soon as the claim timeout has passed.
   */
  lemma NeverLost(cfg: Config, relays: nat, steps: seq<Step>, more: seq<Step>, i: nat, later: nat)
    requires i < |Play(Start(cfg, relays), steps).db.outbox|
    requires var rows := Play(Start(cfg, relays), steps + more).db.outbox;
             i < |rows| && rows[i].claimedAt.Some? ==> rows[i].claimedAt.value + 300_000 < later
    ensures var rows := Play(Start(cfg, relays), steps).db.outbox;
            var w := Play(Start(cfg, relays), steps + more);
            && i < |w.db.outbox| && SameEntries([rows[i]], [w.db.outbox[i]])
            && var row := w.db.outbox[i];
            || (row.publishedAt.Some? && MessageOf(row) in w.log)
            || row.attempts >= cfg.maxAttempts
            || Claimable(row, later, cfg.maxAttempts)
  {
    var w := Play(Start(cfg, relays), steps + more);
    PlayGrows(Start(cfg, relays), steps, more);
    CfgFixed(Start(cfg, relays), steps + more);
    Reachable(cfg, relays, steps + more);
    var n := |Play(Start(cfg, relays), steps).db.outbox|;
    assert w.db.outbox[..n][i] == w.db.outbox[i];
  }

  /** The broker is offered an event exactly when its serialised form has at most 900 KiB. */
  lemma SentExactlyIfItFits(w: World, r: nat)
    requires InPhase(w, r, Sending)
    ensures Enabled(w, SendAcked(r)) <==> Head(w, r).bytes <= 921_600
    ensures Enabled(w, SendErred(r, false))
  {
  }

  lemma LoggedRowsFit(rows: seq<Row>, log: seq<Message>, row: Row)
    requires DistinctIds(rows) && LogFromTable(rows, log)
    requires row in rows && MessageOf(row) in log
    ensures row.bytes <= MAX_PAYLOAD_BYTES
  {
    var k :| 0 <= k < |rows| && rows[k] == row;
    var i :| 0 <= i < |rows| && MessageOf(rows[i]) == MessageOf(row) && rows[i].bytes <= MAX_PAYLOAD_BYTES;
    assert i == k;
  }

  /** An oversized event is never sent and never published: it uses up its attempts, one a pass. */
  lemma OversizedNeverSent(cfg: Config, relays: nat, steps: seq<Step>, row: Row)
    requires row in Play(Start(cfg, relays), steps).db.outbox && row.bytes > 921_600
    ensures MessageOf(row) !in Play(Start(cfg, relays), steps).log && row.publishedAt.None?
  {
    var w := Play(Start(cfg, relays), steps);
    Reachable(cfg, relays, steps);
    if MessageOf(row) in w.log {
      LoggedRowsFit(w.db.outbox, w.log, row);
    }
  }
}
