/**
 * The relay of src/workers/outboxRelay.js as imperative code over the outbox
 * table, proved to be a run of the step system.
 */
module OutboxRelay {
  import opened Wrappers
  import opened Outbox
  import opened PatentDb
  import opened Pipeline
  import opened Overtaking

  /** What became of a call: done and answered, done but the answer was lost, or not done. */
  datatype Fate = Done | Unanswered | NotDone

  /** The fates of the up to three calls made for one event. */
  datatype Attempt = Attempt(send: Fate, mark: Fate, fail: Fate)

  function FailStep(a: Attempt): Step {
    if a.fail.Done? then FailDone(0) else FailErred(0, a.fail.Unanswered?)
  }

  predicate Delivered(row: Row, a: Attempt) {
    row.bytes <= MAX_PAYLOAD_BYTES && a.send.Done? && a.mark.Done?
  }

  /** The steps one iteration takes, ending the batch unless the row is delivered. */
  function RowSteps(row: Row, a: Attempt): seq<Step> {
    if row.bytes > MAX_PAYLOAD_BYTES then [SendErred(0, false), FailStep(a)]
    else if !a.send.Done? then [SendErred(0, a.send.Unanswered?), FailStep(a)]
    else if !a.mark.Done? then [SendAcked(0), MarkErred(0, a.mark.Unanswered?), FailStep(a)]
    else [SendAcked(0), MarkDone(0)]
  }

  function Script(queue: seq<Row>, attempts: seq<Attempt>): seq<Step>
    requires |queue| <= |attempts|
  {
    if queue == [] then []
    else RowSteps(queue[0], attempts[0]) +
         if Delivered(queue[0], attempts[0]) then Script(queue[1..], attempts[1..]) else []
  }

  /** How many events a pass publishes: the delivered prefix of its batch. */
  function DeliveredPrefix(queue: seq<Row>, attempts: seq<Attempt>): nat
    requires |queue| <= |attempts|
  {
    if queue == [] || !Delivered(queue[0], attempts[0]) then 0
    else 1 + DeliveredPrefix(queue[1..], attempts[1..])
  }

  /** The pass rejects when the write that records the first failure is itself in error. */
  predicate Throws(queue: seq<Row>, attempts: seq<Attempt>)
    requires |queue| <= |attempts|
  {
    var n := DeliveredPrefix(queue, attempts);
    PrefixBounded(queue, attempts);
    n < |queue| && !attempts[n].fail.Done?
  }

  lemma PrefixBounded(queue: seq<Row>, attempts: seq<Attempt>)
    requires |queue| <= |attempts|
    ensures DeliveredPrefix(queue, attempts) <= |queue|
  {
  }

  /** The relay alone: one process at work on a table and a broker. */
  function Scene(cfg: Config, rows: seq<Row>, log: seq<Message>, now: nat, queue: seq<Row>): World {
    World(cfg, INITIAL.(outbox := rows), log, now, [if queue == [] then Idle else Busy(queue, Sending, now)])
  }

  lemma {:induction false} PlayFirst(w: World, s: Step, rest: seq<Step>)
    ensures Play(w, [s] + rest) == Play(Next(w, s), rest)
  {
    assert [s][..0] == [];
    assert Play(w, [s]) == Next(Play(w, [s][..0]), s);
    PlayAppend(w, [s], rest);
  }

  lemma PlayThree(w: World, s: Step, t: Step, u: Step)
    ensures Play(w, [s, t, u]) == Next(Next(Next(w, s), t), u)
  {
    assert [s, t, u][..2] == [s, t];
    PlayTwo(w, s, t);
  }

  // ---------------------------------------------------------------- one event, on table and log

  function MarkWrite(rows: seq<Row>, id: nat, now: nat, fate: Fate): seq<Row> {
    if fate.NotDone? then rows else Outbox.MarkPublished(rows, id, now)
  }

  function FailWrite(rows: seq<Row>, id: nat, fate: Fate): seq<Row> {
    if fate.NotDone? then rows else Outbox.MarkFailed(rows, id)
  }

  function RowsAfter(rows: seq<Row>, row: Row, a: Attempt, now: nat): seq<Row> {
    if row.bytes > MAX_PAYLOAD_BYTES || !a.send.Done? then FailWrite(rows, row.id, a.fail)
    else if !a.mark.Done? then FailWrite(MarkWrite(rows, row.id, now, a.mark), row.id, a.fail)
    else Outbox.MarkPublished(rows, row.id, now)
  }

  function LogAfter(log: seq<Message>, row: Row, a: Attempt): seq<Message> {
    if row.bytes > MAX_PAYLOAD_BYTES || a.send.NotDone? then log else log + [MessageOf(row)]
  }

  lemma UnsentIsRun(cfg: Config, rows: seq<Row>, log: seq<Message>, now: nat, queue: seq<Row>, a: Attempt)
    requires queue != [] && (queue[0].bytes > MAX_PAYLOAD_BYTES || !a.send.Done?)
    ensures Play(Scene(cfg, rows, log, now, queue), RowSteps(queue[0], a)) ==
            Scene(cfg, RowsAfter(rows, queue[0], a, now), LogAfter(log, queue[0], a), now, [])
  {
    var w := Scene(cfg, rows, log, now, queue);
    var steps := RowSteps(queue[0], a);
    PlayTwo(w, steps[0], steps[1]);
    assert Next(w, steps[0]).relays == [Busy(queue, Failing, now)];
    assert Next(Next(w, steps[0]), steps[1]).relays == [Idle];
  }

  lemma UnmarkedIsRun(cfg: Config, rows: seq<Row>, log: seq<Message>, now: nat, queue: seq<Row>, a: Attempt)
    requires queue != [] && queue[0].bytes <= MAX_PAYLOAD_BYTES && a.send.Done? && !a.mark.Done?
    ensures Play(Scene(cfg, rows, log, now, queue), RowSteps(queue[0], a)) ==
            Scene(cfg, RowsAfter(rows, queue[0], a, now), LogAfter(log, queue[0], a), now, [])
  {
    var w := Scene(cfg, rows, log, now, queue);
    var marked := MarkErred(0, a.mark.Unanswered?);
    PlayThree(w, SendAcked(0), marked, FailStep(a));
    assert Next(w, SendAcked(0)).relays == [Busy(queue, Marking, now)];
    assert Next(Next(w, SendAcked(0)), marked).relays == [Busy(queue, Failing, now)];
    assert Next(Next(Next(w, SendAcked(0)), marked), FailStep(a)).relays == [Idle];
  }

  lemma DeliveredIsRun(cfg: Config, rows: seq<Row>, log: seq<Message>, now: nat, queue: seq<Row>, a: Attempt)
    requires queue != [] && Delivered(queue[0], a)
    ensures Play(Scene(cfg, rows, log, now, queue), RowSteps(queue[0], a)) ==
            Scene(cfg, RowsAfter(rows, queue[0], a, now), LogAfter(log, queue[0], a), now, queue[1..])
  {
    var w := Scene(cfg, rows, log, now, queue);
    PlayTwo(w, SendAcked(0), MarkDone(0));
    assert Next(w, SendAcked(0)).relays == [Busy(queue, Marking, now)];
    assert Next(Next(w, SendAcked(0)), MarkDone(0)).relays ==
           [if queue[1..] == [] then Idle else Busy(queue[1..], Sending, now)];
  }

  lemma RowIsRun(cfg: Config, rows: seq<Row>, log: seq<Message>, now: nat, queue: seq<Row>, a: Attempt)
    requires queue != []
    ensures Play(Scene(cfg, rows, log, now, queue), RowSteps(queue[0], a)) ==
            Scene(cfg, RowsAfter(rows, queue[0], a, now), LogAfter(log, queue[0], a), now,
                  if Delivered(queue[0], a) then queue[1..] else [])
  {
    if queue[0].bytes > MAX_PAYLOAD_BYTES || !a.send.Done? {
      UnsentIsRun(cfg, rows, log, now, queue, a);
    } else if !a.mark.Done? {
      UnmarkedIsRun(cfg, rows, log, now, queue, a);
    } else {
      DeliveredIsRun(cfg, rows, log, now, queue, a);
    }
  }

  lemma ClaimIsRun(cfg: Config, rows: seq<Row>, log: seq<Message>, now: nat)
    ensures var batch := Batch(rows, now, cfg.maxAttempts, cfg.batchSize);
            Next(Scene(cfg, rows, log, now, []), Claim(0)) ==
            Scene(cfg, StampClaims(rows, Ids(batch), now), log, now, batch)
  {
  }

  /** What is left of a pass: from here, the rest of the script over the rest of the batch. */
  ghost function Rest(cfg: Config, rows: seq<Row>, log: seq<Message>, now: nat, queue: seq<Row>, attempts: seq<Attempt>): World
    requires |queue| <= |attempts|
  {
    Play(Scene(cfg, rows, log, now, queue), Script(queue, attempts))
  }

  lemma RestUnfolds(cfg: Config, rows: seq<Row>, log: seq<Message>, now: nat, queue: seq<Row>, attempts: seq<Attempt>)
    requires queue != [] && |queue| <= |attempts|
    ensures var rows', log' := RowsAfter(rows, queue[0], attempts[0], now), LogAfter(log, queue[0], attempts[0]);
            Rest(cfg, rows, log, now, queue, attempts) ==
            if Delivered(queue[0], attempts[0]) then Rest(cfg, rows', log', now, queue[1..], attempts[1..])
            else Scene(cfg, rows', log', now, [])
  {
    RowIsRun(cfg, rows, log, now, queue, attempts[0]);
    PlayAppend(Scene(cfg, rows, log, now, queue), RowSteps(queue[0], attempts[0]),
               if Delivered(queue[0], attempts[0]) then Script(queue[1..], attempts[1..]) else []);
  }

  // ---------------------------------------------------------------- the table

  class OutboxTable {
    var rows: seq<Row>
    const maxAttempts: nat

    constructor (maxAttempts: nat)
      ensures rows == [] && this.maxAttempts == maxAttempts
    {
      rows := [];
      this.maxAttempts := maxAttempts;
    }

    /** One `UPDATE ... RETURNING`: stamps and returns the oldest claimable rows. */
    method ClaimBatch(batchSize: nat, now: nat) returns (batch: seq<Row>)
      modifies this
      ensures batch == Batch(old(rows), now, maxAttempts, batchSize)
      ensures rows == StampClaims(old(rows), Ids(batch), now) && |rows| == |old(rows)|
      ensures forall i :: 0 <= i < |rows| ==>
                rows[i] == (if exists k :: 0 <= k < |batch| && batch[k].id == old(rows)[i].id
                            then old(rows)[i].(claimedAt := Some(now)) else old(rows)[i])
      ensures |batch| <= batchSize
      ensures forall b :: b in batch ==> b in old(rows) && Claimable(b, now, maxAttempts)
      ensures DistinctIds(old(rows)) ==> Increasing(batch)
      ensures DistinctIds(old(rows)) ==>
                forall x :: x in old(rows) && Claimable(x, now, maxAttempts) && x !in batch ==>
                  |batch| == batchSize && forall y :: y in batch ==> y.id < x.id
    {
      BatchMembers(rows, now, maxAttempts, batchSize);
      if DistinctIds(rows) {
        BatchIncreasing(rows, now, maxAttempts, batchSize);
        BatchTakesFirst(rows, now, maxAttempts, batchSize);
      }
      batch := Batch(rows, now, maxAttempts, batchSize);
      rows := StampClaims(rows, set i | 0 <= i < |batch| :: batch[i].id, now);
    }

    method MarkPublished(id: nat, now: nat, fate: Fate) returns (threw: bool)
      modifies this
      ensures threw == !fate.Done?
      ensures rows == if fate.NotDone? then old(rows) else Outbox.MarkPublished(old(rows), id, now)
      ensures !fate.NotDone? ==> |rows| == |old(rows)| && forall i :: 0 <= i < |rows| ==>
                rows[i] == (if old(rows)[i].id == id then old(rows)[i].(publishedAt := Some(now), claimedAt := None)
                            else old(rows)[i])
    {
      if !fate.NotDone? {
        rows := Outbox.MarkPublished(rows, id, now);
      }
      threw := !fate.Done?;
    }

    method MarkFailed(id: nat, fate: Fate) returns (threw: bool)
      modifies this
      ensures threw == !fate.Done?
      ensures rows == if fate.NotDone? then old(rows) else Outbox.MarkFailed(old(rows), id)
      ensures !fate.NotDone? ==> |rows| == |old(rows)| && forall i :: 0 <= i < |rows| ==>
                rows[i] == (if old(rows)[i].id == id
                            then old(rows)[i].(attempts := old(rows)[i].attempts + 1, claimedAt := None)
                            else old(rows)[i])
    {
      if !fate.NotDone? {
        rows := Outbox.MarkFailed(rows, id);
      }
      threw := !fate.Done?;
    }
  }

  // ---------------------------------------------------------------- the worker

  class Worker {
    const table: OutboxTable
    const cfg: Config
    var log: seq<Message>

    constructor (table: OutboxTable, cfg: Config)
      requires table.maxAttempts == cfg.maxAttempts
      ensures this.table == table && this.cfg == cfg && log == []
    {
      this.table := table;
      this.cfg := cfg;
      log := [];
    }

    /** `producer.send`: the broker appends, or does not, and may leave the caller in doubt. */
    method Send(event: Row, fate: Fate) returns (threw: bool)
      modifies this
      ensures threw == !fate.Done?
      ensures log == if fate.NotDone? then old(log) else old(log) + [MessageOf(event)]
    {
      if !fate.NotDone? {
        log := log + [Message(event.id, event.aggregateId, event.payload)];
      }
      threw := !fate.Done?;
    }

    /** The body of the loop: one event through send and mark, or into the failure branch. */
    method PublishOne(event: Row, now: nat, attempt: Attempt) returns (published: bool, rejected: bool)
      modifies this, table
      ensures published == Delivered(event, attempt)
      ensures rejected == (!published && !attempt.fail.Done?)
      ensures table.rows == RowsAfter(old(table.rows), event, attempt, now)
      ensures log == LogAfter(old(log), event, attempt)
    {
      var failed := event.bytes > MAX_PAYLOAD_BYTES;
      if !failed {
        failed := Send(event, attempt.send);
        if !failed {
          failed := table.MarkPublished(event.id, now, attempt.mark);
        }
      }
      published := !failed;
      rejected := false;
      if failed {
        rejected := table.MarkFailed(event.id, attempt.fail);
      }
    }

    /**
     * `publishBatch`: claim, then one event after the other, stopping at the
     * first failure. Its whole effect on table and broker is the run given by the
     * fates of its calls; it reports how many rows it claimed and published.
     */
    method PublishBatch(now: nat, attempts: seq<Attempt>) returns (claimed: nat, published: nat, rejected: bool)
      requires table.maxAttempts == cfg.maxAttempts && cfg.batchSize <= |attempts|
      modifies this, table
      ensures var batch := Batch(old(table.rows), now, cfg.maxAttempts, cfg.batchSize);
              && |batch| <= |attempts|
              && claimed == |batch|
              && published == DeliveredPrefix(batch, attempts)
              && rejected == Throws(batch, attempts)
              && Scene(cfg, table.rows, log, now, []) ==
                 Play(Scene(cfg, old(table.rows), old(log), now, []), [Claim(0)] + Script(batch, attempts))
    {
      ghost var start := Scene(cfg, table.rows, log, now, []);
      ClaimIsRun(cfg, table.rows, log, now);
      BatchMembers(table.rows, now, cfg.maxAttempts, cfg.batchSize);
      var events := table.ClaimBatch(cfg.batchSize, now);
      PlayFirst(start, Claim(0), Script(events, attempts));
      ghost var final := Rest(cfg, table.rows, log, now, events, attempts);
      claimed := |events|;
      published := 0;
      rejected := false;
      assert events[0..] == events && attempts[0..] == attempts;
      for i := 0 to |events|
        invariant published == i && !rejected
        invariant i + DeliveredPrefix(events[i..], attempts[i..]) == DeliveredPrefix(events, attempts)
        invariant final == Rest(cfg, table.rows, log, now, events[i..], attempts[i..])
      {
        RestUnfolds(cfg, table.rows, log, now, events[i..], attempts[i..]);
        var sent;
        sent, rejected := PublishOne(events[i], now, attempts[i]);
        if !sent {
          break;
        }
        assert events[i..][1..] == events[i + 1..] && attempts[i..][1..] == attempts[i + 1..];
        published := published + 1;
      }
    }
  }

  /** The delay before the next pass: none after a full batch that was entirely published. */
  function DelayAfter(cfg: Config, published: nat, pollIntervalMs: nat): nat {
    if published == cfg.batchSize then 0 else pollIntervalMs
  }

  /** The loop goes straight on exactly after a full batch all of which was sent and marked; else it waits its interval. */
  lemma DelayExactly(cfg: Config, batch: seq<Row>, attempts: seq<Attempt>, pollIntervalMs: nat)
    requires |batch| <= cfg.batchSize && |batch| <= |attempts| && pollIntervalMs > 0
    ensures var delay := DelayAfter(cfg, DeliveredPrefix(batch, attempts), pollIntervalMs);
            && (delay == 0 <==> |batch| == cfg.batchSize && forall k :: 0 <= k < |batch| ==> Delivered(batch[k], attempts[k]))
            && (delay == 0 || delay == pollIntervalMs)
  {
    PrefixBounded(batch, attempts);
    PrefixIsAll(batch, attempts);
  }

  lemma {:induction false} PrefixIsAll(queue: seq<Row>, attempts: seq<Attempt>)
    requires |queue| <= |attempts|
    ensures DeliveredPrefix(queue, attempts) == |queue| <==> forall k :: 0 <= k < |queue| ==> Delivered(queue[k], attempts[k])
  {
    if queue != [] {
      PrefixBounded(queue[1..], attempts[1..]);
      PrefixIsAll(queue[1..], attempts[1..]);
      assert forall k :: 0 <= k < |queue[1..]| ==> queue[1..][k] == queue[k + 1] && attempts[1..][k] == attempts[k + 1];
    }
  }
}
