/** The idempotency-key reservation of src/middlewares/idempotency.js under interleaved requests. */
module Idempotency {

  const IN_FLIGHT := 0

  /** (user, endpoint, key) and the hash of a body, each as an abstract value. */
  type Id = nat

  type Hash = nat

  /** One IDEMPOTENCY_KEY row; `body` is the stored response body. */
  datatype Entry = Entry(requestHash: Hash, status: nat, body: nat)

  datatype Response = Response(status: nat, body: nat)

  predicate Is2xx(status: nat) {
    200 <= status < 300
  }

  /**
   * Where a request stands. `Owner` won the insert; `Bare` runs the handler with
   * no reservation because the row had gone; `Answering` is an owner whose
   * handler has produced a response that is still to be settled.
   */
  datatype Request =
    | Lost(id: Id, hash: Hash)
    | Owner(id: Id, hash: Hash)
    | Bare(id: Id, hash: Hash)
    | Answering(id: Id, hash: Hash, response: Response)
    | Done(id: Id, hash: Hash, outcome: Outcome)

  datatype Outcome = Answered(response: Response) | Replayed(response: Response) | Refused | Gone

  /**
   * `executed` is history: the handler runs that ended 2xx, by key, with the
   * owner's kept apart from those that ran without a reservation.
   */
  datatype State = State(
    rows: map<Id, Entry>,
    requests: map<nat, Request>,
    owned: seq<Execution>,
    bare: seq<Execution>)

  datatype Execution = Execution(id: Id, hash: Hash, response: Response)

  datatype Step =
    | Insert(r: nat, id: Id, hash: Hash)
    | Read(r: nat)
    | Handle(r: nat, response: Response)
    | Settle(r: nat, applied: bool)
    | Crash(r: nat)

  function Put(s: State, r: nat, q: Request): State {
    s.(requests := s.requests[r := q])
  }

  /** The insert under the unique key: the winner owns it, the loser must look. */
  function Reserve(s: State, r: nat, id: Id, hash: Hash): State {
    if id in s.rows then Put(s, r, Lost(id, hash))
    else Put(s.(rows := s.rows[id := Entry(hash, IN_FLIGHT, 0)]), r, Owner(id, hash))
  }

  /** What a request that lost the insert is told by the row it then reads. */
  function Verdict(s: State, q: Request): Request
    requires q.Lost?
  {
    if q.id !in s.rows then Bare(q.id, q.hash)
    else
      var existing := s.rows[q.id];
      if existing.requestHash != q.hash || existing.status == IN_FLIGHT then Done(q.id, q.hash, Refused)
      else Done(q.id, q.hash, Replayed(Response(existing.status, existing.body)))
  }

  /** The rows after settling: a 2xx is recorded, anything else releases the key. */
  function SettledRows(rows: map<Id, Entry>, id: Id, response: Response): map<Id, Entry> {
    if !Is2xx(response.status) then rows - {id}
    else if id in rows then rows[id := rows[id].(status := response.status, body := response.body)]
    else rows
  }

  function Log(executions: seq<Execution>, e: Execution): seq<Execution> {
    if Is2xx(e.response.status) then executions + [e] else executions
  }

  function Next(s: State, step: Step): State {
    match step
    case Insert(r, id, hash) => if r in s.requests then s else Reserve(s, r, id, hash)
    case Read(r) => if r in s.requests && s.requests[r].Lost? then Put(s, r, Verdict(s, s.requests[r])) else s
    case Handle(r, response) =>
      if r !in s.requests || response.status == IN_FLIGHT then s
      else
        var q := s.requests[r];
        var e := Execution(q.id, q.hash, response);
        if q.Owner? then Put(s.(owned := Log(s.owned, e)), r, Answering(q.id, q.hash, response))
        else if q.Bare? then Put(s.(bare := Log(s.bare, e)), r, Done(q.id, q.hash, Answered(response)))
        else s
    case Settle(r, applied) =>
      if r in s.requests && s.requests[r].Answering? then
        var q := s.requests[r];
        Put(if applied then s.(rows := SettledRows(s.rows, q.id, q.response)) else s,
            r, Done(q.id, q.hash, Answered(q.response)))
      else s
    case Crash(r) => if r in s.requests then Put(s, r, Done(s.requests[r].id, s.requests[r].hash, Gone)) else s
  }

  function Play(s: State, steps: seq<Step>): State {
    if steps == [] then s else Next(Play(s, steps[..|steps| - 1]), steps[|steps| - 1])
  }

  const EMPTY := State(map[], map[], [], [])

  // ---------------------------------------------------------------- invariant

  predicate Holds(q: Request, id: Id) {
    (q.Owner? || q.Answering?) && q.id == id
  }

  predicate HasOwned(s: State, id: Id) {
    exists e :: e in s.owned && e.id == id
  }

  /** The holder of a key finds its own in-flight row there, and is the only holder. */
  predicate HoldersOk(s: State) {
    && (forall r :: r in s.requests && (s.requests[r].Owner? || s.requests[r].Answering?) ==>
          var q := s.requests[r];
          q.id in s.rows && s.rows[q.id].status == IN_FLIGHT && s.rows[q.id].requestHash == q.hash)
    && (forall r, t ::
          r in s.requests && t in s.requests && r != t && Holds(s.requests[r], s.requests[t].id)
          ==> !Holds(s.requests[t], s.requests[t].id))
  }

  /** Each key has one owned execution, its row carries that hash, and what is settled is what it answered. */
  ghost predicate OwnedOk(s: State) {
    && (forall i, j :: 0 <= i < j < |s.owned| ==> s.owned[i].id != s.owned[j].id)
    && (forall e :: e in s.owned ==> e.id in s.rows && s.rows[e.id].requestHash == e.hash)
    && (forall id :: id in s.rows && s.rows[id].status != IN_FLIGHT ==>
          Execution(id, s.rows[id].requestHash, Response(s.rows[id].status, s.rows[id].body)) in s.owned)
    && (forall e :: e in s.owned || e in s.bare ==> Is2xx(e.response.status))
  }

  /** An owner that has not answered 2xx has no predecessor that did. */
  ghost predicate AnswersOk(s: State) {
    && (forall r :: r in s.requests && s.requests[r].Owner? ==> !HasOwned(s, s.requests[r].id))
    && (forall r :: r in s.requests && s.requests[r].Answering? ==>
          var q := s.requests[r];
          if Is2xx(q.response.status) then Execution(q.id, q.hash, q.response) in s.owned else !HasOwned(s, q.id))
  }

  /** Every replay handed out the one owned execution of its key, to a request with the same body. */
  predicate ReplaysOk(s: State) {
    forall r :: r in s.requests && s.requests[r].Done? && s.requests[r].outcome.Replayed? ==>
      var q := s.requests[r];
      Execution(q.id, q.hash, q.outcome.response) in s.owned
  }

  ghost predicate Inv(s: State) {
    HoldersOk(s) && OwnedOk(s) && AnswersOk(s) && ReplaysOk(s)
  }

  lemma InsertKeepsInv(s: State, r: nat, id: Id, hash: Hash)
    requires Inv(s)
    ensures Inv(Next(s, Insert(r, id, hash)))
  {
    var s' := Next(s, Insert(r, id, hash));
    if r !in s.requests && id !in s.rows {
      assert !HasOwned(s, id);
      assert forall t :: t in s.requests ==> !Holds(s.requests[t], id);
    }
    assert forall i :: HasOwned(s', i) <==> HasOwned(s, i);
  }

  lemma ReadKeepsInv(s: State, r: nat)
    requires Inv(s)
    ensures Inv(Next(s, Read(r)))
  {
    assert forall i :: HasOwned(Next(s, Read(r)), i) <==> HasOwned(s, i);
  }

  /** Whoever holds a key holds it alone. */
  lemma HeldAlone(s: State, r: nat, t: nat)
    requires HoldersOk(s) && r in s.requests && t in s.requests && r != t
    requires s.requests[r].Owner? || s.requests[r].Answering?
    ensures !Holds(s.requests[t], s.requests[r].id)
  {
    assert Holds(s.requests[r], s.requests[r].id);
  }

  lemma HandleKeepsHolders(s: State, r: nat, response: Response)
    requires HoldersOk(s) && r in s.requests && s.requests[r].Owner? && response.status != IN_FLIGHT
    ensures HoldersOk(Next(s, Handle(r, response)))
  {
    forall t | t in s.requests && t != r ensures !Holds(s.requests[t], s.requests[r].id) {
      HeldAlone(s, r, t);
    }
  }

  /** A handler run adds at most the one execution. */
  lemma HandleLogs(s: State, r: nat, response: Response)
    requires r in s.requests && s.requests[r].Owner? && response.status != IN_FLIGHT
    ensures var s', e := Next(s, Handle(r, response)), Execution(s.requests[r].id, s.requests[r].hash, response);
            && s'.rows == s.rows && s'.bare == s.bare
            && s'.owned == s.owned + (if Is2xx(response.status) then [e] else [])
            && (forall x :: x in s'.owned <==> x in s.owned || (Is2xx(response.status) && x == e))
            && (forall i :: HasOwned(s', i) <==> HasOwned(s, i) || (Is2xx(response.status) && i == e.id))
  {
    var s', e := Next(s, Handle(r, response)), Execution(s.requests[r].id, s.requests[r].hash, response);
    assert forall x :: x in s'.owned <==> x in s.owned || (Is2xx(response.status) && x == e);
    if Is2xx(response.status) {
      assert e in s'.owned;
    }
  }

  lemma HandleKeepsOwned(s: State, r: nat, response: Response)
    requires Inv(s) && r in s.requests && s.requests[r].Owner? && response.status != IN_FLIGHT
    ensures OwnedOk(Next(s, Handle(r, response)))
  {
    HandleLogs(s, r, response);
    forall i | 0 <= i < |s.owned| ensures s.owned[i].id != s.requests[r].id {
      assert s.owned[i] in s.owned;
    }
  }

  lemma HandleKeepsAnswers(s: State, r: nat, response: Response)
    requires HoldersOk(s) && AnswersOk(s) && r in s.requests && s.requests[r].Owner? && response.status != IN_FLIGHT
    ensures AnswersOk(Next(s, Handle(r, response)))
  {
    HandleLogs(s, r, response);
    forall t | t in s.requests && t != r ensures !Holds(s.requests[t], s.requests[r].id) {
      HeldAlone(s, r, t);
    }
  }

  lemma HandleKeepsInv(s: State, r: nat, response: Response)
    requires Inv(s) && r in s.requests && s.requests[r].Owner? && response.status != IN_FLIGHT
    ensures Inv(Next(s, Handle(r, response)))
  {
    HandleKeepsHolders(s, r, response);
    HandleKeepsOwned(s, r, response);
    HandleKeepsAnswers(s, r, response);
    HandleLogs(s, r, response);
  }

  lemma BareKeepsInv(s: State, r: nat, response: Response)
    requires Inv(s) && (r in s.requests ==> !s.requests[r].Owner?)
    ensures Inv(Next(s, Handle(r, response)))
  {
    assert forall i :: HasOwned(Next(s, Handle(r, response)), i) <==> HasOwned(s, i);
  }

  lemma SettleKeepsHolders(s: State, r: nat, applied: bool)
    requires HoldersOk(s)
    ensures HoldersOk(Next(s, Settle(r, applied)))
  {
    if r in s.requests && s.requests[r].Answering? {
      forall t | t in s.requests && t != r ensures !Holds(s.requests[t], s.requests[r].id) {
        HeldAlone(s, r, t);
      }
    }
  }

  lemma SettleKeepsOwned(s: State, r: nat, applied: bool)
    requires Inv(s)
    ensures OwnedOk(Next(s, Settle(r, applied)))
  {
    if r in s.requests && s.requests[r].Answering? {
      var q := s.requests[r];
      forall e | e in s.owned && e.id == q.id ensures Is2xx(q.response.status) {
        assert HasOwned(s, q.id);
      }
    }
  }

  lemma SettleKeepsInv(s: State, r: nat, applied: bool)
    requires Inv(s)
    ensures Inv(Next(s, Settle(r, applied)))
  {
    SettleKeepsHolders(s, r, applied);
    SettleKeepsOwned(s, r, applied);
    SettleKeepsAnswers(s, r, applied);
  }

  lemma SettleKeepsAnswers(s: State, r: nat, applied: bool)
    requires AnswersOk(s) && ReplaysOk(s)
    ensures AnswersOk(Next(s, Settle(r, applied))) && ReplaysOk(Next(s, Settle(r, applied)))
  {
    assert Next(s, Settle(r, applied)).owned == s.owned;
    assert forall i :: HasOwned(Next(s, Settle(r, applied)), i) <==> HasOwned(s, i);
  }

  lemma CrashKeepsInv(s: State, r: nat)
    requires Inv(s)
    ensures Inv(Next(s, Crash(r)))
  {
    assert forall i :: HasOwned(Next(s, Crash(r)), i) <==> HasOwned(s, i);
  }

  lemma StepKeepsInv(s: State, step: Step)
    requires Inv(s)
    ensures Inv(Next(s, step))
  {
    match step
    case Insert(r, id, hash) => InsertKeepsInv(s, r, id, hash);
    case Read(r) => ReadKeepsInv(s, r);
    case Handle(r, response) =>
      if r in s.requests && s.requests[r].Owner? && response.status != IN_FLIGHT {
        HandleKeepsInv(s, r, response);
      } else if !(r in s.requests && s.requests[r].Owner?) {
        BareKeepsInv(s, r, response);
      }
    case Settle(r, applied) => SettleKeepsInv(s, r, applied);
    case Crash(r) => CrashKeepsInv(s, r);
  }

  lemma {:induction false} Reachable(steps: seq<Step>)
    ensures Inv(Play(EMPTY, steps))
  {
    if steps != [] {
      Reachable(steps[..|steps| - 1]);
      StepKeepsInv(Play(EMPTY, steps[..|steps| - 1]), steps[|steps| - 1]);
    }
  }

  // ---------------------------------------------------------------- what the key guarantees

  /** At most one request holds a live reservation of a key. */
  lemma OneReservation(steps: seq<Step>, id: Id, r: nat, t: nat)
    requires var s := Play(EMPTY, steps);
             && r in s.requests && t in s.requests && Holds(s.requests[r], id) && Holds(s.requests[t], id)
    ensures r == t
  {
    Reachable(steps);
  }

  function CountOf(executions: seq<Execution>, id: Id): nat {
    if executions == [] then 0
    else CountOf(executions[..|executions| - 1], id) + if executions[|executions| - 1].id == id then 1 else 0
  }

  lemma {:induction false} DistinctCountOnce(executions: seq<Execution>, id: Id)
    requires forall i, j :: 0 <= i < j < |executions| ==> executions[i].id != executions[j].id
    ensures CountOf(executions, id) <= 1
    ensures CountOf(executions, id) == 1 ==> exists i :: 0 <= i < |executions| && executions[i].id == id
  {
    if executions != [] {
      DistinctCountOnce(executions[..|executions| - 1], id);
    }
  }

  function BareRequests(s: State, id: Id): set<nat> {
    set r | r in s.requests && s.requests[r].Bare? && s.requests[r].id == id
  }

  /** How often, along a run, a request for this key went on without a reservation. */
  function FallThroughs(steps: seq<Step>, id: Id): nat {
    if steps == [] then 0
    else
      var init, last := steps[..|steps| - 1], steps[|steps| - 1];
      FallThroughs(init, id) +
      if last.Read? && last.r !in BareRequests(Play(EMPTY, init), id) && last.r in BareRequests(Next(Play(EMPTY, init), last), id)
      then 1 else 0
  }

  lemma CountOfAdd(executions: seq<Execution>, e: Execution, id: Id)
    ensures CountOf(executions + [e], id) == CountOf(executions, id) + if e.id == id then 1 else 0
  {
    assert (executions + [e])[..|executions|] == executions;
  }

  lemma OthersStay(s: State, step: Step, id: Id)
    ensures forall t :: t != step.r ==> (t in BareRequests(s, id) <==> t in BareRequests(Next(s, step), id))
    ensures step.r in BareRequests(Next(s, step), id) && step.r !in BareRequests(s, id) ==> step.Read?
  {
  }

  lemma StepMovesOne(s: State, step: Step, id: Id)
    ensures var before, after := BareRequests(s, id), BareRequests(Next(s, step), id);
            && (step.r in after && step.r !in before ==> |after| == |before| + 1 && step.Read?)
            && (step.r in before && step.r !in after ==> |after| == |before| - 1)
            && ((step.r in before <==> step.r in after) ==> |after| == |before|)
  {
    OthersStay(s, step, id);
    OneApart(BareRequests(s, id), BareRequests(Next(s, step), id), step.r);
  }

  lemma OneApart(a: set<nat>, b: set<nat>, r: nat)
    requires forall t :: t != r ==> (t in a <==> t in b)
    ensures r in b && r !in a ==> |b| == |a| + 1
    ensures r in a && r !in b ==> |b| == |a| - 1
    ensures (r in a <==> r in b) ==> |b| == |a|
  {
    if r in b && r !in a {
      assert b == a + {r};
    } else if r in a && r !in b {
      assert b == a - {r};
    } else {
      assert b == a;
    }
  }

  /** A bare execution is logged as its request stops being bare. */
  lemma StepLogsOne(s: State, step: Step, id: Id)
    ensures CountOf(Next(s, step).bare, id) <= CountOf(s.bare, id) +
              if step.r in BareRequests(s, id) && step.r !in BareRequests(Next(s, step), id) then 1 else 0
  {
    if step.Handle? && step.r in s.requests && s.requests[step.r].Bare? {
      var q := s.requests[step.r];
      CountOfAdd(s.bare, Execution(q.id, q.hash, step.response), id);
    }
  }

  lemma StepCountsBare(s: State, step: Step, id: Id)
    ensures var s' := Next(s, step);
            CountOf(s'.bare, id) + |BareRequests(s', id)| <= CountOf(s.bare, id) + |BareRequests(s, id)| +
              if step.Read? && step.r !in BareRequests(s, id) && step.r in BareRequests(s', id) then 1 else 0
  {
    StepMovesOne(s, step, id);
    StepLogsOne(s, step, id);
  }

  lemma {:induction false} BareCounted(steps: seq<Step>, id: Id)
    ensures CountOf(Play(EMPTY, steps).bare, id) + |BareRequests(Play(EMPTY, steps), id)| <= FallThroughs(steps, id)
  {
    if steps == [] {
      assert BareRequests(EMPTY, id) == {};
    } else {
      BareCounted(steps[..|steps| - 1], id);
      StepCountsBare(Play(EMPTY, steps[..|steps| - 1]), steps[|steps| - 1], id);
    }
  }

  /**
   * Handler runs that ended 2xx number at most one for the key, plus one for
   * each request that found the row gone and ran without a reservation.
   */
  lemma ExecutionsBounded(steps: seq<Step>, id: Id)
    ensures var s := Play(EMPTY, steps);
            && CountOf(s.owned, id) <= 1
            && CountOf(s.owned, id) + CountOf(s.bare, id) <= 1 + FallThroughs(steps, id)
  {
    Reachable(steps);
    DistinctCountOnce(Play(EMPTY, steps).owned, id);
    BareCounted(steps, id);
  }

  /** A replay returns what the one owned execution of that key answered, to the same body hash only. */
  lemma ReplaysReturnTheExecution(steps: seq<Step>, r: nat)
    requires var s := Play(EMPTY, steps);
             r in s.requests && s.requests[r].Done? && s.requests[r].outcome.Replayed?
    ensures var s := Play(EMPTY, steps);
            var q := s.requests[r];
            && Execution(q.id, q.hash, q.outcome.response) in s.owned
            && Is2xx(q.outcome.response.status)
            && (forall e :: e in s.owned && e.id == q.id ==> e.hash == q.hash && e.response == q.outcome.response)
  {
    Reachable(steps);
    var s := Play(EMPTY, steps);
    var q := s.requests[r];
    var mine := Execution(q.id, q.hash, q.outcome.response);
    forall e | e in s.owned && e.id == q.id ensures e == mine {
      var i :| 0 <= i < |s.owned| && s.owned[i] == e;
      var j :| 0 <= j < |s.owned| && s.owned[j] == mine;
      assert i == j;
    }
  }

  lemma StepKeepsSettled(s: State, step: Step, id: Id)
    requires HoldersOk(s) && id in s.rows && s.rows[id].status != IN_FLIGHT
    ensures id in Next(s, step).rows && Next(s, step).rows[id] == s.rows[id]
  {
  }

  /** Once settled with a 2xx, a row never changes again and is never deleted. */
  lemma {:induction false} SettledForever(s: State, steps: seq<Step>, id: Id)
    requires Inv(s) && id in s.rows && s.rows[id].status != IN_FLIGHT
    ensures id in Play(s, steps).rows && Play(s, steps).rows[id] == s.rows[id] && Inv(Play(s, steps))
  {
    if steps != [] {
      var init := Play(s, steps[..|steps| - 1]);
      SettledForever(s, steps[..|steps| - 1], id);
      StepKeepsSettled(init, steps[|steps| - 1], id);
      StepKeepsInv(init, steps[|steps| - 1]);
    }
  }

  /** However much later, a retry of a settled request is answered from the row: its response, or a refusal. */
  lemma RetryReplays(s: State, steps: seq<Step>, r: nat, id: Id, hash: Hash)
    requires Inv(s) && id in s.rows && s.rows[id].status != IN_FLIGHT && r !in Play(s, steps).requests
    ensures var w := Next(Next(Play(s, steps), Insert(r, id, hash)), Read(r));
            && w.rows == Play(s, steps).rows && w.owned == Play(s, steps).owned && w.bare == Play(s, steps).bare
            && w.requests[r] == Done(id, hash, if hash == s.rows[id].requestHash
                                              then Replayed(Response(s.rows[id].status, s.rows[id].body)) else Refused)
  {
    SettledForever(s, steps, id);
  }

  /** A failed request stays retryable: once its key is released, the next request owns it, whatever its body. */
  lemma FailureFreesKey(steps: seq<Step>, r: nat, t: nat, hash: Hash)
    requires var s := Play(EMPTY, steps);
             && r in s.requests && s.requests[r].Answering? && t !in s.requests
             && !Is2xx(s.requests[r].response.status)
    ensures var s := Play(EMPTY, steps);
            var q, w := s.requests[r], Next(Next(s, Settle(r, true)), Insert(t, s.requests[r].id, hash));
            && w.requests[t] == Owner(q.id, hash) && !HasOwned(w, q.id)
            && forall id :: id != q.id ==> (id in w.rows <==> id in s.rows) && (id in s.rows ==> w.rows[id] == s.rows[id])
  {
    Reachable(steps);
  }

  /**
   * What is kept of an answer: a status from 200 to 299 stays in the row with its
   * body, and any other leaves no row, so the key can be used again.
   */
  lemma SettledExactly(steps: seq<Step>, r: nat)
    requires r in Play(EMPTY, steps).requests && Play(EMPTY, steps).requests[r].Answering?
    ensures var s := Play(EMPTY, steps);
            var q, s' := s.requests[r], Next(s, Settle(r, true));
            && (q.id in s'.rows <==> 200 <= q.response.status <= 299)
            && (q.id in s'.rows ==> s'.rows[q.id] == Entry(q.hash, q.response.status, q.response.body))
            && s'.requests[r] == Done(q.id, q.hash, Answered(q.response))
  {
    Reachable(steps);
  }

  predicate InFlight(s: State, id: Id) {
    id in s.rows && s.rows[id].status == IN_FLIGHT
  }

  predicate Held(s: State, id: Id) {
    exists r :: r in s.requests && Holds(s.requests[r], id)
  }

  /** Some continuation frees or settles the key. */
  ghost predicate CanLeaveFlight(s: State, id: Id) {
    exists steps :: !InFlight(Play(s, steps), id)
  }

  lemma {:induction false} UnheldStaysInFlight(s: State, steps: seq<Step>, id: Id)
    requires InFlight(s, id) && !Held(s, id)
    ensures InFlight(Play(s, steps), id) && !Held(Play(s, steps), id)
  {
    if steps != [] {
      UnheldStaysInFlight(s, steps[..|steps| - 1], id);
    }
  }

  lemma HolderCanRelease(s: State, r: nat, id: Id)
    requires r in s.requests && Holds(s.requests[r], id)
    ensures CanLeaveFlight(s, id)
  {
    var steps := [Handle(r, Response(500, 0)), Settle(r, true)];
    assert steps[..0] == [] && steps[..1][..0] == [] && steps[..2] == steps && steps[..2][..1] == steps[..1];
    assert Play(s, steps[..1]) == Next(Play(s, steps[..1][..0]), steps[0]);
    assert Play(s, steps) == Next(Play(s, steps[..1]), steps[1]);
    assert !InFlight(Play(s, steps), id);
  }

  /**
   * A key in flight can still be freed or settled exactly when some request holds
   * it. Otherwise, as after a crash or a release that failed, it stays in flight.
   */
  lemma InFlightLeavesExactly(s: State, id: Id)
    requires InFlight(s, id)
    ensures CanLeaveFlight(s, id) <==> Held(s, id)
  {
    if Held(s, id) {
      var r :| r in s.requests && Holds(s.requests[r], id);
      HolderCanRelease(s, r, id);
    } else if steps :| !InFlight(Play(s, steps), id) {
      UnheldStaysInFlight(s, steps, id);
    }
  }

  /** And then every retry is refused, however much later and whatever its body. */
  lemma StuckKeyRefuses(s: State, steps: seq<Step>, r: nat, id: Id, hash: Hash)
    requires InFlight(s, id) && !Held(s, id) && r !in Play(s, steps).requests
    ensures Next(Next(Play(s, steps), Insert(r, id, hash)), Read(r)).requests[r] == Done(id, hash, Refused)
  {
    UnheldStaysInFlight(s, steps, id);
  }

  /** Two such runs: the owner crashes, or fails and cannot delete its row. */
  lemma StuckKeyExample()
    ensures var s := Next(Next(EMPTY, Insert(0, 7, 1)), Crash(0)); InFlight(s, 7) && !Held(s, 7)
    ensures var s := Next(Next(Next(EMPTY, Insert(0, 7, 1)), Handle(0, Response(500, 0))), Settle(0, false));
            InFlight(s, 7) && !Held(s, 7)
  {
  }

  /**
   * The unreserved run is real: a retry that loses the insert to a request which
   * then fails and releases the key before the retry looks is run bare, and a
   * third request may own the key meanwhile; both can succeed.
   */
  lemma UnreservedRunExample()
    ensures var released := Four(EMPTY, Insert(0, 7, 1), Insert(1, 7, 1), Handle(0, Response(500, 0)), Settle(0, true));
            var s := Four(released, Read(1), Insert(2, 7, 1), Handle(1, Response(201, 11)), Handle(2, Response(201, 12)));
            s.bare == [Execution(7, 1, Response(201, 11))] && s.owned == [Execution(7, 1, Response(201, 12))]
  {
    var released := Four(EMPTY, Insert(0, 7, 1), Insert(1, 7, 1), Handle(0, Response(500, 0)), Settle(0, true));
    assert released.rows == map[] && released.requests[1] == Lost(7, 1);
  }

  function Four(s: State, a: Step, b: Step, c: Step, d: Step): State {
    Next(Next(Next(Next(s, a), b), c), d)
  }

  // ---------------------------------------------------------------- the middleware

  /** The key table as the middleware uses it: reserve or look, then settle. */
  class KeyTable {
    var rows: map<Id, Entry>

    constructor ()
      ensures rows == map[]
    {
      rows := map[];
    }

    ghost function With(r: nat, q: Request): State
      reads this
    {
      State(rows, map[r := q], [], [])
    }

    /** Insert; on a unique violation read the row and decide, without waiting. */
    method Enter(id: Id, hash: Hash) returns (q: Request)
      modifies this
      ensures id !in old(rows) ==> q == Owner(id, hash) && rows == old(rows)[id := Entry(hash, IN_FLIGHT, 0)]
      ensures id in old(rows) ==> rows == old(rows) && q == Verdict(With(0, q), Lost(id, hash))
    {
      if id !in rows {
        rows := rows[id := Entry(hash, IN_FLIGHT, 0)];
        return Owner(id, hash);
      }
      var existing := rows[id];
      if existing.requestHash != hash {
        return Done(id, hash, Refused);
      }
      if existing.status == IN_FLIGHT {
        return Done(id, hash, Refused);
      }
      return Done(id, hash, Replayed(Response(existing.status, existing.body)));
    }

    /** The rebound `res.json`: record a 2xx, release the key for anything else; errors are only logged. */
    method SettleKey(id: Id, response: Response, applied: bool)
      modifies this
      ensures rows == if applied then SettledRows(old(rows), id, response) else old(rows)
    {
      if applied {
        if 200 <= response.status < 300 {
          if id in rows {
            rows := rows[id := rows[id].(status := response.status, body := response.body)];
          }
        } else {
          rows := rows - {id};
        }
      }
    }
  }
}
