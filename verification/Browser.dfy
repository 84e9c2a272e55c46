/**
 * One browser tab and the server: the single-flight refresh of
 * frontend/src/services/apiClient.ts over the token store, cut at every await.
 */
module Browser {
  import opened Wrappers
  import opened Sequences
  import Sessions

  /** `refreshInFlight`: null, a refresh awaiting its answer, or one whose `finally` is still to run. */
  datatype Flight = Grounded | Waiting(token: nat) | Landed

  /**
   * `presented` lists the tokens sent to the refresh endpoint, in order; `wire`
   * the positions the server has not read yet; `mail` the tokens it has issued
   * and the tab has not received, some of which it never will.
   */
  datatype World = World(
    server: Sessions.Server,
    store: Option<nat>,
    flight: Flight,
    presented: seq<nat>,
    wire: set<nat>,
    mail: set<nat>,
    alarm: bool)

  datatype Step =
    | Unauthorized
    | RefreshAnswered(token: nat)
    | RefreshFailed
    | Settled
    | SignedIn(token: nat)
    | SignedOut
    | ServerReads(k: nat)
    | ServerWrites(k: nat)
    | ServerSignsIn(userId: nat)
    | ServerLogsOut(userId: nat, only: Option<nat>)
    | ServerTicks(ms: nat)
    | Reload

  const START := World(Sessions.EMPTY, None, Grounded, [], {}, {}, false)

  function Serve(w: World, step: Sessions.Step): World {
    w.(server := Sessions.Next(w.server, step))
  }

  /** The token a server step issued, if any, is on its way to the tab. */
  function Issued(w: World, server: Sessions.Server): set<nat> {
    if |server.tokens| > |w.server.tokens| then {|w.server.tokens|} else {}
  }

  function ServeAndMail(w: World, step: Sessions.Step): World {
    var server := Sessions.Next(w.server, step);
    w.(server := server, mail := w.mail + Issued(w, server))
  }

  predicate Rotated(w: World, t: nat) {
    t < |w.server.tokens| && w.server.tokens[t].rotatedAt.Some?
  }

  function Next(w: World, step: Step): World {
    match step
    case Unauthorized =>
      if w.store.Some? && w.flight.Grounded? then
        w.(flight := Waiting(w.store.value), wire := w.wire + {|w.presented|}, presented := w.presented + [w.store.value])
      else w
    case RefreshAnswered(t) =>
      if w.flight.Waiting? && t in w.mail then w.(store := Some(t), mail := w.mail - {t}, flight := Landed) else w
    case RefreshFailed => if w.flight.Waiting? then w.(store := None, flight := Landed) else w
    case Settled => if w.flight.Landed? then w.(flight := Grounded) else w
    case SignedIn(t) => if t in w.mail then w.(store := Some(t), mail := w.mail - {t}) else w
    case SignedOut => w.(store := None)
    case ServerReads(k) =>
      if k in w.wire && k < |w.presented| then
        Serve(w, Sessions.RefreshRead(k, w.presented[k]))
          .(wire := w.wire - {k}, alarm := w.alarm || Rotated(w, w.presented[k]))
      else w
    case ServerWrites(k) => ServeAndMail(w, Sessions.RefreshWrite(k))
    case ServerSignsIn(u) => ServeAndMail(w, Sessions.Login(u))
    case ServerLogsOut(u, t) => Serve(w, if t.Some? then Sessions.LogoutOne(u, t.value) else Sessions.RevokeAll(u))
    case ServerTicks(ms) => Serve(w, Sessions.Tick(ms))
    case Reload => w.(flight := Grounded)
  }

  function Play(w: World, steps: seq<Step>): World {
    if steps == [] then w else Next(Play(w, steps[..|steps| - 1]), steps[|steps| - 1])
  }

  /** The state after one more step of a given run. */
  lemma PlayPrefix(w: World, steps: seq<Step>, k: nat)
    requires k < |steps|
    ensures Play(w, steps[..k + 1]) == Next(Play(w, steps[..k]), steps[k])
  {
    assert steps[..k + 1][..k] == steps[..k];
  }

  /** One page lifetime. */
  predicate NoReload(steps: seq<Step>) {
    forall i :: 0 <= i < |steps| ==> !steps[i].Reload?
  }

  // ---------------------------------------------------------------- invariant

  /** A token that can no longer be exchanged although it never was: presenting it is refused without alarm. */
  predicate Spent(server: Sessions.Server, t: nat) {
    && t < |server.tokens| && server.tokens[t].rotatedAt.None?
    && Sessions.RevokedOrExpired(server, t) && !Sessions.BeingRotated(server, t)
  }

  /** Within one page lifetime no token may be presented twice; after a reload a spent one may. */
  predicate MayRepeat(w: World, t: nat, reloaded: bool) {
    reloaded && Spent(w.server, t)
  }

  /** Tokens on their way were never stored or presented; the stored one may be presented only by the flight. */
  predicate TabOk(w: World, reloaded: bool) {
    && (forall i, j :: 0 <= i < j < |w.presented| && w.presented[i] == w.presented[j]
          ==> MayRepeat(w, w.presented[i], reloaded))
    && (forall t :: t in w.mail ==> t < |w.server.tokens| && t !in w.presented)
    && (forall k :: 0 <= k < |w.presented| ==> w.presented[k] < |w.server.tokens|)
    && (w.store.Some? ==>
          && w.store.value < |w.server.tokens| && w.store.value !in w.mail
          && (w.store.value in w.presented ==>
                w.flight == Waiting(w.store.value) || MayRepeat(w, w.store.value, reloaded)))
    && (w.flight.Waiting? ==> w.flight.token in w.presented)
  }

  /** Every rotation consumed a presentation that has left the wire. */
  predicate ServerOk(w: World) {
    && (forall k :: k in w.wire ==> k < |w.presented| && !Rotated(w, w.presented[k]))
    && (forall k :: k in w.server.reading ==> k < |w.presented| && k !in w.wire)
    && (forall k :: k in w.server.reading && w.server.reading[k].Rotate? ==> w.server.reading[k].token == w.presented[k])
    && (forall t :: 0 <= t < |w.server.tokens| && Rotated(w, t) ==> t in w.presented)
    && !w.alarm
  }

  /** A presentation that has left the wire did its work: the token is rotated, being rotated, or spent. */
  predicate Answered(w: World) {
    forall k :: 0 <= k < |w.presented| && k !in w.wire && w.presented[k] < |w.server.tokens| ==>
      Rotated(w, w.presented[k]) || Sessions.BeingRotated(w.server, w.presented[k]) || Spent(w.server, w.presented[k])
  }

  predicate InvAfter(w: World, reloaded: bool) {
    TabOk(w, reloaded) && ServerOk(w) && Answered(w)
  }

  predicate Inv(w: World) {
    InvAfter(w, false)
  }

  /** What a step of the server may do to the tokens there are, unless it rotates one. */
  predicate OnlyRevokes(a: Sessions.Server, b: Sessions.Server) {
    && |a.tokens| <= |b.tokens| && a.clock <= b.clock
    && (forall t :: 0 <= t < |a.tokens| ==> Sessions.RevokedAtMost(a.tokens[t], b.tokens[t]))
    && (forall t :: |a.tokens| <= t < |b.tokens| ==> b.tokens[t].rotatedAt.None?)
    && (forall q :: q in a.reading && a.reading[q].Rotate? ==> q in b.reading && b.reading[q] == a.reading[q])
    && (forall q :: q in b.reading ==> q in a.reading && b.reading[q] == a.reading[q])
  }

  lemma RevokingKeeps(a: Sessions.Server, b: Sessions.Server, t: nat)
    requires OnlyRevokes(a, b) && t < |a.tokens|
    ensures Spent(a, t) ==> Spent(b, t)
    ensures Sessions.BeingRotated(a, t) ==> Sessions.BeingRotated(b, t)
    ensures b.tokens[t].rotatedAt == a.tokens[t].rotatedAt
  {
    if Sessions.BeingRotated(a, t) {
      var q :| q in a.reading && a.reading[q] == Sessions.Rotate(t);
      assert b.reading[q] == Sessions.Rotate(t);
    }
  }

  /** The server revokes, issues a token or lets time pass, and may put the new token in the mail. */
  lemma RevokingKeepsInv(w: World, w': World, reloaded: bool)
    requires InvAfter(w, reloaded) && OnlyRevokes(w.server, w'.server)
    requires w' == w.(server := w'.server, mail := w'.mail)
    requires forall t :: t in w'.mail ==> t in w.mail || |w.server.tokens| <= t < |w'.server.tokens|
    ensures InvAfter(w', reloaded)
  {
    forall t: nat | t < |w.server.tokens|
      ensures Spent(w.server, t) ==> Spent(w'.server, t)
      ensures Sessions.BeingRotated(w.server, t) ==> Sessions.BeingRotated(w'.server, t)
      ensures Rotated(w', t) <==> Rotated(w, t)
    {
      RevokingKeeps(w.server, w'.server, t);
    }
  }

  lemma ServerStepRevokes(w: World, step: Step)
    requires step.ServerSignsIn? || step.ServerLogsOut? || step.ServerTicks?
          || (step.ServerWrites? && !(step.k in w.server.reading && w.server.reading[step.k].Rotate?))
    ensures var w' := Next(w, step);
            && w' == w.(server := w'.server, mail := w'.mail) && OnlyRevokes(w.server, w'.server)
            && forall t :: t in w'.mail ==> t in w.mail || |w.server.tokens| <= t < |w'.server.tokens|
  {
  }

  lemma ServerStepKeepsInv(w: World, step: Step, reloaded: bool)
    requires InvAfter(w, reloaded)
    requires step.ServerSignsIn? || step.ServerLogsOut? || step.ServerTicks?
          || (step.ServerWrites? && !(step.k in w.server.reading && w.server.reading[step.k].Rotate?))
    ensures InvAfter(Next(w, step), reloaded)
  {
    ServerStepRevokes(w, step);
    RevokingKeepsInv(w, Next(w, step), reloaded);
  }

  /** The token a refresh is about to rotate was presented once. */
  lemma PresentedOnce(w: World, k: nat, l: nat, reloaded: bool)
    requires InvAfter(w, reloaded) && k in w.server.reading && w.server.reading[k].Rotate?
    requires l < |w.presented| && l != k
    ensures w.presented[l] != w.presented[k]
  {
    assert w.server.reading[k] == Sessions.Rotate(w.presented[k]);
    assert Sessions.BeingRotated(w.server, w.presented[k]);
  }

  lemma RotationEffect(w: World, k: nat)
    requires k in w.server.reading && w.server.reading[k].Rotate? && w.server.reading[k].token < |w.server.tokens|
    ensures var a, b, u := w.server, Next(w, ServerWrites(k)).server, w.server.reading[k].token;
            && |a.tokens| <= |b.tokens| && b.reading == a.reading - {k} && b.clock == a.clock
            && b.tokens[u].rotatedAt.Some?
            && (forall t :: 0 <= t < |a.tokens| && t != u ==> b.tokens[t] == a.tokens[t])
            && (forall t :: |a.tokens| <= t < |b.tokens| ==> b.tokens[t].rotatedAt.None?)
  {
  }

  lemma RotationKeepsTokens(w: World, k: nat, reloaded: bool)
    requires InvAfter(w, reloaded) && k in w.server.reading && w.server.reading[k].Rotate?
    ensures var w' := Next(w, ServerWrites(k));
            forall t: nat :: t < |w.server.tokens| && t != w.presented[k] ==>
              && (Spent(w.server, t) ==> Spent(w'.server, t))
              && (Sessions.BeingRotated(w.server, t) ==> Sessions.BeingRotated(w'.server, t))
              && (Rotated(w', t) <==> Rotated(w, t))
  {
    var w' := Next(w, ServerWrites(k));
    RotationEffect(w, k);
    forall t: nat | t < |w.server.tokens| && t != w.presented[k]
      ensures Spent(w.server, t) ==> Spent(w'.server, t)
      ensures Sessions.BeingRotated(w.server, t) ==> Sessions.BeingRotated(w'.server, t)
      ensures Rotated(w', t) <==> Rotated(w, t)
    {
      if Sessions.BeingRotated(w.server, t) {
        var q :| q in w.server.reading && w.server.reading[q] == Sessions.Rotate(t);
        assert q in w'.server.reading && w'.server.reading[q] == Sessions.Rotate(t);
      }
    }
  }

  /** A rotation leaves the tab alone but for the mail, and rotates a token the tab may not present again. */
  lemma RotationKeepsTab(w: World, k: nat, reloaded: bool)
    requires InvAfter(w, reloaded) && k in w.server.reading && w.server.reading[k].Rotate?
    ensures TabOk(Next(w, ServerWrites(k)), reloaded)
  {
    var w' := Next(w, ServerWrites(k));
    RotationEffect(w, k);
    RotationKeepsTokens(w, k, reloaded);
    assert w.server.reading[k] == Sessions.Rotate(w.presented[k]) && Sessions.BeingRotated(w.server, w.presented[k]);
    assert forall t: nat :: t < |w.server.tokens| && MayRepeat(w, t, reloaded) ==> MayRepeat(w', t, reloaded);
    assert w' == w.(server := w'.server, mail := w'.mail);
  }

  /** The server's part, from what a rotation does: it takes the one presentation of its token off the server. */
  lemma ConsumedKeepsServer(w: World, w': World, k: nat)
    requires ServerOk(w) && w' == w.(server := w'.server, mail := w'.mail) && k in w.server.reading
    requires w'.server.reading == w.server.reading - {k} && |w.server.tokens| <= |w'.server.tokens|
    requires forall l :: 0 <= l < |w.presented| ==> w.presented[l] < |w.server.tokens|
    requires forall l :: 0 <= l < |w.presented| && l != k ==> w.presented[l] != w.presented[k]
    requires forall t: nat :: t < |w.server.tokens| && t != w.presented[k] ==> (Rotated(w', t) <==> Rotated(w, t))
    requires forall t: nat :: |w.server.tokens| <= t < |w'.server.tokens| ==> !Rotated(w', t)
    ensures ServerOk(w')
  {
    assert w.presented[k] in w.presented;
  }

  lemma RotationKeepsServer(w: World, k: nat, reloaded: bool)
    requires InvAfter(w, reloaded) && k in w.server.reading && w.server.reading[k].Rotate?
    ensures ServerOk(Next(w, ServerWrites(k)))
  {
    RotationEffect(w, k);
    RotationKeepsTokens(w, k, reloaded);
    forall l | 0 <= l < |w.presented| && l != k ensures w.presented[l] != w.presented[k] {
      PresentedOnce(w, k, l, reloaded);
    }
    ConsumedKeepsServer(w, Next(w, ServerWrites(k)), k);
  }

  lemma RotationKeepsAnswered(w: World, k: nat, reloaded: bool)
    requires InvAfter(w, reloaded) && k in w.server.reading && w.server.reading[k].Rotate?
    ensures Answered(Next(w, ServerWrites(k)))
  {
    var w' := Next(w, ServerWrites(k));
    RotationEffect(w, k);
    RotationKeepsTokens(w, k, reloaded);
    assert Rotated(w', w.presented[k]);
  }

  lemma RotationConsumes(w: World, k: nat, reloaded: bool)
    requires InvAfter(w, reloaded) && k in w.server.reading && w.server.reading[k].Rotate?
    ensures InvAfter(Next(w, ServerWrites(k)), reloaded)
  {
    RotationKeepsTab(w, k, reloaded);
    RotationKeepsServer(w, k, reloaded);
    RotationKeepsAnswered(w, k, reloaded);
  }

  /** A step of the tab changes no token, and adds at most a presentation of the stored one, on the wire. */
  lemma TabStepEffect(w: World, step: Step)
    requires !step.Reload? && Next(w, step).server == w.server && !step.ServerReads? && !step.ServerWrites?
    ensures var w' := Next(w, step);
            && w'.mail <= w.mail && w'.alarm == w.alarm
            && (w' == w.(store := w'.store, flight := w'.flight, mail := w'.mail)
                || (w.store.Some? && w.flight.Grounded? && w' == w.(flight := Waiting(w.store.value),
                      wire := w.wire + {|w.presented|}, presented := w.presented + [w.store.value])))
  {
  }

  lemma TabStepKeepsTab(w: World, step: Step, reloaded: bool)
    requires InvAfter(w, reloaded) && !step.Reload? && Next(w, step).server == w.server
    requires !step.ServerReads? && !step.ServerWrites?
    ensures TabOk(Next(w, step), reloaded)
  {
  }

  lemma TabStepKeepsServer(w: World, step: Step, reloaded: bool)
    requires InvAfter(w, reloaded) && !step.Reload? && Next(w, step).server == w.server
    requires !step.ServerReads? && !step.ServerWrites?
    ensures ServerOk(Next(w, step)) && Answered(Next(w, step))
  {
    TabStepEffect(w, step);
    var w' := Next(w, step);
    assert forall k :: 0 <= k < |w.presented| ==> w'.presented[k] == w.presented[k];
    if w'.presented != w.presented && w.store.value in w.presented {
      assert MayRepeat(w, w.store.value, reloaded);
    }
  }

  lemma TabStepKeepsInv(w: World, step: Step, reloaded: bool)
    requires InvAfter(w, reloaded) && !step.Reload? && Next(w, step).server == w.server
    requires !step.ServerReads? && !step.ServerWrites?
    ensures InvAfter(Next(w, step), reloaded)
  {
    TabStepKeepsTab(w, step, reloaded);
    TabStepKeepsServer(w, step, reloaded);
  }

  /** What the server makes of a presentation: it will rotate the token, or the token is spent. */
  lemma ReadDecides(server: Sessions.Server, k: nat, t: nat)
    requires t < |server.tokens| && k !in server.reading && server.tokens[t].rotatedAt.None?
    ensures var server' := Sessions.Next(server, Sessions.RefreshRead(k, t));
            && server'.tokens == server.tokens && server'.clock == server.clock
            && (forall q :: q in server.reading ==> q in server'.reading && server'.reading[q] == server.reading[q])
            && (forall q :: q in server'.reading && q != k ==> q in server.reading)
            && (k in server'.reading ==> server'.reading[k] == Sessions.Rotate(t) && !Sessions.RevokedOrExpired(server, t))
            && (Sessions.BeingRotated(server', t) || Spent(server', t))
  {
  }

  lemma ReadKeepsTokens(server: Sessions.Server, k: nat, t: nat, other: nat)
    requires t < |server.tokens| && other < |server.tokens|
    requires k !in server.reading && server.tokens[t].rotatedAt.None?
    ensures var server' := Sessions.Next(server, Sessions.RefreshRead(k, t));
            && (Sessions.BeingRotated(server, other) ==> Sessions.BeingRotated(server', other))
            && (Spent(server, other) ==> Spent(server', other))
  {
    ReadDecides(server, k, t);
    var server' := Sessions.Next(server, Sessions.RefreshRead(k, t));
    if Sessions.BeingRotated(server, other) {
      var q :| q in server.reading && server.reading[q] == Sessions.Rotate(other);
      assert server'.reading[q] == Sessions.Rotate(other);
    }
  }

  lemma ReadKeepsInv(w: World, k: nat, reloaded: bool)
    requires InvAfter(w, reloaded)
    ensures InvAfter(Next(w, ServerReads(k)), reloaded)
  {
    if k in w.wire && k < |w.presented| {
      var w', t := Next(w, ServerReads(k)), w.presented[k];
      ReadDecides(w.server, k, t);
      forall other: nat | other < |w.server.tokens|
        ensures Sessions.BeingRotated(w.server, other) ==> Sessions.BeingRotated(w'.server, other)
        ensures Spent(w.server, other) ==> Spent(w'.server, other)
        ensures Rotated(w', other) <==> Rotated(w, other)
      {
        ReadKeepsTokens(w.server, k, t, other);
      }
    }
  }

  lemma StepKeepsInv(w: World, step: Step, reloaded: bool)
    requires InvAfter(w, reloaded) && !step.Reload?
    ensures InvAfter(Next(w, step), reloaded)
  {
    if step.ServerWrites? && step.k in w.server.reading && w.server.reading[step.k].Rotate? {
      RotationConsumes(w, step.k, reloaded);
    } else if step.ServerReads? {
      ReadKeepsInv(w, step.k, reloaded);
    } else if step.ServerSignsIn? || step.ServerLogsOut? || step.ServerTicks? || step.ServerWrites? {
      ServerStepKeepsInv(w, step, reloaded);
    } else {
      TabStepKeepsInv(w, step, reloaded);
    }
  }

  lemma {:induction false} PlayKeepsInv(w: World, steps: seq<Step>, reloaded: bool)
    requires InvAfter(w, reloaded) && NoReload(steps)
    ensures InvAfter(Play(w, steps), reloaded)
  {
    if steps != [] {
      PlayKeepsInv(w, steps[..|steps| - 1], reloaded);
      StepKeepsInv(Play(w, steps[..|steps| - 1]), steps[|steps| - 1], reloaded);
    }
  }

  /**
   * No self-triggered theft alarm: in one page lifetime of one tab, whatever
   * requests, sign-ins, sign-outs, delays and lost answers interleave, each
   * refresh token is presented at most once and the server's reuse branch is
   * never taken.
   */
  lemma NoSelfTriggeredAlarm(steps: seq<Step>)
    requires NoReload(steps)
    ensures Distinct(Play(START, steps).presented) && !Play(START, steps).alarm
  {
    PlayKeepsInv(START, steps, false);
  }

  // ---------------------------------------------------------------- reloading

  ghost predicate NeverRepeats(w: World) {
    forall steps :: NoReload(steps) ==> Distinct(Play(w, steps).presented)
  }

  ghost predicate NeverAlarms(w: World) {
    forall steps :: NoReload(steps) ==> !Play(w, steps).alarm
  }

  /** A refresh is in flight for the very token that is in the store. */
  predicate StoredInFlight(w: World) {
    w.flight.Waiting? && w.store == Some(w.flight.token)
  }

  lemma StoredIsPresentedAgain(w: World)
    requires TabOk(w, false) && StoredInFlight(w)
    ensures !NeverRepeats(Next(w, Reload))
  {
    var w' := Next(w, Reload);
    var i :| 0 <= i < |w.presented| && w.presented[i] == w.flight.token;
    assert [Unauthorized][..0] == [] && [Unauthorized][..1] == [Unauthorized];
    PlayPrefix(w', [Unauthorized], 0);
    var after := Play(w', [Unauthorized]);
    assert after.presented[i] == after.presented[|w.presented|];
    assert NoReload([Unauthorized]);
  }

  /**
   * A reload starts a new page lifetime over the same storage. It never presents
   * a token twice exactly when no refresh is in flight for the token still in the
   * store.
   */
  lemma ReloadSafeExactly(w: World)
    requires Inv(w)
    ensures NeverRepeats(Next(w, Reload)) <==> !StoredInFlight(w)
  {
    var w' := Next(w, Reload);
    if StoredInFlight(w) {
      StoredIsPresentedAgain(w);
    } else {
      forall steps | NoReload(steps) ensures Distinct(Play(w', steps).presented) {
        PlayKeepsInv(w', steps, false);
      }
    }
  }

  /** After a reload the stored token is presented again; once it is rotated, that sets off the alarm. */
  lemma RotatedThenAlarm(w: World, t: nat, before: seq<Step>)
    requires StoredInFlight(w) && w.flight.token == t && NoReload(before)
    requires var v := Play(Next(w, Reload), before);
             && v.store == Some(t) && v.flight.Grounded? && Rotated(v, t)
             && (forall k :: k in v.server.reading ==> k < |v.presented|)
    ensures !NeverAlarms(Next(w, Reload))
  {
    var w0 := Next(w, Reload);
    var v := Play(w0, before);
    var n := |v.presented|;
    var steps := before + [Unauthorized, ServerReads(n)];
    assert steps[..|before|] == before && steps[..|before| + 2] == steps;
    PlayPrefix(w0, steps, |before|);
    PlayPrefix(w0, steps, |before| + 1);
    assert steps[|before|] == Unauthorized && steps[|before| + 1] == ServerReads(n);
    assert Play(w0, steps).alarm;
  }

  lemma BeingRotatedThenAlarm(w: World, k: nat)
    requires Inv(w) && StoredInFlight(w) && !Rotated(w, w.flight.token)
    requires k in w.server.reading && w.server.reading[k] == Sessions.Rotate(w.flight.token)
    ensures !NeverAlarms(Next(w, Reload))
  {
    var w0, before := Next(w, Reload), [ServerWrites(k)];
    assert before[..0] == [] && before[..1] == before;
    PlayPrefix(w0, before, 0);
    RotationEffect(w0, k);
    RotatedThenAlarm(w, w.flight.token, before);
  }

  lemma OnWireThenAlarm(w: World, k: nat)
    requires Inv(w) && StoredInFlight(w) && !Rotated(w, w.flight.token)
    requires k in w.wire && w.presented[k] == w.flight.token && !Sessions.RevokedOrExpired(w.server, w.flight.token)
    ensures !NeverAlarms(Next(w, Reload))
  {
    var t, w0, before := w.flight.token, Next(w, Reload), [ServerReads(k), ServerWrites(k)];
    assert before[..0] == [] && before[..2] == before;
    PlayPrefix(w0, before, 0);
    PlayPrefix(w0, before, 1);
    var read := Play(w0, before[..1]);
    assert read.server.reading == w.server.reading[k := Sessions.Rotate(t)];
    RotationEffect(read, k);
    RotatedThenAlarm(w, t, before);
  }

  /**
   * Whether a reload can end in the alarm: never exactly when no refresh is in
   * flight for the stored token, or that token is spent.
   */
  lemma ReloadAlarmExactly(w: World)
    requires Inv(w)
    ensures NeverAlarms(Next(w, Reload)) <==> !StoredInFlight(w) || Spent(w.server, w.flight.token)
  {
    var w' := Next(w, Reload);
    if !StoredInFlight(w) {
      forall steps | NoReload(steps) ensures !Play(w', steps).alarm {
        PlayKeepsInv(w', steps, false);
      }
    } else if Spent(w.server, w.flight.token) {
      assert InvAfter(w', true);
      forall steps | NoReload(steps) ensures !Play(w', steps).alarm {
        PlayKeepsInv(w', steps, true);
      }
    } else {
      UnspentAlarms(w);
    }
  }

  lemma UnspentAlarms(w: World)
    requires Inv(w) && StoredInFlight(w) && !Spent(w.server, w.flight.token)
    ensures !NeverAlarms(Next(w, Reload))
  {
    var t := w.flight.token;
    if Rotated(w, t) {
      RotatedThenAlarm(w, t, []);
    } else if Sessions.BeingRotated(w.server, t) {
      var k :| k in w.server.reading && w.server.reading[k] == Sessions.Rotate(t);
      BeingRotatedThenAlarm(w, k);
    } else {
      var k :| 0 <= k < |w.presented| && w.presented[k] == t;
      OnWireThenAlarm(w, k);
    }
  }

  /** Sign in, a refresh that reaches the server, and then whatever the tab does. */
  const SIGNED_IN: seq<Step> := [ServerSignsIn(7), SignedIn(0), Unauthorized]

  lemma SignedInState(steps: seq<Step>)
    requires SIGNED_IN <= steps
    ensures Play(START, steps[..3]) ==
            World(Sessions.Server([Sessions.Token(7, None, None, Sessions.REFRESH_TOKEN_TTL_MS, None, 0)], map[], 0),
                  Some(0), Waiting(0), [0], {0}, {}, false)
  {
    assert steps[..0] == [] && steps[0] == SIGNED_IN[0] && steps[1] == SIGNED_IN[1] && steps[2] == SIGNED_IN[2];
    PlayPrefix(START, steps, 0);
    assert Play(START, steps[..1]).mail == {0};
    PlayPrefix(START, steps, 1);
    assert Play(START, steps[..2]).mail == {};
    PlayPrefix(START, steps, 2);
  }

  /** One tab alone: a reload before the answer of the first refresh arrives can end in the theft alarm. */
  lemma ReloadAlarmExample()
    ensures exists steps :: NoReload(steps) && Play(Next(Play(START, SIGNED_IN), Reload), steps).alarm
  {
    SignedInState(SIGNED_IN);
    assert SIGNED_IN[..3] == SIGNED_IN;
    PlayKeepsInv(START, SIGNED_IN, false);
    ReloadAlarmExactly(Play(START, SIGNED_IN));
  }

  /** And one in which it cannot, though the token is presented a second time: the user signed out elsewhere. */
  const SIGNED_OUT_ELSEWHERE: seq<Step> := SIGNED_IN + [ServerLogsOut(7, None)]

  lemma SignedOutState(w: World)
    requires w == World(Sessions.Server([UNREFRESHED], map[], 0), Some(0), Waiting(0), [0], {0}, {}, false)
    ensures var w' := Next(w, ServerLogsOut(7, None));
            w' == w.(server := w'.server) && Spent(w'.server, 0)
  {
  }

  lemma ReloadCalmExample()
    ensures var w := Play(START, SIGNED_OUT_ELSEWHERE);
            StoredInFlight(w) && !NeverRepeats(Next(w, Reload)) && NeverAlarms(Next(w, Reload))
  {
    var steps := SIGNED_OUT_ELSEWHERE;
    SignedInState(steps);
    assert steps[..4] == steps;
    PlayPrefix(START, steps, 3);
    SignedOutState(Play(START, steps[..3]));
    PlayKeepsInv(START, steps, false);
    ReloadSafeExactly(Play(START, steps));
    ReloadAlarmExactly(Play(START, steps));
  }

  /** A logout whose request was answered 401 is sent again after a refresh, with the token read before it. */
  const LOGOUT_RETRIED: seq<Step> :=
    SIGNED_IN + [ServerReads(0), ServerWrites(0), RefreshAnswered(1), Settled, ServerLogsOut(7, Some(0)), SignedOut]

  const FIRST_TOKEN := Sessions.Token(7, Some(0), Some(0), Sessions.REFRESH_TOKEN_TTL_MS, None, 0)
  const SECOND_TOKEN := Sessions.Token(7, None, None, Sessions.REFRESH_TOKEN_TTL_MS, Some(0), 0)
  const REFRESHED := Sessions.Server([FIRST_TOKEN, SECOND_TOKEN], map[], 0)

  const UNREFRESHED := Sessions.Token(7, None, None, Sessions.REFRESH_TOKEN_TTL_MS, None, 0)

  lemma RotationOfFirst(w: World)
    requires w.server == Sessions.Server([UNREFRESHED], map[0 := Sessions.Rotate(0)], 0)
    requires w == World(w.server, Some(0), Waiting(0), [0], {}, {}, false)
    ensures Next(w, ServerWrites(0)) == World(REFRESHED, Some(0), Waiting(0), [0], {}, {1}, false)
  {
    assert w.server.reading - {0} == map[];
    assert Sessions.Next(w.server, Sessions.RefreshWrite(0)).tokens == [FIRST_TOKEN, SECOND_TOKEN];
  }

  lemma ServerRefreshes()
    ensures Play(START, LOGOUT_RETRIED[..5]) == World(REFRESHED, Some(0), Waiting(0), [0], {}, {1}, false)
  {
    SignedInState(LOGOUT_RETRIED);
    PlayPrefix(START, LOGOUT_RETRIED, 3);
    var w := Play(START, LOGOUT_RETRIED[..4]);
    assert w.server.reading == map[0 := Sessions.Rotate(0)] && w.wire == {};
    RotationOfFirst(w);
    PlayPrefix(START, LOGOUT_RETRIED, 4);
  }

  lemma TabRefreshes()
    ensures Play(START, LOGOUT_RETRIED[..7]) == World(REFRESHED, Some(1), Grounded, [0], {}, {}, false)
  {
    ServerRefreshes();
    PlayPrefix(START, LOGOUT_RETRIED, 5);
    PlayPrefix(START, LOGOUT_RETRIED, 6);
  }

  /** The tab forgets its tokens, yet the session stays open: the token it had last can still be exchanged. */
  lemma LogoutLeavesSessionOpen()
    ensures var w := Play(START, LOGOUT_RETRIED);
            w.store.None? && Sessions.Check(w.server, 1) == Some(Sessions.Rotate(1))
  {
    TabRefreshes();
    assert LOGOUT_RETRIED[..9] == LOGOUT_RETRIED;
    PlayPrefix(START, LOGOUT_RETRIED, 7);
    Sessions.RevokedLogoutEndsNothing(REFRESHED, 7, 0);
    PlayPrefix(START, LOGOUT_RETRIED, 8);
  }

  // ---------------------------------------------------------------- the client

  /** The module state of the API client and the token store, and its asynchronous segments. */
  class ApiClient {
    var refreshToken: Option<nat>
    var refreshInFlight: Flight
    ghost var presented: seq<nat>

    /** A world in which the tab is this client; the methods take any such world along. */
    ghost function In(w: World): World
      reads this
    {
      w.(store := refreshToken, flight := refreshInFlight, presented := presented)
    }

    constructor ()
      ensures refreshToken.None? && refreshInFlight.Grounded? && presented == []
    {
      refreshToken := None;
      refreshInFlight := Grounded;
      presented := [];
    }

    ghost predicate Valid()
      reads this
    {
      && Distinct(presented)
      && (refreshToken.Some? && refreshToken.value in presented ==> refreshInFlight == Waiting(refreshToken.value))
      && (refreshInFlight.Waiting? ==> refreshInFlight.token in presented)
    }

    /** A 401 with a refresh token in store: start a refresh, or join the one in flight. */
    method RefreshTokens(ghost w: World) returns (sent: Option<nat>)
      requires Valid()
      modifies this
      ensures Valid() && refreshToken == old(refreshToken)
      ensures sent == if old(refreshInFlight).Grounded? then refreshToken else None
      ensures sent.Some? ==> sent.value !in old(presented) && refreshInFlight == Waiting(sent.value)
                             && presented == old(presented) + [sent.value]
      ensures sent.None? ==> refreshInFlight == old(refreshInFlight) && presented == old(presented)
      ensures Next(old(In(w)), Unauthorized) ==
                          In(w).(wire := if sent.Some? then w.wire + {|old(presented)|} else w.wire)
    {
      sent := None;
      if refreshInFlight.Grounded? {
        sent := refreshToken;
        if sent.Some? {
          refreshInFlight := Waiting(sent.value);
          presented := presented + [sent.value];
        }
      }
    }

    /** The answer to the refresh: a new pair is stored, anything else clears the store. */
    method OnRefreshAnswer(token: Option<nat>, ghost w: World)
      requires Valid() && refreshInFlight.Waiting?
      requires token.Some? ==> token.value !in presented
      modifies this
      ensures Valid() && refreshToken == token && refreshInFlight.Landed? && presented == old(presented)
      ensures token.None? ==> Next(old(In(w)), RefreshFailed) == In(w)
      ensures token.Some? && token.value in w.mail ==>
                Next(old(In(w)), RefreshAnswered(token.value)) == In(w).(mail := w.mail - {token.value})
    {
      refreshToken := token;
      refreshInFlight := Landed;
    }

    /** The `finally` handler. */
    method OnSettled(ghost w: World)
      requires Valid() && refreshInFlight.Landed?
      modifies this
      ensures Valid() && refreshInFlight.Grounded? && refreshToken == old(refreshToken) && presented == old(presented)
      ensures Next(old(In(w)), Settled) == In(w)
    {
      refreshInFlight := Grounded;
    }

    /** `tokenStore.set` after a login or signup, `tokenStore.clear` on a logout. */
    method SetTokens(token: Option<nat>, ghost w: World)
      requires Valid() && (token.Some? ==> token.value !in presented)
      modifies this
      ensures Valid() && refreshToken == token && refreshInFlight == old(refreshInFlight) && presented == old(presented)
      ensures token.None? ==> Next(old(In(w)), SignedOut) == In(w)
      ensures token.Some? && token.value in w.mail ==>
                Next(old(In(w)), SignedIn(token.value)) == In(w).(mail := w.mail - {token.value})
    {
      refreshToken := token;
    }
  }
}
