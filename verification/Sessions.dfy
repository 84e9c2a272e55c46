/** Refresh-token rotation on the server: the REFRESH_TOKEN table of src/services/userService.js. */
module Sessions {
  import opened Wrappers

  const REFRESH_TOKEN_TTL_MS := 30 * 24 * 60 * 60 * 1000

  /**
   * One row; the token itself is its position, so a new token is always fresh.
   * `parent` and `session` are history: the token it replaced, and the login or
   * signup it descends from.
   */
  datatype Token = Token(
    userId: nat,
    rotatedAt: Option<nat>,
    revokedAt: Option<nat>,
    expiresAt: nat,
    parent: Option<nat>,
    session: nat)

  /** What a refresh that has read the row will do next. */
  datatype Reading = Rotate(token: nat) | Alarm(userId: nat)

  /** `reading` holds the refreshes that are between their read and their write. */
  datatype Server = Server(tokens: seq<Token>, reading: map<nat, Reading>, clock: nat)

  datatype Step =
    | Login(userId: nat)
    | RefreshRead(req: nat, token: nat)
    | RefreshWrite(req: nat)
    | Abandon(req: nat)
    | LogoutOne(userId: nat, token: nat)
    | RevokeAll(userId: nat)
    | Tick(ms: nat)

  function IssueSession(tokens: seq<Token>, userId: nat, now: nat, parent: Option<nat>, session: nat): seq<Token> {
    tokens + [Token(userId, None, None, now + REFRESH_TOKEN_TTL_MS, parent, session)]
  }

  function RevokeUser(tokens: seq<Token>, userId: nat, now: nat): seq<Token> {
    seq(|tokens|, i requires 0 <= i < |tokens| =>
      if tokens[i].userId == userId && tokens[i].revokedAt.None? then tokens[i].(revokedAt := Some(now)) else tokens[i])
  }

  function RotateToken(tokens: seq<Token>, t: nat, now: nat): seq<Token>
    requires t < |tokens|
  {
    var rotated := tokens[t := tokens[t].(rotatedAt := Some(now), revokedAt := Some(now))];
    IssueSession(rotated, tokens[t].userId, now, Some(t), tokens[t].session)
  }

  /** The read and the checks before the transaction; `None` when the refresh is rejected. */
  function Check(s: Server, token: nat): Option<Reading> {
    if token >= |s.tokens| then None
    else if s.tokens[token].rotatedAt.Some? then Some(Alarm(s.tokens[token].userId))
    else if s.tokens[token].revokedAt.Some? then None
    else if s.tokens[token].expiresAt <= s.clock then None
    else Some(Rotate(token))
  }

  /** The write: the conditional rotation, or the revocation of every session. */
  function Write(s: Server, reading: Reading): seq<Token> {
    match reading
    case Rotate(t) =>
      if t < |s.tokens| && s.tokens[t].rotatedAt.None? then RotateToken(s.tokens, t, s.clock) else s.tokens
    case Alarm(u) => RevokeUser(s.tokens, u, s.clock)
  }

  function Next(s: Server, step: Step): Server {
    match step
    case Login(u) => s.(tokens := IssueSession(s.tokens, u, s.clock, None, |s.tokens|))
    case RefreshRead(req, t) =>
      if req !in s.reading && Check(s, t).Some? then s.(reading := s.reading[req := Check(s, t).value]) else s
    case RefreshWrite(req) =>
      if req in s.reading then s.(tokens := Write(s, s.reading[req]), reading := s.reading - {req}) else s
    case Abandon(req) => s.(reading := s.reading - {req})
    case LogoutOne(u, t) =>
      if t < |s.tokens| && s.tokens[t].userId == u && s.tokens[t].revokedAt.None?
      then s.(tokens := s.tokens[t := s.tokens[t].(revokedAt := Some(s.clock))]) else s
    case RevokeAll(u) => s.(tokens := RevokeUser(s.tokens, u, s.clock))
    case Tick(ms) => s.(clock := s.clock + ms)
  }

  function Play(s: Server, steps: seq<Step>): Server {
    if steps == [] then s else Next(Play(s, steps[..|steps| - 1]), steps[|steps| - 1])
  }

  /** The state after one more step of a given run. */
  lemma PlayPrefix(s: Server, steps: seq<Step>, k: nat)
    requires k < |steps|
    ensures Play(s, steps[..k + 1]) == Next(Play(s, steps[..k]), steps[k])
  {
    assert steps[..k + 1][..k] == steps[..k];
  }

  const EMPTY := Server([], map[], 0)

  // ---------------------------------------------------------------- chains

  /** A token either began a session or replaced an earlier token of the same session and user. */
  predicate Linked(ts: seq<Token>) {
    forall i :: 0 <= i < |ts| ==>
      match ts[i].parent
      case None => ts[i].session == i
      case Some(p) =>
        p < i && ts[p].rotatedAt.Some? && ts[i].session == ts[p].session && ts[i].userId == ts[p].userId
  }

  predicate OneSuccessor(ts: seq<Token>) {
    forall i, j :: 0 <= i < j < |ts| && ts[i].parent.Some? ==> ts[i].parent != ts[j].parent
  }

  predicate RotatedIsRevoked(ts: seq<Token>) {
    forall i :: 0 <= i < |ts| && ts[i].rotatedAt.Some? ==> ts[i].revokedAt.Some?
  }

  /** `j` is the un-rotated end of `i`'s session. */
  predicate IsTip(ts: seq<Token>, i: nat, j: nat) {
    i < |ts| && j < |ts| && ts[j].session == ts[i].session && ts[j].rotatedAt.None?
  }

  ghost predicate HasTip(ts: seq<Token>, i: nat) {
    exists j: nat :: IsTip(ts, i, j)
  }

  ghost predicate OneTip(ts: seq<Token>) {
    && (forall i: nat :: i < |ts| ==> HasTip(ts, i))
    && (forall i: nat, j: nat, k: nat :: IsTip(ts, i, j) && IsTip(ts, i, k) ==> j == k)
  }

  /** A token was rotated exactly if a token replaced it. */
  ghost predicate RotatedHasSuccessor(ts: seq<Token>) {
    forall p: nat :: p < |ts| && ts[p].rotatedAt.Some? ==> HasSuccessor(ts, p)
  }

  ghost predicate HasSuccessor(ts: seq<Token>, p: nat) {
    exists i: nat :: i < |ts| && ts[i].parent == Some(p)
  }

  /** Appending to the table, or revoking in it, takes no successor away. */
  lemma SuccessorStays(ts: seq<Token>, ts': seq<Token>, p: nat)
    requires |ts| <= |ts'| && forall i :: 0 <= i < |ts| ==> ts'[i].parent == ts[i].parent
    requires HasSuccessor(ts, p)
    ensures HasSuccessor(ts', p)
  {
    var i: nat :| i < |ts| && ts[i].parent == Some(p);
    assert ts'[i].parent == Some(p);
  }

  ghost predicate Chains(ts: seq<Token>) {
    Linked(ts) && OneSuccessor(ts) && RotatedIsRevoked(ts) && RotatedHasSuccessor(ts) && OneTip(ts)
  }

  lemma SessionBelow(ts: seq<Token>, i: nat)
    requires Linked(ts) && i < |ts|
    ensures ts[i].session <= i
  {
    if ts[i].parent.Some? {
      SessionBelow(ts, ts[i].parent.value);
    }
  }

  /** The same row, possibly revoked since. */
  predicate RevokedAtMost(a: Token, b: Token) {
    b == a.(revokedAt := b.revokedAt) && (a.revokedAt.Some? ==> b.revokedAt.Some?)
  }

  lemma RevokingKeepsTips(ts: seq<Token>, ts': seq<Token>)
    requires OneTip(ts) && |ts'| == |ts| && forall i :: 0 <= i < |ts| ==> RevokedAtMost(ts[i], ts'[i])
    ensures OneTip(ts')
  {
    forall i: nat | i < |ts'| ensures HasTip(ts', i) {
      assert HasTip(ts, i);
      var j: nat :| IsTip(ts, i, j);
      assert IsTip(ts', i, j);
    }
    forall i: nat, j: nat, k: nat | IsTip(ts', i, j) && IsTip(ts', i, k) ensures j == k {
      assert IsTip(ts, i, j) && IsTip(ts, i, k);
    }
  }

  /** Updates that only revoke change no chain. */
  lemma RevokingKeepsChains(ts: seq<Token>, ts': seq<Token>)
    requires Chains(ts) && |ts'| == |ts| && forall i :: 0 <= i < |ts| ==> RevokedAtMost(ts[i], ts'[i])
    ensures Chains(ts')
  {
    RevokingKeepsTips(ts, ts');
    forall p: nat | p < |ts'| && ts'[p].rotatedAt.Some? ensures HasSuccessor(ts', p) {
      SuccessorStays(ts, ts', p);
    }
  }

  lemma LoginKeepsChains(ts: seq<Token>, userId: nat, now: nat)
    requires Chains(ts)
    ensures Chains(IssueSession(ts, userId, now, None, |ts|))
  {
    var ts' := IssueSession(ts, userId, now, None, |ts|);
    forall i: nat | i < |ts| ensures ts'[i].session < |ts| {
      SessionBelow(ts, i);
    }
    forall i: nat | i < |ts'| ensures HasTip(ts', i) {
      if i < |ts| {
        assert HasTip(ts, i);
        var j: nat :| IsTip(ts, i, j);
        assert IsTip(ts', i, j);
      } else {
        assert IsTip(ts', i, i);
      }
    }
    forall i: nat, j: nat, k: nat | IsTip(ts', i, j) && IsTip(ts', i, k) ensures j == k {
      assert i < |ts| ==> IsTip(ts, i, j) && IsTip(ts, i, k);
    }
    forall p: nat | p < |ts'| && ts'[p].rotatedAt.Some? ensures HasSuccessor(ts', p) {
      SuccessorStays(ts, ts', p);
    }
  }

  lemma RotationHasTips(ts: seq<Token>, t: nat, now: nat)
    requires OneTip(ts) && t < |ts| && ts[t].rotatedAt.None?
    ensures var ts' := RotateToken(ts, t, now); forall i: nat :: i < |ts'| ==> HasTip(ts', i)
  {
    var ts', n := RotateToken(ts, t, now), |ts|;
    forall i: nat | i < |ts'| ensures HasTip(ts', i) {
      if ts'[i].session == ts[t].session {
        assert IsTip(ts', i, n);
      } else {
        assert HasTip(ts, i);
        var j: nat :| IsTip(ts, i, j);
        assert IsTip(ts', i, j);
      }
    }
  }

  /** The tips of a session after a rotation: the new token in that session, the old tip elsewhere. */
  lemma TipAfterRotation(ts: seq<Token>, t: nat, now: nat, i: nat, j: nat)
    requires OneTip(ts) && t < |ts| && ts[t].rotatedAt.None?
    requires IsTip(RotateToken(ts, t, now), i, j)
    ensures var o := if i < |ts| then i else t;
            if ts[o].session == ts[t].session then j == |ts| else j < |ts| && IsTip(ts, o, j)
  {
    var o := if i < |ts| then i else t;
    assert ts[o].session == ts[t].session ==> IsTip(ts, o, t);
    assert j < |ts| ==> IsTip(ts, o, j);
  }

  lemma RotationKeepsTips(ts: seq<Token>, t: nat, now: nat)
    requires OneTip(ts) && t < |ts| && ts[t].rotatedAt.None?
    ensures OneTip(RotateToken(ts, t, now))
  {
    RotationHasTips(ts, t, now);
    var ts' := RotateToken(ts, t, now);
    forall i: nat, j: nat, k: nat | IsTip(ts', i, j) && IsTip(ts', i, k) ensures j == k {
      TipAfterRotation(ts, t, now, i, j);
      TipAfterRotation(ts, t, now, i, k);
    }
  }

  lemma UnrotatedHasNoSuccessor(ts: seq<Token>, t: nat)
    requires Linked(ts) && t < |ts| && ts[t].rotatedAt.None?
    ensures forall i :: 0 <= i < |ts| ==> ts[i].parent != Some(t)
  {
  }

  lemma RotationKeepsSuccessors(ts: seq<Token>, t: nat, now: nat)
    requires OneSuccessor(ts) && RotatedHasSuccessor(ts) && t < |ts|
    requires forall i :: 0 <= i < |ts| ==> ts[i].parent != Some(t)
    ensures OneSuccessor(RotateToken(ts, t, now)) && RotatedHasSuccessor(RotateToken(ts, t, now))
  {
    var ts' := RotateToken(ts, t, now);
    assert forall i :: 0 <= i < |ts| ==> ts'[i].parent == ts[i].parent;
    assert ts'[|ts|].parent == Some(t);
    forall p: nat | p < |ts'| && ts'[p].rotatedAt.Some? ensures HasSuccessor(ts', p) {
      if p != t {
        SuccessorStays(ts, ts', p);
      }
    }
  }

  lemma RotationKeepsLinks(ts: seq<Token>, t: nat, now: nat)
    requires Linked(ts) && t < |ts|
    ensures Linked(RotateToken(ts, t, now))
  {
    var ts' := RotateToken(ts, t, now);
    assert forall i :: 0 <= i < |ts| ==>
      ts'[i].parent == ts[i].parent && ts'[i].session == ts[i].session && ts'[i].userId == ts[i].userId
      && (ts[i].rotatedAt.Some? ==> ts'[i].rotatedAt.Some?);
  }

  lemma RotationRevokes(ts: seq<Token>, t: nat, now: nat)
    requires RotatedIsRevoked(ts) && t < |ts|
    ensures RotatedIsRevoked(RotateToken(ts, t, now))
  {
  }

  lemma RotationKeepsChains(ts: seq<Token>, t: nat, now: nat)
    requires Chains(ts) && t < |ts| && ts[t].rotatedAt.None?
    ensures Chains(RotateToken(ts, t, now))
  {
    RotationKeepsTips(ts, t, now);
    UnrotatedHasNoSuccessor(ts, t);
    RotationKeepsSuccessors(ts, t, now);
    RotationKeepsLinks(ts, t, now);
    RotationRevokes(ts, t, now);
  }

  lemma StepKeepsChains(s: Server, step: Step)
    requires Chains(s.tokens)
    ensures Chains(Next(s, step).tokens)
  {
    match step
    case Login(u) => LoginKeepsChains(s.tokens, u, s.clock);
    case RefreshWrite(req) =>
      if req in s.reading && s.reading[req].Rotate? {
        var t := s.reading[req].token;
        if t < |s.tokens| && s.tokens[t].rotatedAt.None? {
          RotationKeepsChains(s.tokens, t, s.clock);
        }
      } else {
        RevokingKeepsChains(s.tokens, Next(s, step).tokens);
      }
    case _ => RevokingKeepsChains(s.tokens, Next(s, step).tokens);
  }

  /** A refresh between read and write holds a token of the table. */
  predicate ReadingInTable(s: Server) {
    forall q :: q in s.reading && s.reading[q].Rotate? ==> s.reading[q].token < |s.tokens|
  }

  /**
   * Rotation makes chains: under any interleaving of logins, refreshes cut
   * between read and write, logouts and revocations, each token has at most one
   * successor, exactly the rotated ones have one, and each session has exactly
   * one un-rotated tip.
   */
  lemma {:induction false} RotationMakesChains(steps: seq<Step>)
    ensures Chains(Play(EMPTY, steps).tokens) && ReadingInTable(Play(EMPTY, steps))
  {
    if steps != [] {
      RotationMakesChains(steps[..|steps| - 1]);
      StepKeepsChains(Play(EMPTY, steps[..|steps| - 1]), steps[|steps| - 1]);
    }
  }

  predicate Descends(ts: seq<Token>, j: nat, i: nat)
    requires Linked(ts) && j < |ts|
  {
    j == i || (ts[j].parent.Some? && Descends(ts, ts[j].parent.value, i))
  }

  lemma ViaSuccessor(ts: seq<Token>, j: nat, i: nat)
    requires Linked(ts) && j < |ts| && Descends(ts, j, i) && j != i
    ensures exists c :: i < c <= j && ts[c].parent == Some(i)
  {
    if ts[j].parent != Some(i) {
      ViaSuccessor(ts, ts[j].parent.value, i);
    }
  }

  /** The tokens of one session form a line: of any two, the later descends from the earlier. */
  lemma {:induction false} SessionIsLinear(ts: seq<Token>, i: nat, j: nat)
    requires Linked(ts) && OneSuccessor(ts)
    requires i <= j < |ts| && ts[i].session == ts[j].session
    ensures Descends(ts, j, i)
    decreases j, i
  {
    if i != j {
      SessionBelow(ts, i);
      var p := ts[j].parent.value;
      if p >= i {
        SessionIsLinear(ts, i, p);
      } else {
        SessionIsLinear(ts, p, i);
        ViaSuccessor(ts, i, p);
      }
    }
  }

  // ---------------------------------------------------------------- revocation

  /** A refresh of `u` has passed its checks and its token is not rotated yet. */
  ghost predicate RefreshOutstanding(s: Server, u: nat) {
    exists req :: req in s.reading && Outstanding(s, u, s.reading[req])
  }

  predicate Outstanding(s: Server, u: nat, r: Reading) {
    r.Rotate? && r.token < |s.tokens| && s.tokens[r.token].userId == u && s.tokens[r.token].rotatedAt.None?
  }

  /** From here on, every token issued to `u` belongs to a login made from here on. */
  ghost predicate Final(s: Server, u: nat) {
    forall steps :: OnlyNewSessions(Play(s, steps), u, |s.tokens|)
  }

  predicate OnlyNewSessions(s: Server, u: nat, n: nat) {
    forall j :: n <= j < |s.tokens| && s.tokens[j].userId == u ==> s.tokens[j].session >= n
  }

  /** Nothing of `u` from before position `n` can be refreshed any more. */
  predicate Barrier(s: Server, u: nat, n: nat) {
    && n <= |s.tokens|
    && OnlyNewSessions(s, u, n)
    && (forall i :: 0 <= i < |s.tokens| && s.tokens[i].userId == u && s.tokens[i].session < n ==>
          s.tokens[i].revokedAt.Some?)
    && (forall req :: req in s.reading && Outstanding(s, u, s.reading[req]) ==>
          s.tokens[s.reading[req].token].session >= n)
  }

  lemma RotationKeepsBarrier(s: Server, t: nat, u: nat, n: nat)
    requires Barrier(s, u, n) && t < |s.tokens| && s.tokens[t].rotatedAt.None?
    requires s.tokens[t].userId == u ==> s.tokens[t].session >= n
    ensures Barrier(s.(tokens := RotateToken(s.tokens, t, s.clock), reading := map[]), u, n)
  {
  }

  /** A reading counts after a step only if it counted before, or was made by this very step. */
  lemma OutstandingBefore(s: Server, step: Step, u: nat, req: nat)
    requires req in Next(s, step).reading && Outstanding(Next(s, step), u, Next(s, step).reading[req])
    requires forall q :: q in s.reading && s.reading[q].Rotate? ==> s.reading[q].token < |s.tokens|
    ensures var t := Next(s, step).reading[req].token;
            && t < |s.tokens| && Next(s, step).tokens[t].session == s.tokens[t].session
            && ((req in s.reading && Outstanding(s, u, s.reading[req])) ||
                (s.tokens[t].userId == u && s.tokens[t].revokedAt.None?))
  {
  }

  lemma StepKeepsBarrier(s: Server, step: Step, u: nat, n: nat)
    requires Barrier(s, u, n) && ReadingInTable(s)
    ensures Barrier(Next(s, step), u, n)
  {
    var s' := Next(s, step);
    forall req | req in s'.reading && Outstanding(s', u, s'.reading[req])
      ensures s'.tokens[s'.reading[req].token].session >= n
    {
      OutstandingBefore(s, step, u, req);
    }
    if step.RefreshWrite? && step.req in s.reading && s.reading[step.req].Rotate? {
      var t := s.reading[step.req].token;
      if s.tokens[t].rotatedAt.None? {
        RotationKeepsBarrier(s, t, u, n);
      }
    }
  }

  lemma {:induction false} PlayKeepsBarrier(s: Server, steps: seq<Step>, u: nat, n: nat)
    requires ReadingInTable(s) && Barrier(s, u, n)
    ensures ReadingInTable(Play(s, steps)) && Barrier(Play(s, steps), u, n)
  {
    if steps != [] {
      PlayKeepsBarrier(s, steps[..|steps| - 1], u, n);
      StepKeepsBarrier(Play(s, steps[..|steps| - 1]), steps[|steps| - 1], u, n);
    }
  }

  /**
   * Revoking every session of a user is final exactly when no refresh of that
   * user is between its read and its write: the write checks only that the token
   * is not rotated, so such a refresh still succeeds after the revocation.
   */
  lemma RevocationFinalExactly(s: Server, u: nat)
    requires Chains(s.tokens) && ReadingInTable(s)
    ensures Final(Next(s, RevokeAll(u)), u) <==> !RefreshOutstanding(s, u)
  {
    if RefreshOutstanding(s, u) {
      var req :| req in s.reading && Outstanding(s, u, s.reading[req]);
      OutstandingSurvives(s, u, req);
    } else {
      NothingOutstandingIsBarrier(s, u);
      var s' := Next(s, RevokeAll(u));
      forall steps ensures OnlyNewSessions(Play(s', steps), u, |s'.tokens|) {
        PlayKeepsBarrier(s', steps, u, |s'.tokens|);
      }
    }
  }

  lemma OutstandingSurvives(s: Server, u: nat, req: nat)
    requires Chains(s.tokens) && req in s.reading && Outstanding(s, u, s.reading[req])
    ensures !Final(Next(s, RevokeAll(u)), u)
  {
    var s', n, t := Next(s, RevokeAll(u)), |s.tokens|, s.reading[req].token;
    SessionBelow(s.tokens, t);
    var steps := [RefreshWrite(req)];
    assert steps[..0] == [];
    assert Play(s', steps) == Next(Play(s', steps[..0]), RefreshWrite(req));
    assert Play(s', steps).tokens[n].userId == u && Play(s', steps).tokens[n].session < n;
    assert !OnlyNewSessions(Play(s', steps), u, |s'.tokens|);
  }

  lemma NothingOutstandingIsBarrier(s: Server, u: nat)
    requires !RefreshOutstanding(s, u) && ReadingInTable(s)
    ensures Barrier(Next(s, RevokeAll(u)), u, |s.tokens|) && ReadingInTable(Next(s, RevokeAll(u)))
  {
    var s' := Next(s, RevokeAll(u));
    assert forall r :: Outstanding(s', u, r) ==> Outstanding(s, u, r);
  }

  /** With requests run one at a time nothing is outstanding, so each revocation is final. */
  lemma RevocationFinalSequentially(s: Server, u: nat)
    requires Chains(s.tokens) && s.reading == map[]
    ensures Final(Next(s, RevokeAll(u)), u)
  {
    assert !RefreshOutstanding(s, u);
    RevocationFinalExactly(s, u);
  }

  /** The same holds for the revocation that a reused token sets off. */
  lemma AlarmFinalExactly(s: Server, u: nat, req: nat)
    requires Chains(s.tokens) && ReadingInTable(s)
    requires req in s.reading && s.reading[req] == Alarm(u)
    ensures Final(Next(s, RefreshWrite(req)), u) <==> !RefreshOutstanding(s, u)
  {
    var rest := s.(reading := s.reading - {req});
    assert Next(s, RefreshWrite(req)) == Next(rest, RevokeAll(u));
    assert forall q :: q in rest.reading ==> rest.reading[q] == s.reading[q];
    assert forall q, r :: q in s.reading && r == s.reading[q] ==> (Outstanding(rest, u, r) <==> Outstanding(s, u, r));
    if q :| q in s.reading && Outstanding(s, u, s.reading[q]) {
      assert q in rest.reading && Outstanding(rest, u, rest.reading[q]);
    }
    RevocationFinalExactly(rest, u);
  }

  /** A user's sessions were all revoked, and then a refresh that had been read before still went through. */
  const REVOKED_TOO_EARLY: seq<Step> := [Login(7), RefreshRead(0, 0), RevokeAll(7), RefreshWrite(0)]

  lemma RevocationEscapedExample()
    ensures var s := Play(EMPTY, REVOKED_TOO_EARLY);
            |s.tokens| == 2 && s.tokens[0].revokedAt.Some? && s.tokens[1].session == 0 && Check(s, 1) == Some(Rotate(1))
  {
    assert REVOKED_TOO_EARLY[..0] == [] && REVOKED_TOO_EARLY[..4] == REVOKED_TOO_EARLY;
    PlayPrefix(EMPTY, REVOKED_TOO_EARLY, 0);
    PlayPrefix(EMPTY, REVOKED_TOO_EARLY, 1);
    assert Play(EMPTY, REVOKED_TOO_EARLY[..2]).reading == map[0 := Rotate(0)];
    PlayPrefix(EMPTY, REVOKED_TOO_EARLY, 2);
    PlayPrefix(EMPTY, REVOKED_TOO_EARLY, 3);
  }

  /** Token 0 is presented a second time while a refresh of its successor is past its checks. */
  const ALARM_TOO_EARLY: seq<Step> :=
    [Login(7), RefreshRead(0, 0), RefreshWrite(0), RefreshRead(1, 0), RefreshRead(2, 1), RefreshWrite(1), RefreshWrite(2)]

  lemma AlarmSet()
    ensures var s := Play(EMPTY, ALARM_TOO_EARLY[..5]);
            && |s.tokens| == 2 && s.clock == 0 && s.tokens[1] == Token(7, None, None, REFRESH_TOKEN_TTL_MS, Some(0), 0)
            && s.reading == map[1 := Alarm(7), 2 := Rotate(1)]
  {
    assert ALARM_TOO_EARLY[..0] == [];
    PlayPrefix(EMPTY, ALARM_TOO_EARLY, 0);
    PlayPrefix(EMPTY, ALARM_TOO_EARLY, 1);
    assert Play(EMPTY, ALARM_TOO_EARLY[..2]).reading == map[0 := Rotate(0)];
    PlayPrefix(EMPTY, ALARM_TOO_EARLY, 2);
    assert Play(EMPTY, ALARM_TOO_EARLY[..3]).reading == map[];
    PlayPrefix(EMPTY, ALARM_TOO_EARLY, 3);
    PlayPrefix(EMPTY, ALARM_TOO_EARLY, 4);
  }

  lemma AlarmEscapedExample()
    ensures var s := Play(EMPTY, ALARM_TOO_EARLY);
            |s.tokens| == 3 && s.tokens[1].session == 0 && s.tokens[2].session == 0 && Check(s, 2) == Some(Rotate(2))
  {
    AlarmSet();
    assert ALARM_TOO_EARLY[..7] == ALARM_TOO_EARLY;
    PlayPrefix(EMPTY, ALARM_TOO_EARLY, 5);
    PlayPrefix(EMPTY, ALARM_TOO_EARLY, 6);
  }

  // ---------------------------------------------------------------- the end of one session

  /** Whatever happens next, no further token of this session is issued. */
  ghost predicate SessionOver(s: Server, session: nat) {
    forall steps, j :: |s.tokens| <= j < |Play(s, steps).tokens| ==> Play(s, steps).tokens[j].session != session
  }

  predicate BeingRotated(s: Server, t: nat) {
    exists req :: req in s.reading && s.reading[req] == Rotate(t)
  }

  predicate RevokedOrExpired(s: Server, t: nat)
    requires t < |s.tokens|
  {
    s.tokens[t].revokedAt.Some? || s.tokens[t].expiresAt <= s.clock
  }

  /** The end of the chain can no longer be exchanged, and nothing was added to it since `n`. */
  predicate Ended(s: Server, tip: nat, n: nat) {
    && tip < n <= |s.tokens|
    && s.tokens[tip].rotatedAt.None? && RevokedOrExpired(s, tip) && !BeingRotated(s, tip)
    && forall j :: n <= j < |s.tokens| ==> s.tokens[j].session != s.tokens[tip].session
  }

  lemma RotationIsElsewhere(s: Server, req: nat, tip: nat, n: nat)
    requires OneTip(s.tokens) && ReadingInTable(s)
    requires Ended(s, tip, n) && req in s.reading && s.reading[req].Rotate?
    ensures var t := s.reading[req].token;
            t != tip && (s.tokens[t].rotatedAt.None? ==> s.tokens[t].session != s.tokens[tip].session)
  {
    var t := s.reading[req].token;
    if s.tokens[t].rotatedAt.None? && s.tokens[t].session == s.tokens[tip].session {
      assert IsTip(s.tokens, tip, tip) && IsTip(s.tokens, tip, t);
    }
  }

  /** Every step but a rotation leaves the links of existing tokens alone and adds at most a new session. */
  lemma UnrotatingStep(s: Server, step: Step)
    requires !(step.RefreshWrite? && step.req in s.reading && s.reading[step.req].Rotate?)
    ensures var s' := Next(s, step);
            && |s.tokens| <= |s'.tokens| && s.clock <= s'.clock
            && (forall i :: 0 <= i < |s.tokens| ==> RevokedAtMost(s.tokens[i], s'.tokens[i]))
            && (forall i :: |s.tokens| <= i < |s'.tokens| ==> s'.tokens[i].session == |s.tokens|)
            && (forall q :: q in s'.reading ==>
                  (q in s.reading && s'.reading[q] == s.reading[q])
                  || (step.RefreshRead? && Check(s, step.token) == Some(s'.reading[q])))
  {
  }

  /** A rotation of another session's token leaves this one as it is. */
  lemma RotationKeepsEnded(s: Server, req: nat, tip: nat, n: nat)
    requires Ended(s, tip, n) && ReadingInTable(s) && req in s.reading && s.reading[req].Rotate?
    requires var t := s.reading[req].token;
             t != tip && (s.tokens[t].rotatedAt.None? ==> s.tokens[t].session != s.tokens[tip].session)
    ensures Ended(Next(s, RefreshWrite(req)), tip, n)
    ensures Next(s, RefreshWrite(req)).tokens[tip] == s.tokens[tip]
  {
  }

  lemma EndedStays(s: Server, s': Server, tip: nat, n: nat)
    requires Ended(s, tip, n)
    requires s.tokens[tip].session <= tip && |s.tokens| <= |s'.tokens| && s.clock <= s'.clock
    requires forall i :: 0 <= i < |s.tokens| ==> RevokedAtMost(s.tokens[i], s'.tokens[i])
    requires forall i :: |s.tokens| <= i < |s'.tokens| ==> s'.tokens[i].session == |s.tokens|
    requires forall q :: q in s'.reading && s'.reading[q] == Rotate(tip) ==> BeingRotated(s, tip)
    ensures Ended(s', tip, n) && s'.tokens[tip].session == s.tokens[tip].session
  {
  }

  lemma StepKeepsEnded(s: Server, step: Step, tip: nat, n: nat)
    requires Chains(s.tokens) && ReadingInTable(s) && Ended(s, tip, n)
    ensures Ended(Next(s, step), tip, n) && Next(s, step).tokens[tip].session == s.tokens[tip].session
  {
    SessionBelow(s.tokens, tip);
    if step.RefreshWrite? && step.req in s.reading && s.reading[step.req].Rotate? {
      RotationIsElsewhere(s, step.req, tip, n);
      RotationKeepsEnded(s, step.req, tip, n);
    } else {
      UnrotatingStep(s, step);
      EndedStays(s, Next(s, step), tip, n);
    }
  }

  lemma {:induction false} PlayKeepsEnded(s: Server, steps: seq<Step>, tip: nat, n: nat)
    requires Chains(s.tokens) && ReadingInTable(s) && Ended(s, tip, n)
    ensures Chains(Play(s, steps).tokens) && ReadingInTable(Play(s, steps))
    ensures Ended(Play(s, steps), tip, n) && Play(s, steps).tokens[tip].session == s.tokens[tip].session
  {
    if steps != [] {
      var init, step := Play(s, steps[..|steps| - 1]), steps[|steps| - 1];
      PlayKeepsEnded(s, steps[..|steps| - 1], tip, n);
      StepKeepsEnded(init, step, tip, n);
      StepKeepsChains(init, step);
      StepKeepsReading(init, step);
    }
  }

  lemma StepKeepsReading(s: Server, step: Step)
    requires ReadingInTable(s)
    ensures ReadingInTable(Next(s, step))
  {
  }

  lemma PendingRotationExtends(s: Server, tip: nat, req: nat)
    requires tip < |s.tokens| && s.tokens[tip].rotatedAt.None? && req in s.reading && s.reading[req] == Rotate(tip)
    ensures !SessionOver(s, s.tokens[tip].session)
  {
    var steps := [RefreshWrite(req)];
    assert steps[..0] == [] && steps[..1] == steps;
    PlayPrefix(s, steps, 0);
    assert Play(s, steps).tokens[|s.tokens|].session == s.tokens[tip].session;
  }

  lemma LiveTipExtends(s: Server, tip: nat)
    requires tip < |s.tokens| && s.tokens[tip].rotatedAt.None? && !RevokedOrExpired(s, tip)
    ensures !SessionOver(s, s.tokens[tip].session)
  {
    var steps := [Abandon(0), RefreshRead(0, tip), RefreshWrite(0)];
    assert steps[..0] == [] && steps[..3] == steps;
    PlayPrefix(s, steps, 0);
    PlayPrefix(s, steps, 1);
    PlayPrefix(s, steps, 2);
    assert Play(s, steps).tokens[|s.tokens|].session == s.tokens[tip].session;
  }

  /** A session is over exactly when its tip is revoked or expired and no refresh of the tip is past its checks. */
  lemma SessionOverExactly(s: Server, tip: nat)
    requires Chains(s.tokens) && ReadingInTable(s) && tip < |s.tokens| && s.tokens[tip].rotatedAt.None?
    ensures SessionOver(s, s.tokens[tip].session) <==> RevokedOrExpired(s, tip) && !BeingRotated(s, tip)
  {
    if BeingRotated(s, tip) {
      var req :| req in s.reading && s.reading[req] == Rotate(tip);
      PendingRotationExtends(s, tip, req);
    } else if !RevokedOrExpired(s, tip) {
      LiveTipExtends(s, tip);
    } else {
      forall steps, j | |s.tokens| <= j < |Play(s, steps).tokens|
        ensures Play(s, steps).tokens[j].session != s.tokens[tip].session
      {
        PlayKeepsEnded(s, steps, tip, |s.tokens|);
      }
    }
  }

  /**
   * What a logout with any token `t` does to a session: it is over exactly when
   * the user's `t` is its tip, or the tip was revoked or expired already, and no
   * refresh of the tip is past its checks. A token that was rotated ends nothing.
   */
  lemma LogoutFinalExactly(s: Server, u: nat, t: nat, tip: nat)
    requires Chains(s.tokens) && ReadingInTable(s) && tip < |s.tokens| && s.tokens[tip].rotatedAt.None?
    ensures SessionOver(Next(s, LogoutOne(u, t)), s.tokens[tip].session) <==>
            ((t == tip && s.tokens[tip].userId == u) || RevokedOrExpired(s, tip)) && !BeingRotated(s, tip)
  {
    StepKeepsChains(s, LogoutOne(u, t));
    SessionOverExactly(Next(s, LogoutOne(u, t)), tip);
    assert BeingRotated(Next(s, LogoutOne(u, t)), tip) <==> BeingRotated(s, tip);
  }

  /** With requests run one at a time: the session of the user's un-rotated token ends, any other stays as it was. */
  lemma LogoutSequentially(s: Server, u: nat, t: nat)
    requires Chains(s.tokens) && s.reading == map[]
    ensures forall tip: nat :: tip < |s.tokens| && s.tokens[tip].rotatedAt.None? ==>
              (SessionOver(Next(s, LogoutOne(u, t)), s.tokens[tip].session) <==>
               (tip == t && s.tokens[tip].userId == u) || RevokedOrExpired(s, tip))
  {
    forall tip: nat | tip < |s.tokens| && s.tokens[tip].rotatedAt.None?
      ensures SessionOver(Next(s, LogoutOne(u, t)), s.tokens[tip].session) <==>
              (tip == t && s.tokens[tip].userId == u) || RevokedOrExpired(s, tip)
    {
      LogoutFinalExactly(s, u, t, tip);
    }
  }

  /** So a logout that still carries the token from before the last refresh changes nothing. */
  lemma RevokedLogoutEndsNothing(s: Server, u: nat, t: nat)
    requires t < |s.tokens| && s.tokens[t].revokedAt.Some?
    ensures Next(s, LogoutOne(u, t)) == s
  {
  }

  const REFRESHED_ONCE: seq<Step> := [Login(7), RefreshRead(0, 0), RefreshWrite(0)]

  /** After one refresh with nothing outstanding, a logout with the first token leaves the session open. */
  lemma RotatedLogoutExample()
    ensures var s := Play(EMPTY, REFRESHED_ONCE);
            && s.reading == map[] && Next(s, LogoutOne(7, 0)) == s && |s.tokens| == 2
            && s.tokens[0].session == 0 && !SessionOver(s, 0) && Check(s, 1) == Some(Rotate(1))
  {
    assert REFRESHED_ONCE[..0] == [] && REFRESHED_ONCE[..3] == REFRESHED_ONCE;
    PlayPrefix(EMPTY, REFRESHED_ONCE, 0);
    PlayPrefix(EMPTY, REFRESHED_ONCE, 1);
    assert Play(EMPTY, REFRESHED_ONCE[..2]).reading == map[0 := Rotate(0)];
    PlayPrefix(EMPTY, REFRESHED_ONCE, 2);
    var s := Play(EMPTY, REFRESHED_ONCE);
    assert s.reading == map[];
    RevokedLogoutEndsNothing(s, 7, 0);
    LiveTipExtends(s, 1);
  }

  // ---------------------------------------------------------------- the service

  /** A fresh token can be refreshed for thirty days from its issue, unless it is rotated or revoked, and no longer. */
  lemma LivesThirtyDays(s: Server, u: nat, ms: nat)
    ensures var t, s' := |s.tokens|, Next(Next(s, Login(u)), Tick(ms));
            Check(s', t) == (if ms < 30 * 24 * 60 * 60 * 1000 then Some(Rotate(t)) else None)
  {
  }

  // ---------------------------------------------------------------- whose sessions end

  /** Of the user's tokens exactly the live ones are revoked, now; every other token is as it was. */
  predicate OnlyTheirsRevoked(a: seq<Token>, b: seq<Token>, u: nat, now: nat) {
    && |b| == |a|
    && forall i :: 0 <= i < |a| ==>
         b[i] == (if a[i].userId == u && a[i].revokedAt.None? then a[i].(revokedAt := Some(now)) else a[i])
  }

  lemma OthersSessionsStay(s: Server, s': Server, u: nat, tip: nat)
    requires Chains(s.tokens) && ReadingInTable(s) && ReadingInTable(s') && s'.clock == s.clock
    requires OnlyTheirsRevoked(s.tokens, s'.tokens, u, s.clock)
    requires BeingRotated(s', tip) <==> BeingRotated(s, tip)
    requires tip < |s.tokens| && s.tokens[tip].rotatedAt.None? && s.tokens[tip].userId != u
    ensures SessionOver(s', s.tokens[tip].session) <==> SessionOver(s, s.tokens[tip].session)
  {
    RevokingKeepsChains(s.tokens, s'.tokens);
    SessionOverExactly(s, tip);
    SessionOverExactly(s', tip);
  }

  /**
   * Logging out everywhere, or changing the password, revokes the user's own
   * tokens and no other, and ends a session of another user no sooner than it
   * would have ended anyway.
   */
  lemma RevokingSparesOthers(s: Server, u: nat, tip: nat)
    requires Chains(s.tokens) && ReadingInTable(s)
    ensures OnlyTheirsRevoked(s.tokens, Next(s, RevokeAll(u)).tokens, u, s.clock)
    ensures tip < |s.tokens| && s.tokens[tip].rotatedAt.None? && s.tokens[tip].userId != u ==>
              (SessionOver(Next(s, RevokeAll(u)), s.tokens[tip].session) <==> SessionOver(s, s.tokens[tip].session))
  {
    if tip < |s.tokens| && s.tokens[tip].rotatedAt.None? && s.tokens[tip].userId != u {
      OthersSessionsStay(s, Next(s, RevokeAll(u)), u, tip);
    }
  }

  /** And so does the alarm that a reused token sets off. */
  lemma AlarmSparesOthers(s: Server, u: nat, req: nat, tip: nat)
    requires Chains(s.tokens) && ReadingInTable(s) && req in s.reading && s.reading[req] == Alarm(u)
    ensures OnlyTheirsRevoked(s.tokens, Next(s, RefreshWrite(req)).tokens, u, s.clock)
    ensures tip < |s.tokens| && s.tokens[tip].rotatedAt.None? && s.tokens[tip].userId != u ==>
              (SessionOver(Next(s, RefreshWrite(req)), s.tokens[tip].session) <==> SessionOver(s, s.tokens[tip].session))
  {
    var s' := Next(s, RefreshWrite(req));
    assert forall q :: q in s'.reading <==> q in s.reading && q != req;
    if BeingRotated(s, tip) {
      var q :| q in s.reading && s.reading[q] == Rotate(tip);
      assert q in s'.reading && s'.reading[q] == Rotate(tip);
    }
    if tip < |s.tokens| && s.tokens[tip].rotatedAt.None? && s.tokens[tip].userId != u {
      OthersSessionsStay(s, s', u, tip);
    }
  }

  /** A refresh with nothing in between. */
  lemma RefreshInOneGo(s: Server, token: nat)
    requires Chains(s.tokens) && s.reading == map[]
    ensures var s' := Next(Next(s, RefreshRead(0, token)), RefreshWrite(0));
            && s' == s.(tokens := if Check(s, token).Some? then Write(s, Check(s, token).value) else s.tokens)
            && Chains(s'.tokens)
  {
    StepKeepsChains(s, RefreshRead(0, token));
    StepKeepsChains(Next(s, RefreshRead(0, token)), RefreshWrite(0));
    assert Next(s, RefreshRead(0, token)).reading - {0} == map[];
  }

  datatype RefreshError = Unknown | Reused | Revoked | Expired

  /** `userService` as one process sees it, each request run to its end. */
  class SessionService {
    var tokens: seq<Token>

    constructor ()
      ensures tokens == []
    {
      tokens := [];
    }

    /** The table as a server with nothing outstanding. */
    ghost function At(now: nat): Server
      reads this
    {
      Server(tokens, map[], now)
    }

    method SignIn(userId: nat, now: nat) returns (token: nat)
      requires Chains(tokens)
      modifies this
      ensures At(now) == Next(old(At(now)), Login(userId))
      ensures token == |old(tokens)| && Chains(tokens)
      ensures tokens == old(tokens) + [Token(userId, None, None, now + 2_592_000_000, None, token)]
    {
      LoginKeepsChains(tokens, userId, now);
      token := |tokens|;
      tokens := tokens + [Token(userId, None, None, now + REFRESH_TOKEN_TTL_MS, None, token)];
    }

    /** `refreshSession`: read, check, then rotate or raise the alarm. */
    method RefreshSession(token: nat, now: nat) returns (r: Result<nat, RefreshError>)
      requires Chains(tokens)
      modifies this
      ensures At(now) == Next(Next(old(At(now)), RefreshRead(0, token)), RefreshWrite(0))
      ensures Chains(tokens)
      ensures r.Success? <==> token < |old(tokens)| && old(tokens)[token].rotatedAt.None?
                              && old(tokens)[token].revokedAt.None? && now < old(tokens)[token].expiresAt
      ensures r.Success? ==> r.value == |old(tokens)| && |tokens| == r.value + 1
                             && tokens[r.value].parent == Some(token) && tokens[r.value].revokedAt.None?
      ensures r == Failure(Reused) <==> token < |old(tokens)| && old(tokens)[token].rotatedAt.Some?
      ensures r == Failure(Reused) ==> OnlyTheirsRevoked(old(tokens), tokens, old(tokens)[token].userId, now)
      ensures r.Success? ==>
                && tokens[r.value] == Token(old(tokens)[token].userId, None, None, now + 2_592_000_000, Some(token),
                                            old(tokens)[token].session)
                && tokens[token] == old(tokens)[token].(rotatedAt := Some(now), revokedAt := Some(now))
                && forall i :: 0 <= i < |old(tokens)| && i != token ==> tokens[i] == old(tokens)[i]
      ensures r.Failure? && r.error != Reused ==> tokens == old(tokens)
      ensures r == Failure(Unknown) <==> token >= |old(tokens)|
    {
      RefreshInOneGo(At(now), token);
      if token >= |tokens| {
        return Failure(Unknown);
      }
      var stored := tokens[token];
      if stored.rotatedAt.Some? {
        tokens := RevokeUser(tokens, stored.userId, now);
        return Failure(Reused);
      }
      if stored.revokedAt.Some? {
        return Failure(Revoked);
      }
      if stored.expiresAt <= now {
        return Failure(Expired);
      }
      var replacement := |tokens|;
      tokens := tokens[token := stored.(rotatedAt := Some(now), revokedAt := Some(now))];
      tokens := tokens + [Token(stored.userId, None, None, now + REFRESH_TOKEN_TTL_MS, Some(token), stored.session)];
      assert tokens == RotateToken(old(tokens), token, now);
      return Success(replacement);
    }

    /** One session when a token is given, otherwise all; also what a password change does. */
    method Logout(userId: nat, token: Option<nat>, now: nat)
      requires Chains(tokens)
      modifies this
      ensures At(now) == Next(old(At(now)), if token.Some? then LogoutOne(userId, token.value) else RevokeAll(userId))
      ensures Chains(tokens)
      ensures token.None? ==> Final(At(now), userId) && OnlyTheirsRevoked(old(tokens), tokens, userId, now)
      ensures |tokens| == |old(tokens)|
      ensures token.Some? ==>
                forall i: nat :: i < |tokens| ==>
                  tokens[i] == (if i == token.value && old(tokens)[i].userId == userId && old(tokens)[i].revokedAt.None?
                                then old(tokens)[i].(revokedAt := Some(now)) else old(tokens)[i])
      ensures token.Some? ==>
                forall tip: nat :: tip < |old(tokens)| && old(tokens)[tip].rotatedAt.None? ==>
                  (SessionOver(At(now), old(tokens)[tip].session) <==>
                   (tip == token.value && old(tokens)[tip].userId == userId)
                   || old(tokens)[tip].revokedAt.Some? || old(tokens)[tip].expiresAt <= now)
    {
      ghost var s := At(now);
      if token.Some? {
        StepKeepsChains(s, LogoutOne(userId, token.value));
        LogoutSequentially(s, userId, token.value);
        var t := token.value;
        if t < |tokens| && tokens[t].userId == userId && tokens[t].revokedAt.None? {
          tokens := tokens[t := tokens[t].(revokedAt := Some(now))];
        }
      } else {
        StepKeepsChains(s, RevokeAll(userId));
        RevocationFinalSequentially(s, userId);
        tokens := RevokeUser(tokens, userId, now);
      }
    }
  }
}
