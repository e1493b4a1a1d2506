/**
 The limit of one tunnel for an anonymous address, with handlers interleaved. A control
 session serves its requests one after the other: it looks whether the address has an active
 tunnel, then charges, then registers. The look and the registration are apart, and an
 address may have several sessions. This puts the sessions' loops around the control plane.
 (internal/server/server.go)
 */
module AnonSafety {
  import opened Wrappers
  import opened Names
  import opened Tunnels
  import opened Quotas
  import opened ControlPlane
  import opened RegistrySafety
  import Handlers

  /** Where a session's loop is: between requests, past the checks of one, or in its handler. */
  datatype Loop = Ready | Admitted(kind: Kind) | Working(id: string)

  datatype Front = Front(core: State, loops: map<Session, Loop>)

  datatype Move = Check(session: Session, kind: Kind) | Core(step: Step)

  /** The session may take its next request: the last one is registered, refused or given up. */
  predicate Free(f: Front, session: Session) {
    session in f.loops && f.loops[session].Working? ==> f.loops[session].id !in f.core.requests
  }

  predicate HoldsActive(s: State, token: string) {
    Handlers.HoldsActive(Handlers.Control(s.http, s.tcp, s.quotas), token)
  }

  /** The look at the registry waits for a kill in progress; a charge needs a passed check. */
  ghost predicate MayMove(f: Front, move: Move) {
    match move
    case Check(session, _) => f.core.kill.None? && Free(f, session)
    case Core(step) =>
      && Enabled(f.core, step)
      && (step.Begin? ==> step.session in f.loops && f.loops[step.session] == Admitted(step.kind))
  }

  ghost function Moved(f: Front, move: Move): Front
    requires MayMove(f, move)
  {
    match move
    case Check(session, kind) =>
      var refused := IsAnon(session.token) && (kind == Tcp || HoldsActive(f.core, session.token));
      f.(loops := f.loops[session := if refused then Ready else Admitted(kind)])
    case Core(step) =>
      Front(Apply(f.core, step), if step.Begin? then f.loops[step.session := Working(step.id)] else f.loops)
  }

  ghost predicate IsFrontRun(fronts: seq<Front>, moves: seq<Move>) {
    && |fronts| == |moves| + 1
    && Start(fronts[0].core) && fronts[0].loops == map[]
    && forall i {:trigger moves[i]} :: 0 <= i < |moves| ==>
         MayMove(fronts[i], moves[i]) && fronts[i + 1] == Moved(fronts[i], moves[i])
  }

  // ---------------------------------------------------------------- it is still the control plane

  function Cores(fronts: seq<Front>): seq<State> {
    seq(|fronts|, i requires 0 <= i < |fronts| => fronts[i].core)
  }

  /** A check moves nothing in the core: there it is a moment in which no time passes. */
  function CoreSteps(fronts: seq<Front>, moves: seq<Move>): seq<Step>
    requires |fronts| == |moves| + 1
  {
    seq(|moves|, i requires 0 <= i < |moves| =>
      if moves[i].Core? then moves[i].step else Advance(fronts[i].core.now))
  }

  /** Every run with loops and checks is a run of the control plane, so whatever holds in all
      of those holds here. */
  lemma FrontRunsAreRuns(fronts: seq<Front>, moves: seq<Move>)
    requires IsFrontRun(fronts, moves)
    ensures IsRun(Cores(fronts), CoreSteps(fronts, moves))
  {
    var states, steps := Cores(fronts), CoreSteps(fronts, moves);
    forall i {:trigger steps[i]} | 0 <= i < |steps|
      ensures Enabled(states[i], steps[i]) && states[i + 1] == Apply(states[i], steps[i])
    {
      assert MayMove(fronts[i], moves[i]) && fronts[i + 1] == Moved(fronts[i], moves[i]);
    }
  }

  lemma IdentityInFront(fronts: seq<Front>, moves: seq<Move>, i: nat)
    requires IsFrontRun(fronts, moves) && i < |fronts|
    ensures Identity(fronts[i].core)
  {
    FrontRunsAreRuns(fronts, moves);
    IdentityAlways(Cores(fronts), CoreSteps(fronts, moves), i);
  }

  // ---------------------------------------------------------------- one request at a time

  predicate Active(s: State, sub: string) {
    sub in s.http && !s.http[sub].reserved
  }

  /** An entry that is active after a step was active before, or the step registered it. */
  lemma ActiveBefore(s: State, step: Step, sub: string)
    requires Identity(s) && Enabled(s, step) && Active(Apply(s, step), sub)
    ensures var s' := Apply(s, step);
            || (Active(s, sub) && s'.http[sub] == s.http[sub])
            || (&& step.TryHTTP? && step.sub == sub && step.id == s'.http[sub].id
                && step.id in s.requests && s'.requests == s.requests - {step.id}
                && s'.http[sub].session == s.requests[step.id].tunnel.session)
  {
    var s' := Apply(s, step);
    var id := s'.http[sub].id;
    if !(id in s.born && id !in s.requests) {
      NewEntry(s, step, sub);
    } else if !(step.ReserveName? && step.sub == sub) {
      ReservationStep(s, step, sub);
    }
  }

  lemma NewEntry(s: State, step: Step, sub: string)
    requires Identity(s) && Enabled(s, step) && sub in Apply(s, step).http
    requires Apply(s, step).http[sub].id !in s.born || Apply(s, step).http[sub].id in s.requests
    ensures var s' := Apply(s, step);
            && step.TryHTTP? && step.sub == sub && step.id == s'.http[sub].id
            && step.id in s.requests && s'.requests == s.requests - {step.id}
            && s'.http[sub].session == s.requests[step.id].tunnel.session
  {
    var s' := Apply(s, step);
    if !step.Begin? {
      StepFrames(s, step);
      if Registering(step) {
        RegisterEffect(s, step);
      }
    }
  }

  /** The session is past the checks of an anonymous request that is not registered yet. */
  predicate OnItsWay(f: Front, session: Session) {
    && session in f.loops
    && match f.loops[session]
       case Ready => false
       case Admitted(_) => true
       case Working(id) => id in f.core.requests
  }

  ghost predicate OneAtATime(f: Front) {
    && (forall id :: id in f.core.requests ==>
          var ses := f.core.requests[id].tunnel.session;
          ses in f.loops && f.loops[ses] == Working(id))
    && (forall ses :: ses in f.loops && IsAnon(ses.token) ==> f.loops[ses] != Admitted(Tcp))
    && (forall ses :: ses in f.loops && f.loops[ses].Working? ==> f.loops[ses].id in f.core.born)
    && (forall id :: id in f.core.requests && IsAnon(f.core.requests[id].tunnel.token) ==>
          f.core.requests[id].tunnel.kind == Http)
    && (forall p :: p in f.core.tcp ==> !IsAnon(f.core.tcp[p].token))
  }

  /** An anonymous session has no active tunnel while a request of it is on its way, and never
      more than one. */
  ghost predicate OneActive(f: Front) {
    && (forall sub :: Active(f.core, sub) && IsAnon(f.core.http[sub].token) ==> !OnItsWay(f, f.core.http[sub].session))
    && (forall a, b :: (&& Active(f.core, a) && Active(f.core, b) && IsAnon(f.core.http[a].token)
                        && f.core.http[a].session == f.core.http[b].session) ==> a == b)
  }

  lemma OneAtATimeStep(f: Front, move: Move)
    requires Identity(f.core) && OneAtATime(f) && MayMove(f, move)
    ensures OneAtATime(Moved(f, move))
  {
    match move
    case Check(session, _) =>
    case Core(step) =>
      if step.Begin? {
        RequestsAfterBegin(f, step);
      } else {
        StepFrames(f.core, step);
        if Registering(step) {
          RegisterEffect(f.core, step);
        }
      }
  }

  lemma RequestsAfterBegin(f: Front, step: Step)
    requires Identity(f.core) && OneAtATime(f) && MayMove(f, Core(step)) && step.Begin?
    ensures OneAtATime(Moved(f, Core(step)))
  {
    var f' := Moved(f, Core(step));
    assert f'.core == ApplyBegin(f.core, step.id, step.session, step.kind, step.localPort);
  }

  lemma OneActiveStep(f: Front, move: Move)
    requires Identity(f.core) && OneAtATime(f) && OneActive(f) && MayMove(f, move)
    ensures OneActive(Moved(f, move))
  {
    match move
    case Check(session, kind) => OneActiveCheck(f, session, kind);
    case Core(step) =>
      var f' := Moved(f, move);
      forall sub | Active(f'.core, sub) && IsAnon(f'.core.http[sub].token)
        ensures !OnItsWay(f', f'.core.http[sub].session)
      {
        NotOnItsWay(f, step, sub);
      }
      forall a, b | && Active(f'.core, a) && Active(f'.core, b) && IsAnon(f'.core.http[a].token)
                    && f'.core.http[a].session == f'.core.http[b].session
        ensures a == b
      {
        ActiveBefore(f.core, step, a);
        ActiveBefore(f.core, step, b);
      }
  }

  lemma OneActiveCheck(f: Front, session: Session, kind: Kind)
    requires Identity(f.core) && OneActive(f) && MayMove(f, Check(session, kind))
    ensures OneActive(Moved(f, Check(session, kind)))
  {
    forall sub | Active(f.core, sub) && f.core.http[sub].session == session
      ensures HoldsActive(f.core, session.token)
    {
      assert Genuine(f.core, f.core.http[sub]);
    }
  }

  lemma NotOnItsWay(f: Front, step: Step, sub: string)
    requires Identity(f.core) && OneAtATime(f) && OneActive(f) && MayMove(f, Core(step))
    requires Active(Apply(f.core, step), sub) && IsAnon(Apply(f.core, step).http[sub].token)
    ensures !OnItsWay(Moved(f, Core(step)), Apply(f.core, step).http[sub].session)
  {
    ActiveBefore(f.core, step, sub);
    var session := Apply(f.core, step).http[sub].session;
    if !OnItsWay(f, session) {
      StaysOff(f, step, session);
    } else {
      assert f.loops[session] == Working(step.id);
    }
  }

  lemma StaysOff(f: Front, step: Step, session: Session)
    requires OneAtATime(f) && MayMove(f, Core(step)) && !OnItsWay(f, session)
    ensures !OnItsWay(Moved(f, Core(step)), session)
  {
    if session in f.loops && f.loops[session].Working? {
      NoReturn(f.core, step, f.loops[session].id);
    }
  }

  /** A request that has left does not come back. */
  lemma NoReturn(s: State, step: Step, id: string)
    requires Enabled(s, step) && id in s.born && id !in s.requests
    ensures id !in Apply(s, step).requests
  {
    BornStep(s, step, id);
  }

  lemma {:induction false} OneAtATimeAlways(fronts: seq<Front>, moves: seq<Move>, i: nat)
    requires IsFrontRun(fronts, moves) && i < |fronts|
    ensures OneAtATime(fronts[i])
  {
    if i > 0 {
      OneAtATimeAlways(fronts, moves, i - 1);
      IdentityInFront(fronts, moves, i - 1);
      OneAtATimeStep(fronts[i - 1], moves[i - 1]);
    }
  }

  lemma {:induction false} OneActiveAlways(fronts: seq<Front>, moves: seq<Move>, i: nat)
    requires IsFrontRun(fronts, moves) && i < |fronts|
    ensures OneActive(fronts[i])
  {
    if i > 0 {
      OneActiveAlways(fronts, moves, i - 1);
      OneAtATimeAlways(fronts, moves, i - 1);
      IdentityInFront(fronts, moves, i - 1);
      OneActiveStep(fronts[i - 1], moves[i - 1]);
    }
  }

  lemma FrontAlways(fronts: seq<Front>, moves: seq<Move>, i: nat)
    requires IsFrontRun(fronts, moves) && i < |fronts|
    ensures Identity(fronts[i].core) && OneAtATime(fronts[i]) && OneActive(fronts[i])
  {
    IdentityInFront(fronts, moves, i);
    OneAtATimeAlways(fronts, moves, i);
    OneActiveAlways(fronts, moves, i);
  }

  /** A session takes its next request only when none of its requests is in flight, and looks at
      the registry only while no kill holds the lock. */
  lemma NextRequestWaits(fronts: seq<Front>, moves: seq<Move>, i: nat)
    requires IsFrontRun(fronts, moves) && i < |moves| && moves[i].Check?
    ensures var s := fronts[i].core;
            s.kill.None? && forall id :: id in s.requests ==> s.requests[id].tunnel.session != moves[i].session
  {
    OneAtATimeAlways(fronts, moves, i);
    assert MayMove(fronts[i], moves[i]);
  }

  // ---------------------------------------------------------------- main results

  /** However handlers interleave, an anonymous control session never has two active tunnels,
      and no anonymous tunnel is a TCP one. */
  lemma OnePerAnonymousSession(fronts: seq<Front>, moves: seq<Move>, i: nat, a: string, b: string)
    requires IsFrontRun(fronts, moves) && i < |fronts|
    ensures var s := fronts[i].core;
            && (&& Active(s, a) && Active(s, b) && IsAnon(s.http[a].token) && s.http[a].session == s.http[b].session
                ==> a == b)
            && forall p :: p in s.tcp ==> !IsAnon(s.tcp[p].token)
  {
    FrontAlways(fronts, moves, i);
  }

  // ---------------------------------------------------------------- when a second tunnel appears

  /** The move registers a tunnel of the address for another session, under `sub`. */
  predicate RegistersFor(f: Front, move: Move, sub: string, token: string, session: Session) {
    && move.Core? && move.step.TryHTTP? && move.step.sub == sub
    && move.step.id in f.core.requests
    && f.core.requests[move.step.id].tunnel.session != session
    && f.core.requests[move.step.id].tunnel.session.token == token
  }

  /** Between the two moments another session of the address registers a name that is still
      active at the second. */
  ghost predicate OvertakenBy(fronts: seq<Front>, moves: seq<Move>, c: nat, j: nat, session: Session, sub: string)
    requires |fronts| == |moves| + 1 && c <= j < |fronts|
  {
    && Active(fronts[j].core, sub)
    && exists k :: && c < k < j && RegistersFor(fronts[k], moves[k], sub, session.token, session)
                   && fronts[j].core.http[sub].id == moves[k].step.id
  }

  /** Another active tunnel of the address than the one at `sub`. */
  predicate IsSecond(s: State, sub: string, token: string, other: string) {
    other != sub && Active(s, other) && s.http[other].token == token
  }

  /** An active entry of the address was found by the check, or was registered since. */
  lemma {:induction false} Appeared(fronts: seq<Front>, moves: seq<Move>, c: nat, j: nat, sub: string) returns (k: nat)
    requires IsFrontRun(fronts, moves) && c <= j < |fronts| && Active(fronts[j].core, sub)
    requires !Active(fronts[c].core, sub) || fronts[c].core.http[sub].token != fronts[j].core.http[sub].token
    ensures c <= k < j && moves[k].Core? && moves[k].step.TryHTTP? && moves[k].step.sub == sub
    ensures moves[k].step.id == fronts[j].core.http[sub].id && moves[k].step.id in fronts[k].core.requests
    ensures fronts[k].core.requests[moves[k].step.id].tunnel.session == fronts[j].core.http[sub].session
    decreases j - c
  {
    var f, move := fronts[j - 1], moves[j - 1];
    assert c < j;
    IdentityInFront(fronts, moves, j - 1);
    assert fronts[j] == Moved(f, move);
    if move.Check? {
      k := Appeared(fronts, moves, c, j - 1, sub);
    } else {
      ActiveBefore(f.core, move.step, sub);
      if Active(f.core, sub) && fronts[j].core.http[sub] == f.core.http[sub] {
        k := Appeared(fronts, moves, c, j - 1, sub);
      } else {
        k := j - 1;
      }
    }
  }

  /** A session whose check failed stays between requests until it checks again. */
  lemma {:induction false} StaysReady(fronts: seq<Front>, moves: seq<Move>, c: nat, j: nat, session: Session)
    requires IsFrontRun(fronts, moves) && c <= j < |fronts|
    requires session in fronts[c].loops && fronts[c].loops[session] == Ready
    requires forall m {:trigger moves[m]} :: c <= m < j ==> !(moves[m].Check? && moves[m].session == session)
    ensures session in fronts[j].loops && fronts[j].loops[session] == Ready
    decreases j - c
  {
    if c < j {
      StaysReady(fronts, moves, c, j - 1, session);
      assert moves[j - 1] == moves[j - 1];
    }
  }

  /** The check that let the request through found no active tunnel of the address. */
  lemma CheckFoundNone(fronts: seq<Front>, moves: seq<Move>, c: nat, j: nat, id: string, sub: string)
    requires IsFrontRun(fronts, moves) && c < j < |moves| && moves[j] == Core(TryHTTP(id, sub))
    requires IsAnon(fronts[j].core.requests[id].tunnel.token)
    requires moves[c].Check? && moves[c].session == fronts[j].core.requests[id].tunnel.session
    requires forall m {:trigger moves[m]} :: c < m < j ==> !(moves[m].Check? && moves[m].session == moves[c].session)
    ensures !HoldsActive(fronts[c].core, moves[c].session.token)
  {
    var session := moves[c].session;
    FrontAlways(fronts, moves, j);
    assert Genuine(fronts[j].core, fronts[j].core.requests[id].tunnel);
    assert fronts[c + 1] == Moved(fronts[c], moves[c]);
    if fronts[c + 1].loops[session] == Ready {
      StaysReady(fronts, moves, c + 1, j, session);
    }
  }

  /** An anonymous registration gives the address a second active tunnel exactly when another
      session of the address registered one between this session's check and this moment, and
      it is still active. */
  lemma SecondTunnelIff(fronts: seq<Front>, moves: seq<Move>, c: nat, j: nat, id: string, sub: string)
    requires IsFrontRun(fronts, moves) && c < j < |moves| && moves[j] == Core(TryHTTP(id, sub))
    requires id !in fronts[j + 1].core.requests && IsAnon(fronts[j].core.requests[id].tunnel.token)
    requires moves[c].Check? && moves[c].session == fronts[j].core.requests[id].tunnel.session
    requires forall m {:trigger moves[m]} :: c < m < j ==> !(moves[m].Check? && moves[m].session == moves[c].session)
    ensures forall other ::
              IsSecond(fronts[j + 1].core, sub, moves[c].session.token, other)
              <==> OvertakenBy(fronts, moves, c, j, moves[c].session, other)
  {
    CheckFoundNone(fronts, moves, c, j, id, sub);
    forall other
      ensures IsSecond(fronts[j + 1].core, sub, moves[c].session.token, other)
              <==> OvertakenBy(fronts, moves, c, j, moves[c].session, other)
    {
      WasThere(fronts, moves, j, id, sub, moves[c].session.token, other);
      if IsSecond(fronts[j + 1].core, sub, moves[c].session.token, other) {
        InItsHandler(fronts, moves, j, id);
        Overtaken(fronts, moves, c, j, moves[c].session, other);
      }
      if OvertakenBy(fronts, moves, c, j, moves[c].session, other) {
        SameAddress(fronts, moves, c, j, moves[c].session, other);
      }
    }
  }

  lemma InItsHandler(fronts: seq<Front>, moves: seq<Move>, j: nat, id: string)
    requires IsFrontRun(fronts, moves) && j < |fronts| && id in fronts[j].core.requests
    ensures OnItsWay(fronts[j], fronts[j].core.requests[id].tunnel.session)
    ensures fronts[j].core.requests[id].tunnel.token == fronts[j].core.requests[id].tunnel.session.token
  {
    FrontAlways(fronts, moves, j);
    assert Genuine(fronts[j].core, fronts[j].core.requests[id].tunnel);
  }

  lemma WasThere(fronts: seq<Front>, moves: seq<Move>, j: nat, id: string, sub: string, token: string, other: string)
    requires IsFrontRun(fronts, moves) && j < |moves| && moves[j] == Core(TryHTTP(id, sub))
    requires id !in fronts[j + 1].core.requests
    ensures IsSecond(fronts[j + 1].core, sub, token, other) <==>
              Active(fronts[j].core, other) && fronts[j].core.http[other].token == token
  {
    IdentityInFront(fronts, moves, j);
    OthersUnmoved(fronts[j], id, sub);
  }

  lemma SameAddress(fronts: seq<Front>, moves: seq<Move>, c: nat, j: nat, session: Session, other: string)
    requires IsFrontRun(fronts, moves) && c <= j < |fronts| && OvertakenBy(fronts, moves, c, j, session, other)
    ensures fronts[j].core.http[other].token == session.token
  {
    var k :| && c < k < j && RegistersFor(fronts[k], moves[k], other, session.token, session)
             && fronts[j].core.http[other].id == moves[k].step.id;
    FrontRunsAreRuns(fronts, moves);
    IdentityAlways(Cores(fronts), CoreSteps(fronts, moves), k);
    IdentityAlways(Cores(fronts), CoreSteps(fronts, moves), j);
    assert Genuine(fronts[k].core, fronts[k].core.requests[moves[k].step.id].tunnel);
    assert Genuine(fronts[j].core, fronts[j].core.http[other]);
    BirthStays(Cores(fronts), CoreSteps(fronts, moves), k, j, moves[k].step.id);
  }

  lemma {:induction false} BirthStays(states: seq<State>, steps: seq<Step>, k: nat, j: nat, id: string)
    requires IsRun(states, steps) && k <= j < |states| && id in states[k].born
    ensures id in states[j].born && states[j].born[id] == states[k].born[id]
    decreases j - k
  {
    if k < j {
      BirthStays(states, steps, k, j - 1, id);
      StepFrames(states[j - 1], steps[j - 1]);
      if Registering(steps[j - 1]) {
        assert states[j].born == states[j - 1].born;
      }
    }
  }

  /** A registration leaves the other entries alone, and does not take an active one. */
  lemma OthersUnmoved(f: Front, id: string, sub: string)
    requires Identity(f.core) && MayMove(f, Core(TryHTTP(id, sub)))
    requires id !in Moved(f, Core(TryHTTP(id, sub))).core.requests
    ensures var s, s' := f.core, Moved(f, Core(TryHTTP(id, sub))).core;
            && !Active(s, sub)
            && forall other :: other != sub ==>
                 (Active(s', other) <==> Active(s, other)) && (Active(s, other) ==> s'.http[other] == s.http[other])
  {
    RegisterEffect(f.core, TryHTTP(id, sub));
  }

  lemma Overtaken(fronts: seq<Front>, moves: seq<Move>, c: nat, j: nat, session: Session, other: string)
    requires IsFrontRun(fronts, moves) && c < j < |fronts| && moves[c].Check? && IsAnon(session.token)
    requires !HoldsActive(fronts[c].core, session.token) && OnItsWay(fronts[j], session)
    requires Active(fronts[j].core, other) && fronts[j].core.http[other].token == session.token
    ensures OvertakenBy(fronts, moves, c, j, session, other)
  {
    FrontAlways(fronts, moves, j);
    assert Genuine(fronts[j].core, fronts[j].core.http[other]);
    var k := Appeared(fronts, moves, c, j, other);
    assert k != c;
    assert RegistersFor(fronts[k], moves[k], other, session.token, session);
  }

  // ---------------------------------------------------------------- it does happen

  const ADDRESS := "anon:1"

  function A(): Session {
    Session(1, ADDRESS)
  }

  function B(): Session {
    Session(2, ADDRESS)
  }

  function Asked(id: string, ses: Session): Tunnel {
    Tunnel(id, ADDRESS, Http, "", 0, 80, ses, 0, false, 0)
  }

  function Scene(http: HttpMap, born: map<string, Birth>, requests: map<string, Request>): State {
    State(0, 1, 1, http, map[], map[], None, Quotas(map[], map[]), born, {}, {}, requests, map[], None)
  }

  lemma Facts()
    ensures IsAnon(ADDRESS) && ValidSubdomain("abc") && ValidSubdomain("abd")
  {
    assert MatchesSubdomainRe("abc") && MatchesSubdomainRe("abd");
    assert forall r :: r in RESERVED_SUBDOMAINS ==> r == "api" || r[0] != 'a' || |r| > 3;
    assert "abc"[1] != "api"[1] && "abd"[1] != "api"[1];
  }

  lemma OneMove(fronts: seq<Front>, moves: seq<Move>, move: Move) returns (fronts': seq<Front>, moves': seq<Move>)
    requires IsFrontRun(fronts, moves) && MayMove(fronts[|moves|], move)
    ensures IsFrontRun(fronts', moves') && |moves'| == |moves| + 1
    ensures fronts'[|moves'|] == Moved(fronts[|moves|], move)
  {
    fronts', moves' := fronts + [Moved(fronts[|moves|], move)], moves + [move];
  }

  /** One handler: charge and registration of a request that has passed its check. */
  lemma Handler(fronts: seq<Front>, moves: seq<Move>, http: HttpMap, born: map<string, Birth>, id: string,
                sub: string, ses: Session) returns (fronts': seq<Front>, moves': seq<Move>)
    requires IsFrontRun(fronts, moves) && fronts[|moves|].core == Scene(http, born, map[])
    requires ses in fronts[|moves|].loops && fronts[|moves|].loops[ses] == Admitted(Http)
    requires id !in born && ses.token == ADDRESS && sub !in http && ValidSubdomain(sub)
    ensures IsFrontRun(fronts', moves')
    ensures fronts'[|moves'|] == Front(Scene(http[sub := Asked(id, ses).(subdomain := sub)], born[id := Birth(ses, Http)], map[]),
                                       fronts[|moves|].loops[ses := Working(id)])
  {
    Facts();
    var charged := Scene(http, born[id := Birth(ses, Http)], map[id := Request(Asked(id, ses), Charged)]);
    fronts', moves' := OneMove(fronts, moves, Core(Begin(id, ses, Http, 80)));
    assert fronts'[|moves'|].core == charged;
    assert charged.requests - {id} == map[];
    fronts', moves' := OneMove(fronts', moves', Core(TryHTTP(id, sub)));
  }

  /** Two sessions of one address both look before either registers: the address ends up with
      two active tunnels. */
  lemma TwoSessionsTwoTunnels() returns (fronts: seq<Front>, moves: seq<Move>)
    ensures IsFrontRun(fronts, moves)
    ensures var s := fronts[|moves|].core;
            && Active(s, "abc") && Active(s, "abd") && "abc" != "abd"
            && s.http["abc"].token == s.http["abd"].token && IsAnon(s.http["abc"].token)
  {
    Facts();
    var http: HttpMap, born: map<string, Birth> := map[], map[];
    fronts, moves := [Front(Scene(http, born, map[]), map[])], [];
    fronts, moves := OneMove(fronts, moves, Check(A(), Http));
    fronts, moves := OneMove(fronts, moves, Check(B(), Http));
    fronts, moves := Handler(fronts, moves, http, born, "1", "abc", A());
    http, born := http["abc" := Asked("1", A()).(subdomain := "abc")], born["1" := Birth(A(), Http)];
    assert "abc"[2] != "abd"[2] && "1"[0] != "2"[0];
    fronts, moves := Handler(fronts, moves, http, born, "2", "abd", B());
  }
}
