/**
 The server's control plane at the grain of its locks. A step is one critical section,
 one system call on a listener, or one counter update; every interleaving of the request
 handlers, teardowns, kills, the reservation reaper and the anonymous expiry is a run.

 Killing a TCP tunnel is two steps, because a listener is closed while the lock is held
 and another goroutine may bind the freed port before the map entry is gone.

 Guards that only refuse a request before it is charged (local port range, rate limit,
 the anonymous one-tunnel check) are not steps: dropping them only adds runs.
 (internal/server/tunnel_manager.go, internal/server/server.go)
 */
module ControlPlane {
  import opened Wrappers
  import opened Names
  import opened Tunnels
  import opened Quotas

  /** How far RegisterTCP has come for a request: which port it saw free, which it holds,
      or which spare listener it still has to close. */
  datatype Phase = Charged | Checked(port: int) | Listening(port: int, createdAt: int) | Spare(port: int)

  /** A request between its charge and its registration or refund. */
  datatype Request = Request(tunnel: Tunnel, phase: Phase)

  /** What cleanupSession is doing with the tunnel it took from its snapshot:
      closing the listener it found at `t.port`, or about to refund. */
  datatype Work = Waiting | Closing(t: Tunnel, listener: string) | Refunding(t: Tunnel)

  /** `todo` are the records of the snapshot that are not dealt with yet. */
  datatype Teardown = Teardown(todo: set<Tunnel>, work: Work)

  /** The TCP kill in progress; `byPass` when the anonymous expiry asked for it. */
  datatype Kill = Kill(id: string, port: int, byPass: bool)

  /** One pass of the anonymous expiry: its clock read, the ids it collected and has not
      killed yet, and those it is done with. */
  datatype Pass = Pass(at: int, ttl: int, todo: set<string>, done: set<string>)

  /** For whom an id was drawn. */
  datatype Birth = Birth(session: Session, kind: Kind)

  datatype State = State(
    now: int,
    portMin: int,
    portMax: int,
    http: HttpMap,
    tcp: TcpMap,
    bound: map<int, string>,          // listening ports of this process, with the tunnel each is for
    kill: Option<Kill>,               // set while KillTunnelByID holds the lock between its two steps
    quotas: Quotas,
    born: map<string, Birth>,         // every id drawn so far
    owed: set<string>,                // ids charged and not refunded
    refunded: set<string>,
    requests: map<string, Request>,
    teardowns: map<Session, Teardown>,
    pass: Option<Pass>)

  datatype Step =
    | Advance(to: int)
    | NewKey(key: string, max: int)
    | Begin(id: string, session: Session, kind: Kind, localPort: int)
    | TryHTTP(id: string, sub: string)
    | CheckPort(id: string, port: int)
    | Listen(id: string)
    | ListenFails(id: string)
    | Recheck(id: string)
    | CloseSpare(id: string)
    | Refuse(id: string)
    | Snapshot(session: Session)
    | Unregister(session: Session, t: Tunnel)
    | CloseListener(session: Session)
    | RefundNext(session: Session)
    | ReserveName(sub: string, ttl: int)
    | KillHTTP(id: string, sub: string, byPass: bool)
    | KillClose(id: string, port: int, byPass: bool)
    | KillDelete
    | KillMisses(id: string)
    | ReaperTick(at: int)
    | Collect(at: int, ttl: int)

  ghost predicate LiveHttp(s: State, id: string) {
    exists sub :: sub in s.http && s.http[sub].id == id
  }

  ghost predicate LiveTcp(s: State, id: string) {
    exists p :: p in s.tcp && s.tcp[p].id == id
  }

  /** The registry still has an entry with this id. */
  ghost predicate Live(s: State, id: string) {
    LiveHttp(s, id) || LiveTcp(s, id)
  }

  predicate HasPhase(s: State, id: string, kind: Kind) {
    id in s.requests && s.requests[id].tunnel.kind == kind
  }

  predicate WantedByPass(s: State, id: string) {
    s.pass.Some? && id in s.pass.value.todo
  }

  /** When the step may be taken. Steps under the registry lock wait for a kill in progress. */
  ghost predicate Enabled(s: State, step: Step) {
    match step
    case Advance(to) => to >= s.now
    case NewKey(key, max) => IsAPIKey(key) && key !in s.quotas.keys
    case Begin(id, session, kind, localPort) => id !in s.born
    case TryHTTP(id, sub) => s.kill.None? && HasPhase(s, id, Http) && s.requests[id].phase.Charged?
    case CheckPort(id, port) =>
      && s.kill.None? && HasPhase(s, id, Tcp) && s.requests[id].phase.Charged?
      && s.portMin <= port <= s.portMax
    case Listen(id) =>
      && HasPhase(s, id, Tcp) && s.requests[id].phase.Checked?
      && s.requests[id].phase.port !in s.bound
    case ListenFails(id) => HasPhase(s, id, Tcp) && s.requests[id].phase.Checked?
    case Recheck(id) => s.kill.None? && HasPhase(s, id, Tcp) && s.requests[id].phase.Listening?
    case CloseSpare(id) => HasPhase(s, id, Tcp) && s.requests[id].phase.Spare?
    case Refuse(id) => id in s.requests && s.requests[id].phase.Charged?
    case Snapshot(session) => s.kill.None? && session !in s.teardowns
    case Unregister(session, t) =>
      && s.kill.None? && session in s.teardowns
      && s.teardowns[session].work.Waiting? && t in s.teardowns[session].todo
    case CloseListener(session) => session in s.teardowns && s.teardowns[session].work.Closing?
    case RefundNext(session) => session in s.teardowns && s.teardowns[session].work.Refunding?
    case ReserveName(sub, ttl) => s.kill.None?
    case KillHTTP(id, sub, byPass) =>
      && s.kill.None? && sub in s.http && s.http[sub].id == id
      && (byPass ==> WantedByPass(s, id))
    case KillClose(id, port, byPass) =>
      && s.kill.None? && port in s.tcp && s.tcp[port].id == id && !LiveHttp(s, id)
      && (byPass ==> WantedByPass(s, id))
    case KillDelete => s.kill.Some?
    case KillMisses(id) => s.kill.None? && !Live(s, id) && WantedByPass(s, id)
    case ReaperTick(at) => s.kill.None? && at <= s.now
    case Collect(at, ttl) => s.kill.None? && at <= s.now && (s.pass.Some? ==> s.pass.value.todo == {})
  }

  function SetPhase(s: State, id: string, phase: Phase): State
    requires id in s.requests
  {
    s.(requests := s.requests[id := s.requests[id].(phase := phase)])
  }

  function SetWork(s: State, session: Session, work: Work): State
    requires session in s.teardowns
  {
    s.(teardowns := s.teardowns[session := s.teardowns[session].(work := work)])
  }

  /** Closing a listener frees its port; it does nothing to a later listener there. */
  function Unbind(bound: map<int, string>, port: int, id: string): map<int, string> {
    if port in bound && bound[port] == id then bound - {port} else bound
  }

  function PassDone(pass: Option<Pass>, id: string): Option<Pass> {
    match pass
    case None => None
    case Some(p) => Some(p.(todo := p.todo - {id}, done := p.done + {id}))
  }

  function OfSession(s: State, session: Session): set<Tunnel> {
    (set sub | sub in s.http && s.http[sub].session == session :: s.http[sub])
    + (set p | p in s.tcp && s.tcp[p].session == session :: s.tcp[p])
  }

  function TooOldIds(s: State, at: int, ttl: int): set<string> {
    (set sub | sub in s.http && !s.http[sub].reserved && AnonTooOld(s.http[sub], at, ttl) :: s.http[sub].id)
    + (set p | p in s.tcp && AnonTooOld(s.tcp[p], at, ttl) :: s.tcp[p].id)
  }

  /** Takes `id` off the books: one decrement of its token's counter. */
  function Repay(s: State, id: string, token: string): State {
    s.(quotas := Refund(s.quotas, token),
       owed := s.owed - {id},
       refunded := if IsAnon(token) then s.refunded else s.refunded + {id})
  }

  function ApplyBegin(s: State, id: string, session: Session, kind: Kind, localPort: int): State {
    var charge := Charge(s.quotas, session.token);
    var t := Tunnel(id, session.token, kind, "", 0, localPort, session, 0, false, 0);
    s.(quotas := if charge.Ok? then charge.value else s.quotas,
       born := s.born[id := Birth(session, kind)],
       owed := if charge.Ok? && !IsAnon(session.token) then s.owed + {id} else s.owed,
       requests := if charge.Ok? then s.requests[id := Request(t, Charged)] else s.requests)
  }

  function ApplyTryHTTP(s: State, id: string, sub: string): State
    requires id in s.requests
  {
    var t := s.requests[id].tunnel.(subdomain := sub);
    match RegisterHTTP(s.http, sub, t, s.now)
    case Err(_) => s
    case Ok(http) => s.(http := http, requests := s.requests - {id})
  }

  function ApplyRecheck(s: State, id: string): State
    requires id in s.requests && s.requests[id].phase.Listening?
  {
    var Listening(port, createdAt) := s.requests[id].phase;
    if port in s.tcp then SetPhase(s, id, Spare(port))
    else
      var t := s.requests[id].tunnel.(port := port, createdAt := createdAt);
      s.(tcp := s.tcp[port := t], requests := s.requests - {id})
  }

  /** What the teardown has to do after deleting the entry at the tunnel's name or port. */
  function AfterUnregister(s: State, t: Tunnel): Work {
    if t.kind == Tcp && t.port in s.tcp then Closing(t, s.tcp[t.port].id) else Refunding(t)
  }

  function ApplyUnregister(s: State, session: Session, t: Tunnel): State
    requires session in s.teardowns
  {
    var td := Teardown(s.teardowns[session].todo - {t}, AfterUnregister(s, t));
    s.(http := if t.kind == Http then s.http - {t.subdomain} else s.http,
       tcp := if t.kind == Tcp then s.tcp - {t.port} else s.tcp,
       teardowns := s.teardowns[session := td])
  }

  ghost function Apply(s: State, step: Step): State
    requires Enabled(s, step)
  {
    match step
    case Advance(to) => s.(now := to)
    case NewKey(key, max) => s.(quotas := s.quotas.(keys := s.quotas.keys[key := Slot(0, max)]))
    case Begin(id, session, kind, localPort) => ApplyBegin(s, id, session, kind, localPort)
    case TryHTTP(id, sub) => ApplyTryHTTP(s, id, sub)
    case CheckPort(id, port) => if port in s.tcp then s else SetPhase(s, id, Checked(port))
    case Listen(id) =>
      var port := s.requests[id].phase.port;
      SetPhase(s, id, Listening(port, s.now)).(bound := s.bound[port := id])
    case ListenFails(id) => SetPhase(s, id, Charged)
    case Recheck(id) => ApplyRecheck(s, id)
    case CloseSpare(id) =>
      SetPhase(s, id, Charged).(bound := Unbind(s.bound, s.requests[id].phase.port, id))
    case Refuse(id) =>
      Repay(s, id, s.requests[id].tunnel.token).(requests := s.requests - {id})
    case Snapshot(session) =>
      s.(teardowns := s.teardowns[session := Teardown(OfSession(s, session), Waiting)])
    case Unregister(session, t) => ApplyUnregister(s, session, t)
    case CloseListener(session) =>
      var Closing(t, listener) := s.teardowns[session].work;
      SetWork(s, session, Refunding(t)).(bound := Unbind(s.bound, t.port, listener))
    case RefundNext(session) =>
      SetWork(Repay(s, s.teardowns[session].work.t.id, session.token), session, Waiting)
    case ReserveName(sub, ttl) => s.(http := Reserve(s.http, sub, s.now + ttl))
    case KillHTTP(id, sub, byPass) =>
      s.(http := s.http - {sub}, pass := if byPass then PassDone(s.pass, id) else s.pass)
    case KillClose(id, port, byPass) =>
      s.(bound := Unbind(s.bound, port, id), kill := Some(Kill(id, port, byPass)))
    case KillDelete =>
      var k := s.kill.value;
      s.(tcp := s.tcp - {k.port}, kill := None, pass := if k.byPass then PassDone(s.pass, k.id) else s.pass)
    case KillMisses(id) => s.(pass := PassDone(s.pass, id))
    case ReaperTick(at) => s.(http := Reap(s.http, at))
    case Collect(at, ttl) => s.(pass := Some(Pass(at, ttl, TooOldIds(s, at, ttl), {})))
  }

  /** A server that has just started: nothing registered, nothing counted. */
  predicate Start(s: State) {
    && s.portMin <= s.portMax
    && s.http == map[] && s.tcp == map[] && s.bound == map[] && s.kill.None?
    && (forall k :: k in s.quotas.keys ==> s.quotas.keys[k].count == 0)
    && (forall t :: t in s.quotas.tokens ==> s.quotas.tokens[t].count == 0)
    && s.born == map[] && s.owed == {} && s.refunded == {}
    && s.requests == map[] && s.teardowns == map[] && s.pass.None?
  }

  /** A run: the states of the server and the steps between them. */
  ghost predicate IsRun(states: seq<State>, steps: seq<Step>) {
    && |states| == |steps| + 1
    && Start(states[0])
    && forall i {:trigger steps[i]} :: 0 <= i < |steps| ==>
         Enabled(states[i], steps[i]) && states[i + 1] == Apply(states[i], steps[i])
  }

  // ---------------------------------------------------------------- who is who

  /** The record is the one its id was drawn for. */
  predicate Genuine(s: State, t: Tunnel) {
    && t.id in s.born
    && s.born[t.id] == Birth(t.session, t.kind)
    && t.token == t.session.token
  }

  /** Every id names one tunnel: in flight, registered under its own name or port, or gone. */
  ghost predicate Identity(s: State) {
    && (forall sub :: sub in s.http ==>
          && Genuine(s, s.http[sub]) && s.http[sub].kind == Http && s.http[sub].id !in s.requests
          && s.http[sub].subdomain == sub)
    && (forall p :: p in s.tcp ==>
          && Genuine(s, s.tcp[p]) && s.tcp[p].kind == Tcp && s.tcp[p].id !in s.requests
          && s.tcp[p].port == p)
    && (forall a, b :: a in s.http && b in s.http && s.http[a].id == s.http[b].id ==> a == b)
    && (forall p, q :: p in s.tcp && q in s.tcp && s.tcp[p].id == s.tcp[q].id ==> p == q)
    && (forall id :: id in s.requests ==> Genuine(s, s.requests[id].tunnel) && s.requests[id].tunnel.id == id)
  }

  /** A tunnel that a teardown holds belongs to that session and, if it is still
      registered, sits under the name or port the teardown is going to delete. */
  ghost predicate Held(s: State, session: Session, t: Tunnel) {
    && Genuine(s, t) && t.session == session && t.id !in s.requests
    && (forall sub :: sub in s.http && s.http[sub].id == t.id ==> sub == t.subdomain)
    && (forall p :: p in s.tcp && s.tcp[p].id == t.id ==> p == t.port)
  }

  /** One teardown: it holds each of its tunnels once, and the one it is about to refund
      has left the registry. */
  ghost predicate Orderly(s: State, session: Session, td: Teardown) {
    && (forall t :: t in td.todo ==> Held(s, session, t))
    && (forall t, u :: t in td.todo && u in td.todo && t.id == u.id ==> t == u)
    && (!td.work.Waiting? ==>
          && Held(s, session, td.work.t) && !Live(s, td.work.t.id)
          && forall u :: u in td.todo ==> u.id != td.work.t.id)
  }

  ghost predicate Teardowns(s: State) {
    forall ses :: ses in s.teardowns ==> Orderly(s, ses, s.teardowns[ses])
  }

  // ---------------------------------------------------------------- steps that only thin out

  /** The same tunnel, reserved or not. */
  predicate SameTunnel(a: Tunnel, b: Tunnel) {
    a == b.(reserved := a.reserved, reservedUntil := a.reservedUntil)
  }

  /** Nothing enters the registry or the requests in flight. */
  ghost predicate Thins(s: State, s': State) {
    && s.now <= s'.now && s'.portMin == s.portMin && s'.portMax == s.portMax && s'.born == s.born
    && (forall sub :: sub in s'.http ==> sub in s.http && SameTunnel(s'.http[sub], s.http[sub]))
    && (forall p :: p in s'.tcp ==> p in s.tcp && s'.tcp[p] == s.tcp[p])
    && (forall id :: id in s'.requests ==> id in s.requests && s'.requests[id].tunnel == s.requests[id].tunnel)
  }

  predicate Grows(step: Step) {
    step.Begin? || step.TryHTTP? || step.Recheck?
  }

  predicate Settles(step: Step) {
    step.Begin? || step.NewKey? || step.Refuse? || step.RefundNext?
  }

  predicate TearsDown(step: Step) {
    step.Snapshot? || step.Unregister? || step.CloseListener? || step.RefundNext?
  }

  predicate Kills(step: Step) {
    step.KillHTTP? || step.KillClose? || step.KillDelete? || step.KillMisses? || step.Collect?
  }

  /** What a step leaves alone, read off its kind. */
  ghost predicate Frames(s: State, step: Step, s': State) {
    && (!Grows(step) ==> Thins(s, s'))
    && (!Settles(step) ==> s'.quotas == s.quotas && s'.owed == s.owed && s'.refunded == s.refunded)
    && (!TearsDown(step) ==> s'.teardowns == s.teardowns)
    && (!Kills(step) ==> s'.kill == s.kill && s'.pass == s.pass)
  }

  predicate Allocates(step: Step) {
    step.CheckPort? || step.Listen? || step.ListenFails? || step.Recheck? || step.CloseSpare?
  }

  lemma StepFrames(s: State, step: Step)
    requires Enabled(s, step)
    ensures Frames(s, step, Apply(s, step))
  {
    if TearsDown(step) {
      TeardownFrames(s, step);
    } else if Kills(step) {
      KillFrames(s, step);
    } else if Allocates(step) {
      PortFrames(s, step);
    } else if step.TryHTTP? {
      var s' := Apply(s, step);
      assert s' == ApplyTryHTTP(s, step.id, step.sub);
    } else {
      OtherFrames(s, step);
    }
  }

  lemma TeardownFrames(s: State, step: Step)
    requires Enabled(s, step) && TearsDown(step)
    ensures Frames(s, step, Apply(s, step))
  {
  }

  lemma KillFrames(s: State, step: Step)
    requires Enabled(s, step) && Kills(step)
    ensures Frames(s, step, Apply(s, step))
  {
  }

  lemma PortFrames(s: State, step: Step)
    requires Enabled(s, step) && Allocates(step)
    ensures Frames(s, step, Apply(s, step))
  {
  }

  lemma OtherFrames(s: State, step: Step)
    requires Enabled(s, step) && !TearsDown(step) && !Kills(step) && !Allocates(step) && !step.TryHTTP?
    ensures Frames(s, step, Apply(s, step))
  {
  }

  lemma IdentityThins(s: State, s': State)
    requires Identity(s) && Thins(s, s')
    ensures Identity(s')
  {
  }

  predicate Registering(step: Step) {
    step.TryHTTP? || step.Recheck?
  }

  /** The record that a registering step puts into the registry if it succeeds. */
  ghost function NewTunnel(s: State, step: Step): Tunnel
    requires Registering(step) && Enabled(s, step)
  {
    var t := s.requests[step.id].tunnel;
    if step.TryHTTP? then t.(subdomain := step.sub, createdAt := s.now)
    else t.(port := s.requests[step.id].phase.port, createdAt := s.requests[step.id].phase.createdAt)
  }

  /** `t` moves from the requests in flight into the registry; nothing else changes. */
  predicate Registers(s: State, s': State, t: Tunnel) {
    && t.id in s.requests
    && s.requests[t.id].tunnel.kind == t.kind
    && s' == s.(http := if t.kind == Http then s.http[t.subdomain := t] else s.http,
                tcp := if t.kind == Tcp then s.tcp[t.port := t] else s.tcp,
                requests := s.requests - {t.id})
  }

  /** A registering step registers, or it leaves the registry alone. A name that was held
      is taken over only from a reclaimable reservation of the same token. */
  lemma RegisterEffect(s: State, step: Step)
    requires Identity(s) && Enabled(s, step) && Registering(step)
    ensures var s', t := Apply(s, step), NewTunnel(s, step);
            || (Thins(s, s') && s'.http == s.http && s'.tcp == s.tcp)
            || (Registers(s, s', t) && Genuine(s, t)
                && (t.kind == Http && t.subdomain in s.http ==> Reclaimable(s.http[t.subdomain], t.token, s.now))
                && (t.kind == Http ==> ValidSubdomain(t.subdomain))
                && (t.kind == Tcp ==> t.port !in s.tcp))
  {
    if step.TryHTTP? {
      var t := NewTunnel(s, step);
      assert t.(createdAt := s.now) == t;
    }
  }

  lemma IdentityStep(s: State, step: Step)
    requires Identity(s) && Enabled(s, step)
    ensures Identity(Apply(s, step))
  {
    var s' := Apply(s, step);
    if step.Begin? {
      IdentityBegin(s, step);
    } else if Registering(step) {
      RegisterEffect(s, step);
      if Registers(s, s', NewTunnel(s, step)) {
        IdentityRegisters(s, s', NewTunnel(s, step));
      } else {
        IdentityThins(s, s');
      }
    } else {
      StepFrames(s, step);
      IdentityThins(s, s');
    }
  }

  lemma IdentityBegin(s: State, step: Step)
    requires Identity(s) && Enabled(s, step) && step.Begin?
    ensures Identity(Apply(s, step))
  {
    var s' := Apply(s, step);
    assert forall t :: Genuine(s, t) ==> Genuine(s', t);
  }

  lemma IdentityRegisters(s: State, s': State, t: Tunnel)
    requires Identity(s) && Registers(s, s', t) && Genuine(s, t)
    ensures Identity(s')
  {
    assert forall u :: Genuine(s, u) ==> Genuine(s', u);
  }

  // ---------------------------------------------------------------- what teardowns hold

  lemma TeardownsStep(s: State, step: Step)
    requires Identity(s) && Teardowns(s) && Enabled(s, step)
    ensures Teardowns(Apply(s, step))
  {
    var s' := Apply(s, step);
    StepFrames(s, step);
    forall ses | ses in s'.teardowns
      ensures Orderly(s', ses, s'.teardowns[ses])
    {
      if TearsDown(step) && step.session == ses {
        OrderlyOwnStep(s, step);
      } else {
        assert ses in s.teardowns && s'.teardowns[ses] == s.teardowns[ses];
        OrderlyOtherStep(s, step, ses, s.teardowns[ses]);
      }
    }
  }

  lemma OrderlyOtherStep(s: State, step: Step, ses: Session, td: Teardown)
    requires Identity(s) && Orderly(s, ses, td) && Enabled(s, step)
    ensures Orderly(Apply(s, step), ses, td)
  {
    var s' := Apply(s, step);
    if step.Begin? {
      OrderlyBegin(s, step, ses, td);
    } else {
      StepFrames(s, step);
      if Registering(step) {
        RegisterEffect(s, step);
        if Registers(s, s', NewTunnel(s, step)) {
          OrderlyRegisters(s, s', NewTunnel(s, step), ses, td);
        } else {
          OrderlyThins(s, s', ses, td);
        }
      } else {
        OrderlyThins(s, s', ses, td);
      }
    }
  }

  lemma LiveThins(s: State, s': State, id: string)
    requires Thins(s, s') && Live(s', id)
    ensures Live(s, id)
  {
    if LiveHttp(s', id) {
      var sub :| sub in s'.http && s'.http[sub].id == id;
      assert s.http[sub].id == id;
    } else {
      var p: int :| p in s'.tcp && s'.tcp[p].id == id;
      assert s.tcp[p].id == id;
    }
  }

  lemma OrderlyThins(s: State, s': State, ses: Session, td: Teardown)
    requires Orderly(s, ses, td) && Thins(s, s')
    ensures Orderly(s', ses, td)
  {
    assert forall t :: Held(s, ses, t) ==> Held(s', ses, t);
    if !td.work.Waiting? && Live(s', td.work.t.id) {
      LiveThins(s, s', td.work.t.id);
    }
  }

  lemma LiveRegisters(s: State, s': State, t: Tunnel, id: string)
    requires Registers(s, s', t) && Live(s', id) && id != t.id
    ensures Live(s, id)
  {
    if LiveHttp(s', id) {
      var sub :| sub in s'.http && s'.http[sub].id == id;
      assert s.http[sub].id == id;
    } else {
      var p: int :| p in s'.tcp && s'.tcp[p].id == id;
      assert s.tcp[p].id == id;
    }
  }

  lemma HeldRegisters(s: State, s': State, t: Tunnel, ses: Session, u: Tunnel)
    requires Registers(s, s', t) && Held(s, ses, u)
    ensures Held(s', ses, u) && u.id != t.id
  {
  }

  lemma OrderlyRegisters(s: State, s': State, t: Tunnel, ses: Session, td: Teardown)
    requires Orderly(s, ses, td) && Registers(s, s', t)
    ensures Orderly(s', ses, td)
  {
    forall u | u in td.todo
      ensures Held(s', ses, u)
    {
      HeldRegisters(s, s', t, ses, u);
    }
    if !td.work.Waiting? {
      HeldRegisters(s, s', t, ses, td.work.t);
      if Live(s', td.work.t.id) {
        LiveRegisters(s, s', t, td.work.t.id);
      }
    }
  }

  lemma OrderlyBegin(s: State, step: Step, ses: Session, td: Teardown)
    requires Orderly(s, ses, td) && Enabled(s, step) && step.Begin?
    ensures Orderly(Apply(s, step), ses, td)
  {
    var s' := Apply(s, step);
    assert forall u :: Held(s, ses, u) ==> Held(s', ses, u);
    assert forall id :: Live(s', id) <==> Live(s, id);
  }

  lemma OrderlyOwnStep(s: State, step: Step)
    requires Identity(s) && Teardowns(s) && Enabled(s, step) && TearsDown(step)
    ensures var s' := Apply(s, step); Orderly(s', step.session, s'.teardowns[step.session])
  {
    if step.Snapshot? {
      OrderlySnapshot(s, step.session);
    } else if step.Unregister? {
      OrderlyUnregister(s, step);
    } else {
      TeardownFrames(s, step);
      OrderlyThins(s, Apply(s, step), step.session, s.teardowns[step.session]);
    }
  }

  lemma OrderlySnapshot(s: State, session: Session)
    requires Identity(s) && Enabled(s, Snapshot(session))
    ensures var s' := Apply(s, Snapshot(session)); Orderly(s', session, s'.teardowns[session])
  {
    assert Orderly(s, session, Teardown(OfSession(s, session), Waiting));
    TeardownFrames(s, Snapshot(session));
    OrderlyThins(s, Apply(s, Snapshot(session)), session, Teardown(OfSession(s, session), Waiting));
  }

  /** Deleting by name removes the tunnel itself if it is still there. */
  lemma UnregisterRemoves(s: State, step: Step)
    requires Identity(s) && Teardowns(s) && Enabled(s, step) && step.Unregister?
    ensures !Live(Apply(s, step), step.t.id)
  {
    var s', t := Apply(s, step), step.t;
    assert s' == ApplyUnregister(s, step.session, t);
    HeldOnlyThere(s, step.session, t);
  }

  lemma HeldOnlyThere(s: State, session: Session, t: Tunnel)
    requires Identity(s) && Teardowns(s) && session in s.teardowns && t in s.teardowns[session].todo
    ensures forall sub :: sub in s.http && s.http[sub].id == t.id ==> sub == t.subdomain && t.kind == Http
    ensures forall p :: p in s.tcp && s.tcp[p].id == t.id ==> p == t.port && t.kind == Tcp
  {
    assert Orderly(s, session, s.teardowns[session]);
    assert Held(s, session, t);
  }

  lemma OrderlyUnregister(s: State, step: Step)
    requires Identity(s) && Teardowns(s) && Enabled(s, step) && step.Unregister?
    ensures var s' := Apply(s, step); Orderly(s', step.session, s'.teardowns[step.session])
  {
    TeardownFrames(s, step);
    UnregisterRemoves(s, step);
    OrderlyThins(s, Apply(s, step), step.session, s.teardowns[step.session]);
  }

  // ---------------------------------------------------------------- what is gone stays gone

  /** A tunnel that is neither registered nor on its way in. */
  ghost predicate Departed(s: State, id: string) {
    id in s.born && id !in s.requests && !Live(s, id)
  }

  lemma DepartedStep(s: State, step: Step, id: string)
    requires Identity(s) && Departed(s, id) && Enabled(s, step)
    ensures Departed(Apply(s, step), id)
  {
    var s' := Apply(s, step);
    if step.Begin? {
      assert s'.http == s.http && s'.tcp == s.tcp;
    } else {
      StepFrames(s, step);
      if Registering(step) {
        RegisterEffect(s, step);
      }
      if Live(s', id) {
        if Thins(s, s') {
          LiveThins(s, s', id);
        } else {
          LiveRegisters(s, s', NewTunnel(s, step), id);
        }
      }
    }
  }

  lemma {:induction false} IdentityAlways(states: seq<State>, steps: seq<Step>, i: nat)
    requires IsRun(states, steps) && i < |states|
    ensures Identity(states[i])
  {
    if i > 0 {
      IdentityAlways(states, steps, i - 1);
      IdentityStep(states[i - 1], steps[i - 1]);
    }
  }

  // ---------------------------------------------------------------- clock, keys and ports

  lemma ClockStep(s: State, step: Step)
    requires Enabled(s, step)
    ensures Apply(s, step).now == if step.Advance? then step.to else s.now
  {
    if TearsDown(step) || Kills(step) {
      SameClock(s, step);
    } else if step.TryHTTP? {
      assert Apply(s, step) == ApplyTryHTTP(s, step.id, step.sub);
    }
  }

  lemma SameClock(s: State, step: Step)
    requires Enabled(s, step) && (TearsDown(step) || Kills(step))
    ensures Apply(s, step).now == s.now
  {
  }

  /** The clock is where it was last advanced to, and never goes back. */
  lemma {:induction false} ClockIs(states: seq<State>, steps: seq<Step>, i: nat, j: nat)
    requires IsRun(states, steps) && i < j < |states|
    ensures states[i].now <= states[j].now
    ensures steps[i].Advance? && (forall k :: i < k < j ==> !steps[k].Advance?) ==> states[j].now == steps[i].to
    decreases j - i
  {
    assert Enabled(states[j - 1], steps[j - 1]) && states[j] == Apply(states[j - 1], steps[j - 1]);
    ClockStep(states[j - 1], steps[j - 1]);
    if i < j - 1 {
      ClockIs(states, steps, i, j - 1);
    }
  }

  /** The store keeps its tokens and their limits. */
  predicate KeepsLimits(before: Store, after: Store) {
    forall t :: t in before ==> t in after && after[t].max == before[t].max
  }

  lemma LimitsStep(s: State, step: Step)
    requires Enabled(s, step)
    ensures KeepsLimits(s.quotas.keys, Apply(s, step).quotas.keys)
    ensures KeepsLimits(s.quotas.tokens, Apply(s, step).quotas.tokens)
  {
    if !Settles(step) {
      StepFrames(s, step);
    }
  }

  /** A key is created once, and the limit it is created with is its limit in every later state. */
  lemma {:induction false} KeyKeepsLimit(states: seq<State>, steps: seq<Step>, i: nat, j: nat)
    requires IsRun(states, steps) && i < j < |states| && steps[i].NewKey?
    ensures steps[i].key !in states[i].quotas.keys && "htk_" <= steps[i].key
    ensures var keys := states[j].quotas.keys;
            steps[i].key in keys && keys[steps[i].key].max == steps[i].max
            && (j == i + 1 ==> keys[steps[i].key].count == 0)
    decreases j - i
  {
    assert Enabled(states[j - 1], steps[j - 1]) && states[j] == Apply(states[j - 1], steps[j - 1]);
    if i < j - 1 {
      KeyKeepsLimit(states, steps, i, j - 1);
      LimitsStep(states[j - 1], steps[j - 1]);
    }
  }

  // ---------------------------------------------------------------- the registry lock

  /** While a kill is between its two steps it has the registry to itself: nobody else reads or
      writes it, and what goes on are clocks, charges, refunds and listeners. */
  lemma KillExcludesOthers(s: State, step: Step)
    requires Enabled(s, step) && s.kill.Some? && !step.KillDelete?
    ensures || step.Advance? || step.NewKey? || step.Begin? || step.Refuse? || step.RefundNext?
            || step.Listen? || step.ListenFails? || step.CloseSpare? || step.CloseListener?
    ensures var s' := Apply(s, step);
            && s'.http == s.http && s'.tcp == s.tcp && s'.kill == s.kill && s'.pass == s.pass
            && forall ses :: ses in s'.teardowns ==> ses in s.teardowns && s'.teardowns[ses].todo == s.teardowns[ses].todo
  {
  }

  /** A pass of the expiry begins only when the last one has worked off its list. */
  lemma PassesDoNotOverlap(s: State, step: Step)
    requires Enabled(s, step) && step.Collect? && s.pass.Some?
    ensures s.pass.value.todo == {} && Apply(s, step).pass.value.at <= s.now
  {
  }
}
