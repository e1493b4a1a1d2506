/**
 What the control plane can always still do: a tunnel goes through its life and leaves nothing
 behind, and no request, teardown or expiry pass is ever stuck. The safety results hold of
 these continuations as of every other.
 (internal/server/server.go, internal/server/tunnel_manager.go)
 */
module Lifecycle {
  import opened Names
  import opened Tunnels
  import opened Quotas
  import opened ControlPlane
  import opened QuotaSafety

  /** The steps can be taken from `s`, one after the other, and end in `s'`. */
  ghost predicate Leads(s: State, steps: seq<Step>, s': State)
    decreases |steps|
  {
    if steps == [] then s' == s
    else Enabled(s, steps[0]) && Leads(Apply(s, steps[0]), steps[1..], s')
  }

  lemma {:induction false} LeadsOn(s: State, a: seq<Step>, mid: State, b: seq<Step>, s': State)
    requires Leads(s, a, mid) && Leads(mid, b, s')
    ensures Leads(s, a + b, s')
    decreases |a|
  {
    if a == [] {
      assert a + b == b;
    } else {
      LeadsOn(Apply(s, a[0]), a[1..], mid, b, s');
      assert (a + b)[1..] == a[1..] + b;
    }
  }

  lemma ThenStep(s: State, a: seq<Step>, mid: State, step: Step)
    requires Leads(s, a, mid) && Enabled(mid, step)
    ensures Leads(s, a + [step], Apply(mid, step))
  {
    var end := Apply(mid, step);
    assert [step][0] == step && [step][1..] == [];
    assert Leads(end, [], end);
    assert Leads(mid, [step], end);
    LeadsOn(s, a, mid, [step], end);
  }

  /** A continuation of a run is a run. */
  lemma {:induction false} RunGoesOn(states: seq<State>, steps: seq<Step>, more: seq<Step>, s': State)
    returns (states': seq<State>)
    requires IsRun(states, steps) && Leads(states[|steps|], more, s')
    ensures IsRun(states', steps + more) && states <= states' && states'[|steps + more|] == s'
    decreases |more|
  {
    if more == [] {
      states' := states;
      assert steps + more == steps;
    } else {
      var next := Apply(states[|steps|], more[0]);
      var longer := states + [next];
      assert IsRun(longer, steps + [more[0]]);
      states' := RunGoesOn(longer, steps + [more[0]], more[1..], s');
      assert steps + [more[0]] + more[1..] == steps + more;
    }
  }

  // ---------------------------------------------------------------- a whole life

  /** A tunnel of the session may be charged to its token. */
  predicate HasRoom(q: Quotas, token: string) {
    || "anon:" <= token
    || (if "htk_" <= token then token in q.keys && q.keys[token].count < q.keys[token].max
        else token in q.tokens && q.tokens[token].count < q.tokens[token].max)
  }

  ghost predicate HasNothing(s: State, session: Session) {
    && session !in s.teardowns
    && (forall sub :: sub in s.http ==> s.http[sub].session != session)
    && (forall p :: p in s.tcp ==> s.tcp[p].session != session)
  }

  /** The id has never been used. */
  ghost predicate NewId(s: State, id: string) {
    id !in s.born && id !in s.requests && id !in s.owed
  }

  lemma NewIds(states: seq<State>, steps: seq<Step>, i: nat, id: string)
    requires IsRun(states, steps) && i < |states| && id !in states[i].born
    ensures NewId(states[i], id)
  {
    BooksAlways(states, steps, i);
    assert forall other :: other in states[i].requests ==> Genuine(states[i], states[i].requests[other].tunnel);
  }

  /** The server with one tunnel of a new id charged. */
  ghost function Charging(s: State, id: string, session: Session, kind: Kind): State
    requires Charge(s.quotas, session.token).Ok?
  {
    s.(quotas := Charge(s.quotas, session.token).value,
       born := s.born[id := Birth(session, kind)],
       owed := if IsAnon(session.token) then s.owed else s.owed + {id})
  }

  lemma Begins(s: State, id: string, session: Session, kind: Kind, localPort: int)
    requires NewId(s, id) && HasRoom(s.quotas, session.token)
    ensures Charge(s.quotas, session.token).Ok? && Enabled(s, Begin(id, session, kind, localPort))
    ensures Apply(s, Begin(id, session, kind, localPort))
            == Charging(s, id, session, kind).(
                 requests := s.requests[id := Request(Tunnel(id, session.token, kind, "", 0, localPort, session, 0, false, 0), Charged)])
  {
  }

  /** The server with this tunnel charged and registered. */
  ghost function Serving(s: State, t: Tunnel): State
    requires Charge(s.quotas, t.session.token).Ok?
  {
    Charging(s, t.id, t.session, t.kind).(
      http := if t.kind == Http then s.http[t.subdomain := t] else s.http,
      tcp := if t.kind == Tcp then s.tcp[t.port := t] else s.tcp,
      bound := if t.kind == Tcp then s.bound[t.port := t.id] else s.bound)
  }

  /** And after its session has been torn down: the id is used up, and that is all. */
  ghost function Afterwards(s: State, t: Tunnel): State {
    s.(born := s.born[t.id := Birth(t.session, t.kind)],
       refunded := if IsAnon(t.session.token) then s.refunded else s.refunded + {t.id},
       teardowns := s.teardowns[t.session := Teardown({}, Waiting)])
  }

  lemma Registers(s: State, id: string, session: Session, localPort: int, sub: string)
    requires s.kill.None? && NewId(s, id) && HasRoom(s.quotas, session.token)
    requires ValidSubdomain(sub) && sub !in s.http
    ensures Charge(s.quotas, session.token).Ok?
    ensures Leads(s, [Begin(id, session, Http, localPort), TryHTTP(id, sub)],
                  Serving(s, Tunnel(id, session.token, Http, sub, 0, localPort, session, s.now, false, 0)))
  {
    Begins(s, id, session, Http, localPort);
    var begin, try := Begin(id, session, Http, localPort), TryHTTP(id, sub);
    var mid := Apply(s, begin);
    assert mid.requests - {id} == s.requests;
    assert Apply(mid, try) == Serving(s, Tunnel(id, session.token, Http, sub, 0, localPort, session, s.now, false, 0));
    assert Leads(s, [], s);
    ThenStep(s, [], s, begin);
    ThenStep(s, [] + [begin], mid, try);
    assert [] + [begin] + [try] == [begin, try];
  }

  lemma FourSteps(s: State, a: Step, s1: State, b: Step, s2: State, c: Step, s3: State, d: Step, s4: State)
    requires Enabled(s, a) && Apply(s, a) == s1 && Enabled(s1, b) && Apply(s1, b) == s2
    requires Enabled(s2, c) && Apply(s2, c) == s3 && Enabled(s3, d) && Apply(s3, d) == s4
    ensures Leads(s, [a, b, c, d], s4)
  {
    ThenStep(s, [], s, a);
    ThenStep(s, [a], s1, b);
    ThenStep(s, [a, b], s2, c);
    ThenStep(s, [a, b, c], s3, d);
    assert [] + [a] == [a] && [a] + [b] == [a, b] && [a, b] + [c] == [a, b, c] && [a, b, c] + [d] == [a, b, c, d];
  }

  /** A TCP request that has been charged, in this phase. */
  ghost function Allocating(s: State, t: Tunnel, phase: Phase): State
    requires Charge(s.quotas, t.session.token).Ok?
  {
    Charging(s, t.id, t.session, Tcp).(requests := s.requests[t.id := Request(t, phase)])
  }

  lemma SeesPortFree(s: State, t: Tunnel, port: int)
    requires s.kill.None? && NewId(s, t.id) && HasRoom(s.quotas, t.session.token)
    requires t == Tunnel(t.id, t.session.token, Tcp, "", 0, t.localPort, t.session, 0, false, 0)
    requires s.portMin <= port <= s.portMax && port !in s.tcp
    ensures Charge(s.quotas, t.session.token).Ok?
    ensures Leads(s, [Begin(t.id, t.session, Tcp, t.localPort), CheckPort(t.id, port)], Allocating(s, t, Checked(port)))
  {
    Begins(s, t.id, t.session, Tcp, t.localPort);
    var begin, look := Begin(t.id, t.session, Tcp, t.localPort), CheckPort(t.id, port);
    var s1 := Allocating(s, t, Charged);
    PortIsChecked(s1, t.id, t, port, Allocating(s, t, Checked(port)));
    ThenStep(s, [], s, begin);
    ThenStep(s, [] + [begin], s1, look);
    assert [] + [begin] + [look] == [begin, look];
  }

  lemma TakesPort(s: State, t: Tunnel, port: int)
    requires s.kill.None? && NewId(s, t.id) && t.kind == Tcp && Charge(s.quotas, t.session.token).Ok?
    requires port !in s.tcp && port !in s.bound
    ensures Leads(Allocating(s, t, Checked(port)), [Listen(t.id), Recheck(t.id)],
                  Serving(s, t.(port := port, createdAt := s.now)))
  {
    var s2 := Allocating(s, t, Checked(port));
    var s3 := Allocating(s, t, Listening(port, s.now)).(bound := s.bound[port := t.id]);
    PortIsBound(s2, t.id, t, port, s3);
    PortIsRegistered(s3, s.requests, t.id, t, port, Serving(s, t.(port := port, createdAt := s.now)));
    ThenStep(s2, [], s2, Listen(t.id));
    ThenStep(s2, [] + [Listen(t.id)], s3, Recheck(t.id));
    assert [] + [Listen(t.id)] + [Recheck(t.id)] == [Listen(t.id), Recheck(t.id)];
  }

  lemma GetsPort(s: State, id: string, session: Session, localPort: int, port: int)
    requires s.kill.None? && NewId(s, id) && HasRoom(s.quotas, session.token)
    requires s.portMin <= port <= s.portMax && port !in s.tcp && port !in s.bound
    ensures Charge(s.quotas, session.token).Ok?
    ensures Leads(s, [Begin(id, session, Tcp, localPort), CheckPort(id, port), Listen(id), Recheck(id)],
                  Serving(s, Tunnel(id, session.token, Tcp, "", port, localPort, session, s.now, false, 0)))
  {
    var t := Tunnel(id, session.token, Tcp, "", 0, localPort, session, 0, false, 0);
    SeesPortFree(s, t, port);
    TakesPort(s, t, port);
    var a, b := [Begin(id, session, Tcp, localPort), CheckPort(id, port)], [Listen(id), Recheck(id)];
    LeadsOn(s, a, Allocating(s, t, Checked(port)), b, Serving(s, t.(port := port, createdAt := s.now)));
    assert a + b == [Begin(id, session, Tcp, localPort), CheckPort(id, port), Listen(id), Recheck(id)];
  }

  lemma PortIsChecked(s: State, id: string, t: Tunnel, port: int, s': State)
    requires s.kill.None? && id in s.requests && s.requests[id] == Request(t, Charged) && t.kind == Tcp
    requires s.portMin <= port <= s.portMax && port !in s.tcp
    requires s' == s.(requests := s.requests[id := Request(t, Checked(port))])
    ensures Enabled(s, CheckPort(id, port)) && Apply(s, CheckPort(id, port)) == s'
  {
  }

  lemma PortIsBound(s: State, id: string, t: Tunnel, port: int, s': State)
    requires id in s.requests && s.requests[id] == Request(t, Checked(port)) && t.kind == Tcp && port !in s.bound
    requires s' == s.(requests := s.requests[id := Request(t, Listening(port, s.now))], bound := s.bound[port := id])
    ensures Enabled(s, Listen(id)) && Apply(s, Listen(id)) == s'
  {
  }

  lemma PortIsRegistered(s: State, others: map<string, Request>, id: string, t: Tunnel, port: int, s': State)
    requires id !in others && s.requests == others[id := Request(t, Listening(port, s.now))] && t.kind == Tcp
    requires s.kill.None? && port !in s.tcp
    requires s' == s.(requests := others, tcp := s.tcp[port := t.(port := port, createdAt := s.now)])
    ensures Enabled(s, Recheck(id)) && Apply(s, Recheck(id)) == s'
  {
    assert s.requests - {id} == others;
  }

  // ---------------------------------------------------------------- and its end

  lemma FoundAlone(s: State, t: Tunnel)
    requires HasNothing(s, t.session) && Charge(s.quotas, t.session.token).Ok?
    requires t.kind == Http ==> t.subdomain !in s.http
    requires t.kind == Tcp ==> t.port !in s.tcp
    ensures OfSession(Serving(s, t), t.session) == {t}
  {
    var s' := Serving(s, t);
    if t.kind == Http {
      assert s'.http[t.subdomain] == t;
    } else {
      assert s'.tcp[t.port] == t;
    }
  }

  /** The tunnel's entry and listener are gone; its charge is still to be refunded. */
  ghost function Unregistered(s: State, t: Tunnel, work: Work): State
    requires Charge(s.quotas, t.session.token).Ok?
  {
    Charging(s, t.id, t.session, t.kind).(teardowns := s.teardowns[t.session := Teardown({}, work)])
  }

  lemma RefundEnds(s: State, t: Tunnel)
    requires NewId(s, t.id) && Charge(s.quotas, t.session.token).Ok?
    ensures var s1 := Unregistered(s, t, Refunding(t));
            Enabled(s1, RefundNext(t.session)) && Apply(s1, RefundNext(t.session)) == Afterwards(s, t)
  {
    RefundUndoesCharge(s.quotas, t.session.token);
    assert s.owed + {t.id} - {t.id} == s.owed && s.owed - {t.id} == s.owed;
  }

  lemma SnapshotOfOne(s: State, t: Tunnel)
    requires s.kill.None? && HasNothing(s, t.session) && Charge(s.quotas, t.session.token).Ok?
    requires t.kind == Http ==> t.subdomain !in s.http
    requires t.kind == Tcp ==> t.port !in s.tcp
    ensures var s', step := Serving(s, t), Snapshot(t.session);
            && Enabled(s', step)
            && Apply(s', step) == s'.(teardowns := s.teardowns[t.session := Teardown({t}, Waiting)])
  {
    FoundAlone(s, t);
  }

  lemma NameIsDropped(s: State, t: Tunnel)
    requires s.kill.None? && Charge(s.quotas, t.session.token).Ok? && t.kind == Http && t.subdomain !in s.http
    ensures var s' := Serving(s, t).(teardowns := s.teardowns[t.session := Teardown({t}, Waiting)]);
            && Enabled(s', Unregister(t.session, t))
            && Apply(s', Unregister(t.session, t)) == Unregistered(s, t, Refunding(t))
  {
    assert s.http[t.subdomain := t] - {t.subdomain} == s.http;
    assert {t} - {t} == {};
  }

  lemma PortIsDropped(s: State, t: Tunnel)
    requires s.kill.None? && Charge(s.quotas, t.session.token).Ok? && t.kind == Tcp && t.port !in s.tcp
    ensures var s' := Serving(s, t).(teardowns := s.teardowns[t.session := Teardown({t}, Waiting)]);
            && Enabled(s', Unregister(t.session, t))
            && Apply(s', Unregister(t.session, t))
               == Unregistered(s, t, Closing(t, t.id)).(bound := s.bound[t.port := t.id])
  {
    assert s.tcp[t.port := t] - {t.port} == s.tcp;
    assert {t} - {t} == {};
  }

  lemma ListenerIsClosed(s: State, t: Tunnel)
    requires Charge(s.quotas, t.session.token).Ok? && t.port !in s.bound
    ensures var s' := Unregistered(s, t, Closing(t, t.id)).(bound := s.bound[t.port := t.id]);
            && Enabled(s', CloseListener(t.session))
            && Apply(s', CloseListener(t.session)) == Unregistered(s, t, Refunding(t))
  {
    assert s.bound[t.port := t.id] - {t.port} == s.bound;
  }

  /** The teardown of a session with this one tunnel. */
  function EndOf(t: Tunnel): seq<Step> {
    if t.kind == Http then [Snapshot(t.session), Unregister(t.session, t), RefundNext(t.session)]
    else [Snapshot(t.session), Unregister(t.session, t), CloseListener(t.session), RefundNext(t.session)]
  }

  lemma EndsClean(s: State, t: Tunnel)
    requires s.kill.None? && NewId(s, t.id) && HasNothing(s, t.session) && Charge(s.quotas, t.session.token).Ok?
    requires t.kind == Http ==> t.subdomain !in s.http
    requires t.kind == Tcp ==> t.port !in s.tcp && t.port !in s.bound
    ensures Leads(Serving(s, t), EndOf(t), Afterwards(s, t))
  {
    var s0 := Serving(s, t);
    var s1 := s0.(teardowns := s.teardowns[t.session := Teardown({t}, Waiting)]);
    var s3 := Unregistered(s, t, Refunding(t));
    var snapshot, unregister, refund := Snapshot(t.session), Unregister(t.session, t), RefundNext(t.session);
    SnapshotOfOne(s, t);
    RefundEnds(s, t);
    if t.kind == Http {
      NameIsDropped(s, t);
      ThenStep(s0, [], s0, snapshot);
      ThenStep(s0, [] + [snapshot], s1, unregister);
      ThenStep(s0, [] + [snapshot] + [unregister], s3, refund);
      assert [] + [snapshot] + [unregister] + [refund] == EndOf(t);
    } else {
      PortIsDropped(s, t);
      ListenerIsClosed(s, t);
      var s2 := Unregistered(s, t, Closing(t, t.id)).(bound := s.bound[t.port := t.id]);
      FourSteps(s0, snapshot, s1, unregister, s2, CloseListener(t.session), s3, refund, Afterwards(s, t));
    }
  }

  /** In every run, while no kill holds the lock: a session whose token has room can register a
      free name, and its teardown then leaves registry, listeners, requests and counters as they
      were before. */
  lemma HTTPLife(states: seq<State>, steps: seq<Step>, id: string, session: Session, localPort: int, sub: string)
    requires IsRun(states, steps)
    requires var s := states[|steps|];
             && s.kill.None? && id !in s.born && HasRoom(s.quotas, session.token) && HasNothing(s, session)
             && ValidSubdomain(sub) && sub !in s.http
    ensures var s := states[|steps|];
            var t := Tunnel(id, session.token, Http, sub, 0, localPort, session, s.now, false, 0);
            exists mid ::
              && Leads(s, [Begin(id, session, Http, localPort), TryHTTP(id, sub)], mid)
              && mid.http == s.http[sub := t] && mid.tcp == s.tcp && mid.bound == s.bound && mid.requests == s.requests
              && Leads(mid, EndOf(t), Afterwards(s, t))
  {
    var s := states[|steps|];
    NewIds(states, steps, |steps|, id);
    Registers(s, id, session, localPort, sub);
    EndsClean(s, Tunnel(id, session.token, Http, sub, 0, localPort, session, s.now, false, 0));
  }

  /** Likewise a free port. */
  lemma TCPLife(states: seq<State>, steps: seq<Step>, id: string, session: Session, localPort: int, port: int)
    requires IsRun(states, steps)
    requires var s := states[|steps|];
             && s.kill.None? && id !in s.born && HasRoom(s.quotas, session.token) && HasNothing(s, session)
             && s.portMin <= port <= s.portMax && port !in s.tcp && port !in s.bound
    ensures var s := states[|steps|];
            var t := Tunnel(id, session.token, Tcp, "", port, localPort, session, s.now, false, 0);
            exists mid ::
              && Leads(s, [Begin(id, session, Tcp, localPort), CheckPort(id, port), Listen(id), Recheck(id)], mid)
              && mid.tcp == s.tcp[port := t] && mid.bound == s.bound[port := id]
              && mid.http == s.http && mid.requests == s.requests
              && Leads(mid, EndOf(t), Afterwards(s, t))
  {
    var s := states[|steps|];
    NewIds(states, steps, |steps|, id);
    GetsPort(s, id, session, localPort, port);
    EndsClean(s, Tunnel(id, session.token, Tcp, "", port, localPort, session, s.now, false, 0));
  }

  // ---------------------------------------------------------------- nobody is stuck

  lemma Nothing(s: State)
    ensures Leads(s, [], s)
  {
  }

  /** A kill in progress can end, and moves no request and no teardown. */
  lemma LockComesFree(s: State) returns (steps: seq<Step>, s': State)
    ensures Leads(s, steps, s') && s'.kill.None?
    ensures s'.requests == s.requests && s'.teardowns == s.teardowns
    ensures s.kill.None? ==> s' == s
  {
    Nothing(s);
    if s.kill.None? {
      steps, s' := [], s;
    } else {
      ThenStep(s, [], s, KillDelete);
      steps, s' := [] + [KillDelete], Apply(s, KillDelete);
    }
  }

  /** The turn that the teardown is at can end. */
  lemma TurnMayEnd(s: State, session: Session) returns (steps: seq<Step>, s': State)
    requires session in s.teardowns
    ensures Leads(s, steps, s') && s'.kill == s.kill && session in s'.teardowns
    ensures s'.teardowns[session] == Teardown(s.teardowns[session].todo, Waiting)
  {
    Nothing(s);
    steps, s' := [], s;
    if s'.teardowns[session].work.Closing? {
      ThenStep(s, steps, s', CloseListener(session));
      steps, s' := steps + [CloseListener(session)], Apply(s', CloseListener(session));
    }
    if s'.teardowns[session].work.Refunding? {
      ThenStep(s, steps, s', RefundNext(session));
      steps, s' := steps + [RefundNext(session)], Apply(s', RefundNext(session));
    }
  }

  lemma NextTurn(s: State, session: Session, t: Tunnel)
    requires s.kill.None? && session in s.teardowns && s.teardowns[session].work.Waiting?
    requires t in s.teardowns[session].todo
    ensures Enabled(s, Unregister(session, t))
    ensures var s' := Apply(s, Unregister(session, t));
            && s'.kill.None? && session in s'.teardowns
            && s'.teardowns[session].todo == s.teardowns[session].todo - {t}
  {
  }

  /** A teardown can always work off its list, whatever the other goroutines have done. */
  lemma {:induction false} TeardownMayEnd(s: State, session: Session) returns (steps: seq<Step>, s': State)
    requires s.kill.None? && session in s.teardowns
    ensures Leads(s, steps, s') && session in s'.teardowns && s'.teardowns[session] == Teardown({}, Waiting)
    decreases |s.teardowns[session].todo|
  {
    steps, s' := TurnMayEnd(s, session);
    if s'.teardowns[session].todo != {} {
      var t :| t in s'.teardowns[session].todo;
      NextTurn(s', session, t);
      ThenStep(s, steps, s', Unregister(session, t));
      var rest, end := TeardownMayEnd(Apply(s', Unregister(session, t)), session);
      LeadsOn(s, steps + [Unregister(session, t)], Apply(s', Unregister(session, t)), rest, end);
      steps, s' := steps + [Unregister(session, t)] + rest, end;
    }
  }

  /** Only TCP requests look for a port. */
  ghost predicate PhasesFit(s: State) {
    forall id :: id in s.requests && !s.requests[id].phase.Charged? ==> s.requests[id].tunnel.kind == Tcp
  }

  lemma PhasesFitStep(s: State, step: Step)
    requires PhasesFit(s) && Enabled(s, step)
    ensures PhasesFit(Apply(s, step))
  {
    if TearsDown(step) || Kills(step) {
      SameRequests(s, step);
    } else if Allocates(step) {
      PortPhasesFit(s, step);
    } else {
      OtherPhasesFit(s, step);
    }
  }

  lemma SameRequests(s: State, step: Step)
    requires Enabled(s, step) && (TearsDown(step) || Kills(step))
    ensures Apply(s, step).requests == s.requests
  {
  }

  lemma PortPhasesFit(s: State, step: Step)
    requires PhasesFit(s) && Enabled(s, step) && Allocates(step)
    ensures PhasesFit(Apply(s, step))
  {
  }

  lemma OtherPhasesFit(s: State, step: Step)
    requires PhasesFit(s) && Enabled(s, step) && !TearsDown(step) && !Kills(step) && !Allocates(step)
    ensures PhasesFit(Apply(s, step))
  {
  }

  lemma {:induction false} PhasesFitAlways(states: seq<State>, steps: seq<Step>, i: nat)
    requires IsRun(states, steps) && i < |states|
    ensures PhasesFit(states[i])
  {
    if i > 0 {
      PhasesFitAlways(states, steps, i - 1);
      PhasesFitStep(states[i - 1], steps[i - 1]);
    }
  }

  lemma RefusalEnds(s: State, steps: seq<Step>, s': State, id: string) returns (steps': seq<Step>, end: State)
    requires Leads(s, steps, s') && id in s'.requests && s'.requests[id].phase.Charged?
    ensures Leads(s, steps', end) && id !in end.requests
  {
    ThenStep(s, steps, s', Refuse(id));
    steps', end := steps + [Refuse(id)], Apply(s', Refuse(id));
  }

  /** A spare listener is closed, a port that was only looked at is given up. */
  lemma PortGivenUp(s: State, id: string) returns (step: Step)
    requires HasPhase(s, id, Tcp) && (s.requests[id].phase.Checked? || s.requests[id].phase.Spare?)
    ensures Enabled(s, step) && id in Apply(s, step).requests && Apply(s, step).requests[id].phase.Charged?
  {
    step := if s.requests[id].phase.Checked? then ListenFails(id) else CloseSpare(id);
  }

  lemma SecondLook(s: State, id: string)
    requires s.kill.None? && HasPhase(s, id, Tcp) && s.requests[id].phase.Listening?
    ensures Enabled(s, Recheck(id))
    ensures var s' := Apply(s, Recheck(id)); id in s'.requests ==> HasPhase(s', id, Tcp) && s'.requests[id].phase.Spare?
  {
  }

  /** A request in flight can always come to its end, registered or refused and refunded. */
  lemma RequestMayEnd(states: seq<State>, steps: seq<Step>, id: string) returns (more: seq<Step>, s': State)
    requires IsRun(states, steps) && id in states[|steps|].requests
    ensures Leads(states[|steps|], more, s') && id !in s'.requests
  {
    var s := states[|steps|];
    PhasesFitAlways(states, steps, |steps|);
    more, s' := LockComesFree(s);
    if s'.requests[id].phase.Listening? {
      SecondLook(s', id);
      ThenStep(s, more, s', Recheck(id));
      more, s' := more + [Recheck(id)], Apply(s', Recheck(id));
      if id !in s'.requests {
        return;
      }
    }
    if !s'.requests[id].phase.Charged? {
      var step := PortGivenUp(s', id);
      ThenStep(s, more, s', step);
      more, s' := more + [step], Apply(s', step);
    }
    more, s' := RefusalEnds(s, more, s', id);
  }

  /** What one kill for the expiry achieves. */
  ghost predicate OneLess(s: State, s': State, id: string)
    requires s.pass.Some?
  {
    s'.kill.None? && s'.pass.Some? && s'.pass.value.todo == s.pass.value.todo - {id}
  }

  lemma HttpVictimGoes(s: State, id: string) returns (step: Step)
    requires s.kill.None? && WantedByPass(s, id) && LiveHttp(s, id)
    ensures Enabled(s, step) && OneLess(s, Apply(s, step), id)
  {
    var sub :| sub in s.http && s.http[sub].id == id;
    step := KillHTTP(id, sub, true);
  }

  lemma TcpVictimGoes(s: State, id: string) returns (close: Step)
    requires s.kill.None? && WantedByPass(s, id) && LiveTcp(s, id) && !LiveHttp(s, id)
    ensures Enabled(s, close) && Enabled(Apply(s, close), KillDelete)
    ensures OneLess(s, Apply(Apply(s, close), KillDelete), id)
  {
    var p: int :| p in s.tcp && s.tcp[p].id == id;
    close := KillClose(id, p, true);
  }

  /** One victim of the expiry is dealt with. */
  lemma VictimGoes(s: State, id: string) returns (steps: seq<Step>, s': State)
    requires s.kill.None? && WantedByPass(s, id)
    ensures Leads(s, steps, s') && OneLess(s, s', id)
  {
    Nothing(s);
    if LiveHttp(s, id) {
      var kill := HttpVictimGoes(s, id);
      ThenStep(s, [], s, kill);
      steps, s' := [] + [kill], Apply(s, kill);
    } else if LiveTcp(s, id) {
      var close := TcpVictimGoes(s, id);
      ThenStep(s, [], s, close);
      ThenStep(s, [] + [close], Apply(s, close), KillDelete);
      steps, s' := [] + [close] + [KillDelete], Apply(Apply(s, close), KillDelete);
    } else {
      ThenStep(s, [], s, KillMisses(id));
      steps, s' := [] + [KillMisses(id)], Apply(s, KillMisses(id));
    }
  }

  /** The anonymous expiry can always work off its list. */
  lemma {:induction false} ExpiryMayEnd(s: State) returns (steps: seq<Step>, s': State)
    requires s.kill.None? && s.pass.Some?
    ensures Leads(s, steps, s') && s'.kill.None? && s'.pass.Some? && s'.pass.value.todo == {}
    decreases |s.pass.value.todo|
  {
    if s.pass.value.todo == {} {
      Nothing(s);
      steps, s' := [], s;
    } else {
      var id :| id in s.pass.value.todo;
      var first, mid := VictimGoes(s, id);
      var rest, end := ExpiryMayEnd(mid);
      LeadsOn(s, first, mid, rest, end);
      steps, s' := first + rest, end;
    }
  }

  /** While no kill holds the lock the reaper may tick with the present time and, unless it is
      still at work, the expiry may start a pass; a session may begin its teardown, once. */
  lemma TickersMayRun(s: State, ttl: int, session: Session)
    requires s.kill.None?
    ensures Enabled(s, ReaperTick(s.now))
    ensures (s.pass.Some? ==> s.pass.value.todo == {}) ==> Enabled(s, Collect(s.now, ttl))
    ensures Enabled(s, Snapshot(session)) <==> session !in s.teardowns
  {
  }
}
