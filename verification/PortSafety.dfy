/**
 Over every run of the control plane: which ports the server listens on. The operating
 system gives a port to at most one listener (a Listen step needs the port unbound); that
 is all that is assumed, and under it the second look of RegisterTCP never finds the port
 taken, not even while a kill has closed a listener and not yet deleted its entry.
 */
module PortSafety {
  import opened Tunnels
  import opened ControlPlane

  // ---------------------------------------------------------------- the invariant

  /** The entry's listener was closed by the kill that holds the lock. */
  predicate BeingKilled(s: State, port: int) {
    s.kill.Some? && s.kill.value.port == port
  }

  predicate Allocating(s: State, id: string, port: int) {
    id in s.requests && s.requests[id].phase.Listening? && s.requests[id].phase.port == port
  }

  predicate ClosingAt(s: State, ses: Session, port: int) {
    ses in s.teardowns && s.teardowns[ses].work.Closing? && s.teardowns[ses].work.t.port == port
  }

  /** Whoever opened the listener on a bound port still answers for it. */
  ghost predicate AnsweredFor(s: State, port: int)
    requires port in s.bound
  {
    || (port in s.tcp && s.tcp[port].id == s.bound[port])
    || Allocating(s, s.bound[port], port)
    || exists ses :: ClosingAt(s, ses, port) && s.teardowns[ses].work.listener == s.bound[port]
  }

  ghost predicate RequestPorts(s: State) {
    forall id :: id in s.requests ==>
      match s.requests[id].phase
      case Charged => true
      case Checked(port) => s.portMin <= port <= s.portMax
      case Listening(port, _) => s.portMin <= port <= s.portMax && port in s.bound && s.bound[port] == id
      case Spare(_) => false
  }

  ghost predicate RegisteredPorts(s: State) {
    && (forall p :: p in s.tcp ==> s.portMin <= p <= s.portMax)
    && (forall p :: p in s.tcp && !BeingKilled(s, p) ==> p in s.bound && s.bound[p] == s.tcp[p].id)
    && (s.kill.Some? ==>
          var k := s.kill.value;
          && k.port in s.tcp && s.tcp[k.port].id == k.id
          && (k.port in s.bound ==> s.bound[k.port] != k.id))
  }

  ghost predicate ClosingPorts(s: State) {
    && (forall ses, p :: ClosingAt(s, ses, p) ==>
          && p in s.bound && s.bound[p] == s.teardowns[ses].work.listener && p !in s.tcp
          && s.bound[p] in s.born && s.bound[p] !in s.requests)
    && (forall a, b, p :: ClosingAt(s, a, p) && ClosingAt(s, b, p) ==> a == b)
  }

  ghost predicate AllAnsweredFor(s: State) {
    forall p :: p in s.bound ==> AnsweredFor(s, p)
  }

  ghost predicate Ports(s: State) {
    RequestPorts(s) && RegisteredPorts(s) && ClosingPorts(s) && AllAnsweredFor(s)
  }

  // ---------------------------------------------------------------- steps that move no listener

  /** Everything that has to do with a listener is the same. */
  ghost predicate SamePorts(s: State, s': State) {
    && s'.tcp == s.tcp && s'.bound == s.bound && s'.kill == s.kill
    && s'.portMin == s.portMin && s'.portMax == s.portMax
    && (forall id :: id in s.born ==> id in s'.born)
    && (forall ses, p :: ClosingAt(s', ses, p) <==> ClosingAt(s, ses, p))
    && (forall ses, p :: ClosingAt(s, ses, p) ==> s'.teardowns[ses].work == s.teardowns[ses].work)
    && (forall id :: id in s.requests && s.requests[id].phase.Listening? ==>
          id in s'.requests && s'.requests[id] == s.requests[id])
    && (forall id :: id in s'.requests ==>
          && (id in s.requests || id !in s.born)
          && match s'.requests[id].phase
             case Charged => true
             case Checked(p) => s.portMin <= p <= s.portMax
             case _ => id in s.requests && s'.requests[id].phase == s.requests[id].phase)
  }

  lemma AnswerStays(s: State, s': State, p: int)
    requires p in s.bound && AnsweredFor(s, p) && p in s'.bound && s'.bound[p] == s.bound[p]
    requires p in s.tcp && s.tcp[p].id == s.bound[p] ==> p in s'.tcp && s'.tcp[p] == s.tcp[p]
    requires Allocating(s, s.bound[p], p) ==> Allocating(s', s.bound[p], p)
    requires forall ses :: ClosingAt(s, ses, p) ==>
               ClosingAt(s', ses, p) && s'.teardowns[ses].work == s.teardowns[ses].work
    ensures AnsweredFor(s', p)
  {
    if exists ses :: ClosingAt(s, ses, p) && s.teardowns[ses].work.listener == s.bound[p] {
      var ses :| ClosingAt(s, ses, p) && s.teardowns[ses].work.listener == s.bound[p];
      assert ClosingAt(s', ses, p);
    }
  }

  lemma PortsFramed(s: State, s': State)
    requires Ports(s) && SamePorts(s, s')
    ensures Ports(s')
  {
    forall p | p in s'.bound
      ensures AnsweredFor(s', p)
    {
      AnswerStays(s, s', p);
    }
  }

  predicate MovesListener(step: Step) {
    || step.Listen? || step.Recheck? || step.CloseSpare?
    || step.Unregister? || step.CloseListener? || step.KillClose? || step.KillDelete?
  }

  lemma OtherStepsSamePorts(s: State, step: Step)
    requires Identity(s) && RequestPorts(s) && Enabled(s, step) && !MovesListener(step)
    ensures SamePorts(s, Apply(s, step))
  {
    if TearsDown(step) {
      TeardownSamePorts(s, step);
    } else if Kills(step) {
      KillSamePorts(s, step);
    } else if step.TryHTTP? {
      TrySamePorts(s, step);
    } else {
      RestSamePorts(s, step);
    }
  }

  lemma TrySamePorts(s: State, step: Step)
    requires Identity(s) && RequestPorts(s) && Enabled(s, step) && step.TryHTTP?
    ensures SamePorts(s, Apply(s, step))
  {
    RegisterEffect(s, step);
  }

  lemma TeardownSamePorts(s: State, step: Step)
    requires RequestPorts(s) && Enabled(s, step) && !MovesListener(step) && TearsDown(step)
    ensures SamePorts(s, Apply(s, step))
  {
  }

  lemma KillSamePorts(s: State, step: Step)
    requires RequestPorts(s) && Enabled(s, step) && !MovesListener(step) && Kills(step)
    ensures SamePorts(s, Apply(s, step))
  {
  }

  lemma RestSamePorts(s: State, step: Step)
    requires forall id :: id in s.requests ==> id in s.born
    requires RequestPorts(s) && Enabled(s, step)
    requires !MovesListener(step) && !TearsDown(step) && !Kills(step) && !step.TryHTTP?
    ensures SamePorts(s, Apply(s, step))
  {
  }

  // ---------------------------------------------------------------- opening listeners

  lemma PortsListen(s: State, step: Step)
    requires Identity(s) && Ports(s) && Enabled(s, step) && step.Listen?
    ensures Ports(Apply(s, step))
  {
    var s', port := Apply(s, step), s.requests[step.id].phase.port;
    assert s'.bound == s.bound[port := step.id];
    assert s'.requests == s.requests[step.id := s'.requests[step.id]];
    assert forall ses, p :: ClosingAt(s', ses, p) <==> ClosingAt(s, ses, p);
    forall p | p in s'.bound
      ensures AnsweredFor(s', p)
    {
      if p == port {
        assert Allocating(s', step.id, port);
      } else {
        AnswerStays(s, s', p);
      }
    }
  }

  /** The second look of RegisterTCP finds the port free. */
  lemma RecheckFindsFree(s: State, id: string)
    requires Identity(s) && Ports(s) && Enabled(s, Recheck(id))
    ensures s.requests[id].phase.port !in s.tcp
  {
    var port := s.requests[id].phase.port;
    assert s.bound[port] == id;
  }

  lemma PortsRecheck(s: State, step: Step)
    requires Identity(s) && Ports(s) && Enabled(s, step) && step.Recheck?
    ensures Ports(Apply(s, step))
  {
    RecheckFindsFree(s, step.id);
    var s', port := Apply(s, step), s.requests[step.id].phase.port;
    assert s'.tcp == s.tcp[port := NewTunnel(s, step)];
    assert s'.requests == s.requests - {step.id};
    assert forall ses, p :: ClosingAt(s', ses, p) <==> ClosingAt(s, ses, p);
    forall p | p in s'.bound
      ensures AnsweredFor(s', p)
    {
      if p != port {
        AnswerStays(s, s', p);
      }
    }
  }

  // ---------------------------------------------------------------- closing listeners

  lemma PortsUnregister(s: State, step: Step)
    requires Identity(s) && Ports(s) && Enabled(s, step) && step.Unregister?
    ensures Ports(Apply(s, step))
  {
    var s', t := Apply(s, step), step.t;
    if t.kind == Tcp && t.port in s.tcp {
      PortsStartClosing(s, s', step.session, t);
    } else {
      assert s'.tcp == s.tcp;
      PortsFramed(s, s');
    }
  }

  lemma PortsStartClosing(s: State, s': State, session: Session, t: Tunnel)
    requires Identity(s) && Ports(s) && s.kill.None?
    requires session in s.teardowns && s.teardowns[session].work.Waiting? && t.port in s.tcp
    requires s' == s.(tcp := s.tcp - {t.port}, teardowns := s'.teardowns)
    requires session in s'.teardowns && s'.teardowns[session].work == Closing(t, s.tcp[t.port].id)
    requires s'.teardowns == s.teardowns[session := s'.teardowns[session]]
    ensures Ports(s')
  {
    assert ClosingAt(s', session, t.port);
    forall ses, p | ClosingAt(s', ses, p) && ses != session
      ensures ClosingAt(s, ses, p) && p != t.port
    {
    }
    forall p | p in s'.bound
      ensures AnsweredFor(s', p)
    {
      if p != t.port {
        AnswerStays(s, s', p);
      }
    }
  }

  lemma PortsCloseListener(s: State, step: Step)
    requires Ports(s) && Enabled(s, step) && step.CloseListener?
    ensures Ports(Apply(s, step))
  {
    var s', session := Apply(s, step), step.session;
    var port := s.teardowns[session].work.t.port;
    assert ClosingAt(s, session, port);
    assert s'.bound == s.bound - {port};
    forall ses, p | ClosingAt(s', ses, p)
      ensures ClosingAt(s, ses, p) && p != port && s'.teardowns[ses].work == s.teardowns[ses].work
    {
      assert ses != session && ClosingAt(s, ses, p);
    }
    forall p | p in s'.bound
      ensures AnsweredFor(s', p)
    {
      AnswerStays(s, s', p);
    }
  }

  lemma PortsKillClose(s: State, step: Step)
    requires Identity(s) && Ports(s) && Enabled(s, step) && step.KillClose?
    ensures Ports(Apply(s, step))
  {
    var s' := Apply(s, step);
    assert s'.bound == s.bound - {step.port};
    assert forall ses, p :: ClosingAt(s', ses, p) <==> ClosingAt(s, ses, p);
    forall p | p in s'.bound
      ensures AnsweredFor(s', p)
    {
      AnswerStays(s, s', p);
    }
  }

  lemma PortsKillDelete(s: State, step: Step)
    requires Ports(s) && Enabled(s, step) && step.KillDelete?
    ensures Ports(Apply(s, step))
  {
    var s' := Apply(s, step);
    assert forall ses, p :: ClosingAt(s', ses, p) <==> ClosingAt(s, ses, p);
    forall p | p in s'.bound
      ensures AnsweredFor(s', p)
    {
      AnswerStays(s, s', p);
    }
  }

  lemma PortsStep(s: State, step: Step)
    requires Identity(s) && Ports(s) && Enabled(s, step)
    ensures Ports(Apply(s, step))
  {
    if step.Listen? {
      PortsListen(s, step);
    } else if step.Recheck? {
      PortsRecheck(s, step);
    } else if step.Unregister? {
      PortsUnregister(s, step);
    } else if step.CloseListener? {
      PortsCloseListener(s, step);
    } else if step.KillClose? {
      PortsKillClose(s, step);
    } else if step.KillDelete? {
      PortsKillDelete(s, step);
    } else {
      assert !step.CloseSpare?;
      OtherStepsSamePorts(s, step);
      PortsFramed(s, Apply(s, step));
    }
  }

  lemma {:induction false} PortsAlways(states: seq<State>, steps: seq<Step>, i: nat)
    requires IsRun(states, steps) && i < |states|
    ensures Identity(states[i]) && Ports(states[i])
  {
    if i > 0 {
      PortsAlways(states, steps, i - 1);
      IdentityStep(states[i - 1], steps[i - 1]);
      PortsStep(states[i - 1], steps[i - 1]);
    }
  }

  // ---------------------------------------------------------------- main results

  /** At every moment of every run the server listens on exactly the registered ports, less
      the one whose kill is under way, and the ports that an allocation or a teardown still
      holds; each listener is the one of the tunnel it stands for. Registered ports are in
      the configured range and written in their own records. */
  lemma ListenersConserved(states: seq<State>, steps: seq<Step>, i: nat)
    requires IsRun(states, steps) && i < |states|
    ensures var s := states[i];
            && (forall p :: p in s.bound <==>
                  || (p in s.tcp && !BeingKilled(s, p))
                  || (exists id :: Allocating(s, id, p))
                  || (exists ses :: ClosingAt(s, ses, p)))
            && (forall p :: p in s.tcp && !BeingKilled(s, p) ==> s.bound[p] == s.tcp[p].id)
            && (forall id, p :: Allocating(s, id, p) ==> s.bound[p] == id)
            && (forall ses, p :: ClosingAt(s, ses, p) ==> s.bound[p] == s.teardowns[ses].work.listener)
            && (forall p :: p in s.tcp ==> s.portMin <= p <= s.portMax && s.tcp[p].port == p)
  {
    PortsAlways(states, steps, i);
    var s := states[i];
    forall p | p in s.bound
      ensures || (p in s.tcp && !BeingKilled(s, p))
              || (exists id :: Allocating(s, id, p))
              || (exists ses :: ClosingAt(s, ses, p))
    {
      assert AnsweredFor(s, p);
    }
  }

  /** No run ever sees RegisterTCP find its port taken at the second look: the request
      registers, and the branch that closes a spare listener is never entered. */
  lemma RecheckAlwaysRegisters(states: seq<State>, steps: seq<Step>, i: nat, id: string)
    requires IsRun(states, steps) && i < |states|
    ensures id in states[i].requests ==> !states[i].requests[id].phase.Spare?
    ensures i < |steps| && steps[i] == Recheck(id) ==>
              var port := states[i].requests[id].phase.port;
              && port !in states[i].tcp
              && port in states[i + 1].tcp && states[i + 1].tcp[port].id == id
              && port in states[i + 1].bound && states[i + 1].bound[port] == id
  {
    PortsAlways(states, steps, i);
    if i < |steps| && steps[i] == Recheck(id) {
      RecheckFindsFree(states[i], id);
      var port := states[i].requests[id].phase.port;
      assert states[i].bound[port] == id;
    }
  }

  /** A tunnel that is neither registered nor on its way in nor being closed. */
  ghost predicate Gone(s: State, id: string) {
    Departed(s, id) && NobodyCloses(s, id)
  }

  ghost predicate NobodyCloses(s: State, id: string) {
    forall ses :: ses in s.teardowns && s.teardowns[ses].work.Closing? ==> s.teardowns[ses].work.listener != id
  }

  lemma GoneStep(s: State, step: Step, id: string)
    requires Identity(s) && Gone(s, id) && Enabled(s, step)
    ensures Gone(Apply(s, step), id)
  {
    DepartedStep(s, step, id);
    NobodyClosesStep(s, step, id);
  }

  lemma NobodyClosesStep(s: State, step: Step, id: string)
    requires NobodyCloses(s, id) && !Live(s, id) && Enabled(s, step)
    ensures NobodyCloses(Apply(s, step), id)
  {
    StepFrames(s, step);
    if TearsDown(step) {
      var s' := Apply(s, step);
      assert forall ses :: ses in s'.teardowns && ses != step.session ==> s'.teardowns[ses] == s.teardowns[ses];
    }
  }

  lemma {:induction false} GoneStays(states: seq<State>, steps: seq<Step>, i: nat, k: nat, id: string)
    requires IsRun(states, steps) && i <= k < |states| && Gone(states[i], id)
    ensures Gone(states[k], id)
    decreases k - i
  {
    if i < k {
      GoneStays(states, steps, i, k - 1, id);
      PortsAlways(states, steps, k - 1);
      GoneStep(states[k - 1], steps[k - 1], id);
    }
  }

  /** A request that is refused, after however many attempts, leaves no listener behind,
      then or later. */
  lemma FailedAllocationLeaksNothing(states: seq<State>, steps: seq<Step>, i: nat, id: string, k: nat, p: int)
    requires IsRun(states, steps) && i < |steps| && steps[i] == Refuse(id) && i < k < |states|
    ensures p in states[k].bound ==> states[k].bound[p] != id
  {
    PortsAlways(states, steps, i);
    var s, s' := states[i], states[i + 1];
    assert s.requests[id].tunnel.id == id;
    forall ses | ses in s'.teardowns && s'.teardowns[ses].work.Closing?
      ensures s'.teardowns[ses].work.listener != id
    {
      assert ClosingAt(s, ses, s.teardowns[ses].work.t.port);
    }
    assert Gone(s', id);
    GoneStays(states, steps, i + 1, k, id);
    PortsAlways(states, steps, k);
    if p in states[k].bound {
      assert AnsweredFor(states[k], p);
    }
  }

  /** A listener is closed only for the tunnel it was opened for: when its request gives it up,
      when that tunnel is killed, or by the teardown that found it. */
  lemma ClosedByItsOwn(s: State, step: Step, p: int)
    requires Enabled(s, step) && p in s.bound && p !in Apply(s, step).bound
    ensures match step
            case CloseSpare(id) => s.bound[p] == id && s.requests[id].phase.port == p
            case KillClose(id, port, _) => s.bound[p] == id && port == p
            case CloseListener(session) =>
              s.bound[p] == s.teardowns[session].work.listener && s.teardowns[session].work.t.port == p
            case _ => false
  {
    if !step.CloseSpare? && !step.KillClose? && !step.CloseListener? {
      NobodyElseCloses(s, step);
    }
  }

  lemma NobodyElseCloses(s: State, step: Step)
    requires Enabled(s, step) && !step.CloseSpare? && !step.KillClose? && !step.CloseListener?
    ensures forall p :: p in s.bound ==> p in Apply(s, step).bound
  {
    if TearsDown(step) || Kills(step) {
      SameBound(s, step);
    }
  }

  lemma SameBound(s: State, step: Step)
    requires Enabled(s, step) && (TearsDown(step) || Kills(step)) && !step.KillClose? && !step.CloseListener?
    ensures Apply(s, step).bound == s.bound
  {
  }

  /** A port that the first look finds registered is passed over; a spare listener is closed. */
  lemma PortAttempts(s: State, id: string)
    ensures forall p :: Enabled(s, CheckPort(id, p)) ==> (Apply(s, CheckPort(id, p)) == s <==> p in s.tcp)
    ensures Enabled(s, CloseSpare(id)) && s.requests[id].phase.port in s.bound && s.bound[s.requests[id].phase.port] == id ==>
              s.requests[id].phase.port !in Apply(s, CloseSpare(id)).bound
  {
    forall p | Enabled(s, CheckPort(id, p)) && p !in s.tcp
      ensures Apply(s, CheckPort(id, p)) != s
    {
      assert Apply(s, CheckPort(id, p)).requests[id].phase == Checked(p);
    }
  }
}
