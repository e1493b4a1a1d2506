/**
 Over every run of the control plane: how tunnels leave the registry, and whose they are.
 A teardown deletes by name or port whatever stands there when its turn comes. These results
 say when that is somebody else's tunnel, and what is left on a counter when tunnels go
 without anyone to refund them.
 */
module TeardownSafety {
  import opened Wrappers
  import opened Names
  import opened Tunnels
  import opened Quotas
  import opened ControlPlane
  import opened PortSafety
  import opened QuotaSafety
  import opened RegistrySafety

  /** What stands at the tunnel's name or port. */
  function EntryAt(s: State, t: Tunnel): Option<Tunnel> {
    if t.kind == Http then (if t.subdomain in s.http then Some(s.http[t.subdomain]) else None)
    else if t.port in s.tcp then Some(s.tcp[t.port])
    else None
  }

  // ---------------------------------------------------------------- how a tunnel leaves

  /** The step takes the tunnel `id` out of the registry. */
  ghost predicate RemovedBy(s: State, step: Step, id: string)
    requires Enabled(s, step)
  {
    match step
    case KillHTTP(victim, _, _) => victim == id
    case KillDelete => s.kill.value.id == id
    case ReaperTick(at) => exists sub :: sub in s.http && s.http[sub].id == id && Expired(s.http[sub], at)
    case TryHTTP(newId, sub) =>
      sub in s.http && s.http[sub].id == id && RegisterHTTP(s.http, sub, s.requests[newId].tunnel, s.now).Ok?
    case Unregister(_, t) => EntryAt(s, t).Some? && EntryAt(s, t).value.id == id
    case _ => false
  }

  /** A registered tunnel leaves by a kill, an expired reservation, a reclaim of its name, or
      a teardown that deletes its place; by nothing else, and by each of these for certain. */
  lemma LeavesIff(s: State, step: Step, id: string)
    requires Identity(s) && RegisteredPorts(s) && Enabled(s, step)
    ensures RemovedBy(s, step, id) <==> Live(s, id) && !Live(Apply(s, step), id)
  {
    if step.KillHTTP? || step.KillDelete? {
      LeavesByKill(s, step, id);
    } else if step.ReaperTick? {
      LeavesByReaper(s, step.at, id);
    } else if step.TryHTTP? {
      LeavesByReclaim(s, step.id, step.sub, id);
    } else if step.Unregister? {
      LeavesByTeardown(s, step.session, step.t, id);
    } else {
      NobodyElseLeaves(s, step, id);
    }
  }

  lemma LiveAt(s: State, id: string)
    ensures forall sub :: sub in s.http && s.http[sub].id == id ==> Live(s, id)
    ensures forall p :: p in s.tcp && s.tcp[p].id == id ==> Live(s, id)
  {
  }

  lemma LeavesByKill(s: State, step: Step, id: string)
    requires Identity(s) && RegisteredPorts(s) && Enabled(s, step) && (step.KillHTTP? || step.KillDelete?)
    ensures RemovedBy(s, step, id) <==> Live(s, id) && !Live(Apply(s, step), id)
  {
    var s' := Apply(s, step);
    if step.KillHTTP? {
      assert s'.http == s.http - {step.sub} && s'.tcp == s.tcp;
      HttpEntryDeleted(s, s', step.sub, id);
    } else {
      assert s'.tcp == s.tcp - {s.kill.value.port} && s'.http == s.http;
      TcpEntryDeleted(s, s', s.kill.value.port, id);
    }
  }

  /** Deleting one entry takes away the tunnel that stood there and no other. */
  lemma HttpEntryDeleted(s: State, s': State, sub: string, id: string)
    requires Identity(s) && s'.http == s.http - {sub} && s'.tcp == s.tcp
    ensures Live(s, id) && !Live(s', id) <==> sub in s.http && s.http[sub].id == id
  {
    if Live(s, id) && !(sub in s.http && s.http[sub].id == id) {
      if LiveHttp(s, id) {
        var other :| other in s.http && s.http[other].id == id;
        assert other in s'.http;
      } else {
        var p: int :| p in s.tcp && s.tcp[p].id == id;
        assert p in s'.tcp;
      }
    }
    if sub in s.http && s.http[sub].id == id {
      assert forall other :: other in s'.http ==> s'.http[other].id != id;
      assert forall p :: p in s.tcp ==> s.tcp[p].id != id;
    }
  }

  lemma TcpEntryDeleted(s: State, s': State, port: int, id: string)
    requires Identity(s) && s'.http == s.http && s'.tcp == s.tcp - {port}
    ensures Live(s, id) && !Live(s', id) <==> port in s.tcp && s.tcp[port].id == id
  {
    if Live(s, id) && !(port in s.tcp && s.tcp[port].id == id) {
      if LiveHttp(s, id) {
        var sub :| sub in s.http && s.http[sub].id == id;
        assert sub in s'.http;
      } else {
        var p: int :| p in s.tcp && s.tcp[p].id == id;
        assert p in s'.tcp;
      }
    }
    if port in s.tcp && s.tcp[port].id == id {
      assert forall p :: p in s'.tcp ==> s'.tcp[p].id != id;
      assert forall sub :: sub in s.http ==> s.http[sub].id != id;
    }
  }

  lemma LeavesByReaper(s: State, at: int, id: string)
    requires Identity(s) && Enabled(s, ReaperTick(at))
    ensures RemovedBy(s, ReaperTick(at), id) <==> Live(s, id) && !Live(Apply(s, ReaperTick(at)), id)
  {
    var s' := Apply(s, ReaperTick(at));
    assert s'.http == Reap(s.http, at) && s'.tcp == s.tcp;
    if LiveHttp(s, id) {
      var sub :| sub in s.http && s.http[sub].id == id;
      assert forall other :: other in s.http && s.http[other].id == id ==> other == sub;
      assert forall p :: p in s.tcp ==> s.tcp[p].id != id;
      assert sub in s'.http <==> !Expired(s.http[sub], at);
      LiveAt(s', id);
    } else if LiveTcp(s, id) {
      var p: int :| p in s.tcp && s.tcp[p].id == id;
      assert p in s'.tcp;
    }
  }

  lemma LeavesByReclaim(s: State, newId: string, sub: string, id: string)
    requires Identity(s) && Enabled(s, TryHTTP(newId, sub))
    ensures RemovedBy(s, TryHTTP(newId, sub), id) <==> Live(s, id) && !Live(Apply(s, TryHTTP(newId, sub)), id)
  {
    var s' := Apply(s, TryHTTP(newId, sub));
    assert s' == ApplyTryHTTP(s, newId, sub);
    if RegisterHTTP(s.http, sub, s.requests[newId].tunnel, s.now).Ok? {
      var t := s.requests[newId].tunnel.(subdomain := sub, createdAt := s.now);
      assert s'.http == s.http[sub := t] && s'.tcp == s.tcp && t.id == newId;
      assert !Live(s, newId);
      var cleared := s.(http := s.http - {sub});
      HttpEntryDeleted(s, cleared, sub, id);
      LiveWith(cleared, s', sub, id);
    }
  }

  lemma LiveWith(s: State, s': State, sub: string, id: string)
    requires sub !in s.http && sub in s'.http && s'.http == s.http[sub := s'.http[sub]] && s'.tcp == s.tcp
    ensures Live(s', id) <==> Live(s, id) || s'.http[sub].id == id
  {
    if LiveHttp(s, id) {
      var other :| other in s.http && s.http[other].id == id;
      assert s'.http[other].id == id;
    }
  }

  lemma LeavesByTeardown(s: State, session: Session, t: Tunnel, id: string)
    requires Identity(s) && Enabled(s, Unregister(session, t))
    ensures RemovedBy(s, Unregister(session, t), id) <==> Live(s, id) && !Live(Apply(s, Unregister(session, t)), id)
  {
    var s' := Apply(s, Unregister(session, t));
    assert s' == ApplyUnregister(s, session, t);
    if t.kind == Http {
      HttpEntryDeleted(s, s', t.subdomain, id);
    } else {
      TcpEntryDeleted(s, s', t.port, id);
    }
  }

  predicate MayRemove(step: Step) {
    step.KillHTTP? || step.KillDelete? || step.ReaperTick? || step.TryHTTP? || step.Unregister?
  }

  /** Every entry stays where it is, reserved or not. */
  ghost predicate KeepsEntries(s: State, s': State) {
    && (forall sub :: sub in s.http ==> sub in s'.http && s'.http[sub].id == s.http[sub].id)
    && (forall p :: p in s.tcp ==> p in s'.tcp && s'.tcp[p].id == s.tcp[p].id)
  }

  lemma NobodyElseLeaves(s: State, step: Step, id: string)
    requires Identity(s) && Enabled(s, step) && !MayRemove(step)
    ensures Live(s, id) ==> Live(Apply(s, step), id)
  {
    if TearsDown(step) || Kills(step) {
      TeardownKeeps(s, step);
    } else if Allocates(step) {
      AllocationKeeps(s, step);
    } else {
      RestKeeps(s, step);
    }
    KeptStaysLive(s, Apply(s, step), id);
  }

  lemma KeptStaysLive(s: State, s': State, id: string)
    requires KeepsEntries(s, s')
    ensures Live(s, id) ==> Live(s', id)
  {
    if LiveHttp(s, id) {
      var sub :| sub in s.http && s.http[sub].id == id;
      assert s'.http[sub].id == id;
    } else if LiveTcp(s, id) {
      var p: int :| p in s.tcp && s.tcp[p].id == id;
      assert s'.tcp[p].id == id;
    }
  }

  lemma TeardownKeeps(s: State, step: Step)
    requires Enabled(s, step) && !MayRemove(step) && (TearsDown(step) || Kills(step))
    ensures KeepsEntries(s, Apply(s, step))
  {
  }

  lemma AllocationKeeps(s: State, step: Step)
    requires Enabled(s, step) && Allocates(step)
    ensures KeepsEntries(s, Apply(s, step))
  {
  }

  lemma RestKeeps(s: State, step: Step)
    requires Enabled(s, step) && !MayRemove(step) && !TearsDown(step) && !Kills(step) && !Allocates(step)
    ensures KeepsEntries(s, Apply(s, step))
  {
  }

  // ---------------------------------------------------------------- whose tunnel a teardown deletes

  /** The teardown's next deletion hits a tunnel that is not the one it holds. */
  predicate DeletesOther(s: State, t: Tunnel) {
    EntryAt(s, t).Some? && EntryAt(s, t).value.id != t.id
  }

  /** An unregistration deletes another tunnel than its own exactly when its own is no longer
      registered and the place is taken. */
  lemma DeletesOtherIff(s: State, session: Session, t: Tunnel, id: string)
    requires Identity(s) && Teardowns(s) && Enabled(s, Unregister(session, t)) && id != t.id
    ensures Live(s, id) && !Live(Apply(s, Unregister(session, t)), id) <==>
              !Live(s, t.id) && EntryAt(s, t).Some? && EntryAt(s, t).value.id == id
  {
    LeavesByTeardown(s, session, t, id);
    OtherIffGone(s, session, t);
  }

  lemma OtherIffGone(s: State, session: Session, t: Tunnel)
    requires Identity(s) && Teardowns(s) && Enabled(s, Unregister(session, t))
    ensures DeletesOther(s, t) <==> !Live(s, t.id) && EntryAt(s, t).Some?
  {
    HeldOnlyThere(s, session, t);
    LiveAt(s, t.id);
    if Live(s, t.id) {
      assert EntryAt(s, t).Some? && EntryAt(s, t).value.id == t.id;
    }
  }

  /** A session is torn down once, and works off what its snapshot found. */
  lemma {:induction false} TodoFromSnapshot(states: seq<State>, steps: seq<Step>, i: nat, k: nat, session: Session)
    requires IsRun(states, steps) && i < k < |states| && steps[i] == Snapshot(session)
    ensures session in states[k].teardowns && states[k].teardowns[session].todo <= OfSession(states[i], session)
    decreases k - i
  {
    if k == i + 1 {
      assert states[k] == Apply(states[i], steps[i]);
    } else {
      TodoFromSnapshot(states, steps, i, k - 1, session);
      TodoStep(states[k - 1], steps[k - 1], session);
    }
  }

  lemma TodoStep(s: State, step: Step, session: Session)
    requires Enabled(s, step) && session in s.teardowns
    ensures var s' := Apply(s, step);
            && session in s'.teardowns && s'.teardowns[session].todo <= s.teardowns[session].todo
            && (step.Unregister? && step.session == session ==> step.t !in s'.teardowns[session].todo)
  {
    if !TearsDown(step) {
      StepFrames(s, step);
    }
  }

  lemma {:induction false} StillTodo(states: seq<State>, steps: seq<Step>, k: nat, j: nat, session: Session)
    requires IsRun(states, steps) && k <= j < |states| && session in states[k].teardowns
    ensures session in states[j].teardowns
    ensures states[j].teardowns[session].todo <= states[k].teardowns[session].todo
    decreases j - k
  {
    if k < j {
      StillTodo(states, steps, k, j - 1, session);
      TodoStep(states[j - 1], steps[j - 1], session);
    }
  }

  lemma {:induction false} TeardownsAlways(states: seq<State>, steps: seq<Step>, i: nat)
    requires IsRun(states, steps) && i < |states|
    ensures Identity(states[i]) && Ports(states[i]) && Teardowns(states[i])
  {
    PortsAlways(states, steps, i);
    if i > 0 {
      TeardownsAlways(states, steps, i - 1);
      TeardownsStep(states[i - 1], steps[i - 1]);
    }
  }

  /** Who was registered at one moment and is not at a later one was removed in between. */
  lemma {:induction false} RemovalFound(states: seq<State>, steps: seq<Step>, i: nat, j: nat, id: string) returns (k: nat)
    requires IsRun(states, steps) && i <= j < |states| && Live(states[i], id) && !Live(states[j], id)
    ensures i <= k < j && RemovedBy(states[k], steps[k], id)
    decreases j - i
  {
    TeardownsAlways(states, steps, j - 1);
    if Live(states[j - 1], id) {
      k := j - 1;
      LeavesIff(states[k], steps[k], id);
    } else {
      k := RemovalFound(states, steps, i, j - 1, id);
    }
  }

  /** What a session's snapshot found is registered then, under its own place. */
  lemma SnapshotIsLive(s: State, session: Session, t: Tunnel)
    requires Identity(s) && t in OfSession(s, session)
    ensures Live(s, t.id) && EntryAt(s, t) == Some(t) && t.id in s.born && t.id !in s.requests
  {
    LiveAt(s, t.id);
  }

  /** The step, taken by somebody else, that removes the tunnel a teardown still has to drop. */
  ghost predicate RemovedMeanwhile(states: seq<State>, steps: seq<Step>, i: nat, j: nat, session: Session, id: string)
    requires IsRun(states, steps) && i <= j <= |steps|
  {
    exists k :: i < k < j && RemovedBy(states[k], steps[k], id)
                && !(steps[k].Unregister? && steps[k].session == session)
  }

  /** Over whole runs: a teardown deletes another tunnel than the one it found exactly when,
      between its snapshot and its turn, a kill, the reaper, a reclaim or another session's
      teardown removed the tunnel it found, and somebody else stands in its place. */
  lemma TeardownDeletesOtherIff(states: seq<State>, steps: seq<Step>, i: nat, j: nat, session: Session, t: Tunnel)
    requires IsRun(states, steps) && i < j < |steps|
    requires steps[i] == Snapshot(session) && steps[j] == Unregister(session, t)
    ensures DeletesOther(states[j], t) <==>
              EntryAt(states[j], t).Some? && RemovedMeanwhile(states, steps, i, j, session, t.id)
  {
    TeardownsAlways(states, steps, j);
    OtherIffGone(states[j], session, t);
    GoneIffRemoved(states, steps, i, j, session, t);
  }

  lemma GoneIffRemoved(states: seq<State>, steps: seq<Step>, i: nat, j: nat, session: Session, t: Tunnel)
    requires IsRun(states, steps) && i < j < |steps|
    requires steps[i] == Snapshot(session) && steps[j] == Unregister(session, t)
    ensures !Live(states[j], t.id) <==> RemovedMeanwhile(states, steps, i, j, session, t.id)
  {
    FoundLive(states, steps, i, j, session, t);
    if !Live(states[j], t.id) {
      var k := RemovalFound(states, steps, i, j, t.id);
      if steps[k].Unregister? && steps[k].session == session {
        OwnTurnSpares(states, steps, i, k, j, session, t);
      }
      assert k != i;
    }
    if RemovedMeanwhile(states, steps, i, j, session, t.id) {
      var k :| i < k < j && RemovedBy(states[k], steps[k], t.id);
      RemovedStaysGone(states, steps, i, k, j, t.id);
    }
  }

  lemma FoundLive(states: seq<State>, steps: seq<Step>, i: nat, j: nat, session: Session, t: Tunnel)
    requires IsRun(states, steps) && i < j < |steps|
    requires steps[i] == Snapshot(session) && steps[j] == Unregister(session, t)
    ensures t in OfSession(states[i], session)
    ensures Live(states[i], t.id) && t.id in states[i].born && t.id !in states[i].requests
  {
    TeardownsAlways(states, steps, i);
    TodoFromSnapshot(states, steps, i, j, session);
    SnapshotIsLive(states[i], session, t);
  }

  lemma RemovedStaysGone(states: seq<State>, steps: seq<Step>, i: nat, k: nat, j: nat, id: string)
    requires IsRun(states, steps) && i <= k < j < |states| && RemovedBy(states[k], steps[k], id)
    requires id in states[i].born && id !in states[i].requests
    ensures !Live(states[j], id)
  {
    TeardownsAlways(states, steps, k);
    LeavesIff(states[k], steps[k], id);
    StaysBorn(states, steps, i, k + 1, id);
    DepartedStays(states, steps, k + 1, j, id);
  }

  /** The session's own teardown, dropping another tunnel, does not touch this one. */
  lemma OwnTurnSpares(states: seq<State>, steps: seq<Step>, i: nat, k: nat, j: nat, session: Session, t: Tunnel)
    requires IsRun(states, steps) && i <= k < j < |steps| && steps[k].Unregister? && steps[k].session == session
    requires steps[i] == Snapshot(session) && steps[j] == Unregister(session, t)
    ensures !RemovedBy(states[k], steps[k], t.id)
  {
    var u := steps[k].t;
    assert i < k;
    TodoFromSnapshot(states, steps, i, k, session);
    StillTodo(states, steps, k, j, session);
    TodoStep(states[k], steps[k], session);
    StillTodo(states, steps, k + 1, j, session);
    assert t in states[k].teardowns[session].todo && t != u;
    TeardownsAlways(states, steps, i);
    SnapshotIsLive(states[i], session, u);
    SnapshotIsLive(states[i], session, t);
    TeardownsAlways(states, steps, k);
    OwnPlaceOnly(states[k], states[i], session, t, u);
  }

  /** Two tunnels of a snapshot never stand in each other's place. */
  lemma OwnPlaceOnly(s: State, atSnapshot: State, session: Session, t: Tunnel, u: Tunnel)
    requires Identity(s) && Teardowns(s) && session in s.teardowns
    requires EntryAt(atSnapshot, t) == Some(t) && EntryAt(atSnapshot, u) == Some(u) && t != u
    requires t in s.teardowns[session].todo
    ensures EntryAt(s, u).Some? ==> EntryAt(s, u).value.id != t.id
  {
    HeldOnlyThere(s, session, t);
  }

  // ---------------------------------------------------------------- what a teardown gets done

  /** The tunnel is an entry of the registry. */
  ghost predicate Registered(s: State, t: Tunnel) {
    || (exists sub :: sub in s.http && s.http[sub] == t)
    || (exists p :: p in s.tcp && s.tcp[p] == t)
  }

  /** A snapshot finds every entry of the session, in both maps, and nothing else. */
  lemma SnapshotFindsAll(s: State, session: Session)
    requires Enabled(s, Snapshot(session))
    ensures var td := Apply(s, Snapshot(session)).teardowns[session];
            && td.work.Waiting?
            && (forall sub :: sub in s.http ==> (s.http[sub] in td.todo <==> s.http[sub].session == session))
            && (forall p :: p in s.tcp ==> (s.tcp[p] in td.todo <==> s.tcp[p].session == session))
            && (forall t :: t in td.todo ==> Registered(s, t))
  {
    var td := Apply(s, Snapshot(session)).teardowns[session];
    forall t | t in td.todo
      ensures Registered(s, t) && t.session == session
    {
      FoundSomewhere(s, session, t);
    }
  }

  lemma FoundSomewhere(s: State, session: Session, t: Tunnel)
    requires t in OfSession(s, session)
    ensures Registered(s, t) && t.session == session
  {
    if sub :| sub in s.http && s.http[sub].session == session && s.http[sub] == t {
      assert Registered(s, t);
    } else {
      var p: int :| p in s.tcp && s.tcp[p].session == session && s.tcp[p] == t;
      assert Registered(s, t);
    }
  }

  /** A tunnel of the snapshot waits for its turn, has it, or is gone and repaid. */
  ghost predicate InProgress(s: State, session: Session, t: Tunnel) {
    && session in s.teardowns && t.token == session.token
    && (|| t in s.teardowns[session].todo
        || (!s.teardowns[session].work.Waiting? && s.teardowns[session].work.t == t)
        || (Departed(s, t.id) && (!IsAnon(t.token) ==> t.id in s.refunded)))
  }

  lemma ProgressStep(s: State, step: Step, session: Session, t: Tunnel)
    requires Identity(s) && Teardowns(s) && InProgress(s, session, t) && Enabled(s, step)
    requires forall id :: id in s.refunded ==> id in s.born
    ensures InProgress(Apply(s, step), session, t)
  {
    var s', td := Apply(s, step), s.teardowns[session];
    if Departed(s, t.id) {
      DepartedStep(s, step, t.id);
    }
    if TearsDown(step) {
      ProgressTearsDown(s, step, session, t);
    } else {
      StepFrames(s, step);
      if t.id in s.refunded {
        RefundedStep(s, step, t.id);
      }
    }
  }

  lemma ProgressTearsDown(s: State, step: Step, session: Session, t: Tunnel)
    requires Teardowns(s) && InProgress(s, session, t) && Enabled(s, step) && TearsDown(step)
    requires Departed(s, t.id) ==> Departed(Apply(s, step), t.id)
    ensures InProgress(Apply(s, step), session, t)
  {
    if t.id in s.refunded {
      RepaidStays(s, step, t.id);
    }
    if step.session != session {
      OtherTeardownStays(s, step, session);
    } else if step.RefundNext? {
      assert Orderly(s, session, s.teardowns[session]);
      ProgressRefund(s, session, t);
    } else {
      ProgressDrops(s, step, session, t);
    }
  }

  lemma ProgressDrops(s: State, step: Step, session: Session, t: Tunnel)
    requires InProgress(s, session, t) && Enabled(s, step)
    requires (step.Unregister? || step.CloseListener?) && step.session == session
    requires Departed(s, t.id) ==> Departed(Apply(s, step), t.id)
    requires t.id in s.refunded ==> t.id in Apply(s, step).refunded
    ensures InProgress(Apply(s, step), session, t)
  {
    if step.CloseListener? {
      ListenerCloses(s, session);
    } else {
      TurnBegins(s, session, step.t);
    }
  }

  lemma ProgressRefund(s: State, session: Session, t: Tunnel)
    requires InProgress(s, session, t) && Enabled(s, RefundNext(session)) && Orderly(s, session, s.teardowns[session])
    requires Departed(s, t.id) ==> Departed(Apply(s, RefundNext(session)), t.id)
    requires t.id in s.refunded ==> t.id in Apply(s, RefundNext(session)).refunded
    ensures InProgress(Apply(s, RefundNext(session)), session, t)
  {
    TurnEnds(s, session);
  }

  lemma RepaidStays(s: State, step: Step, id: string)
    requires Enabled(s, step) && TearsDown(step) && id in s.refunded
    ensures id in Apply(s, step).refunded
  {
  }

  lemma OtherTeardownStays(s: State, step: Step, session: Session)
    requires Enabled(s, step) && TearsDown(step) && step.session != session && session in s.teardowns
    ensures var s' := Apply(s, step); session in s'.teardowns && s'.teardowns[session] == s.teardowns[session]
  {
  }

  lemma TurnBegins(s: State, session: Session, t: Tunnel)
    requires Enabled(s, Unregister(session, t))
    ensures var td, td' := s.teardowns[session], Apply(s, Unregister(session, t)).teardowns[session];
            td'.todo == td.todo - {t} && !td'.work.Waiting? && td'.work.t == t
  {
  }

  lemma ListenerCloses(s: State, session: Session)
    requires Enabled(s, CloseListener(session))
    ensures Apply(s, CloseListener(session)).teardowns[session]
            == s.teardowns[session].(work := Refunding(s.teardowns[session].work.t))
  {
  }

  lemma TurnEnds(s: State, session: Session)
    requires Enabled(s, RefundNext(session))
    ensures var s', td := Apply(s, RefundNext(session)), s.teardowns[session];
            && s'.teardowns[session] == td.(work := Waiting)
            && s'.http == s.http && s'.tcp == s.tcp && s'.requests == s.requests && s'.born == s.born
            && (!IsAnon(session.token) ==> td.work.t.id in s'.refunded)
  {
  }

  lemma ProgressBegins(s: State, session: Session, t: Tunnel)
    requires Identity(s) && Enabled(s, Snapshot(session)) && Registered(s, t) && t.session == session
    ensures InProgress(Apply(s, Snapshot(session)), session, t)
  {
    SnapshotFindsAll(s, session);
    assert Genuine(s, t);
  }

  lemma {:induction false} ProgressAlways(states: seq<State>, steps: seq<Step>, i: nat, j: nat, session: Session, t: Tunnel)
    requires IsRun(states, steps) && i < j < |states| && steps[i] == Snapshot(session)
    requires Registered(states[i], t) && t.session == session
    ensures InProgress(states[j], session, t)
    decreases j - i
  {
    var s, step := states[j - 1], steps[j - 1];
    BooksAlways(states, steps, j - 1);
    assert Enabled(s, step) && states[j] == Apply(s, step);
    if j == i + 1 {
      ProgressBegins(s, session, t);
    } else {
      ProgressAlways(states, steps, i, j - 1, session, t);
      ProgressStep(s, step, session, t);
    }
  }

  /** When a teardown has worked off its list, no tunnel that its session had at the snapshot
      is registered, then or ever after, and each that was charged has been refunded. */
  lemma TeardownClears(states: seq<State>, steps: seq<Step>, i: nat, j: nat, session: Session, t: Tunnel)
    requires IsRun(states, steps) && i < j < |states| && steps[i] == Snapshot(session)
    requires session in states[j].teardowns
    requires states[j].teardowns[session].todo == {} && states[j].teardowns[session].work.Waiting?
    requires Registered(states[i], t) && t.session == session
    ensures !IsAnon(t.token) ==> t.id in states[j].refunded
    ensures forall k :: j <= k < |states| ==> !Live(states[k], t.id)
  {
    ProgressAlways(states, steps, i, j, session, t);
    forall k | j <= k < |states|
      ensures !Live(states[k], t.id)
    {
      DepartedStays(states, steps, j, k, t.id);
    }
  }

  lemma OneMore(states: seq<State>, steps: seq<Step>, step: Step) returns (states': seq<State>, steps': seq<Step>)
    requires IsRun(states, steps) && Enabled(states[|steps|], step)
    ensures IsRun(states', steps') && steps' == steps + [step]
    ensures states' == states + [Apply(states[|steps|], step)]
    ensures states'[|steps'|] == Apply(states[|steps|], step)
  {
    states', steps' := states + [Apply(states[|steps|], step)], steps + [step];
  }

  // The run of TeardownMayDeleteOther: two clients, one name.

  function A(): Session {
    Session(1, "tokA")
  }

  function B(): Session {
    Session(2, "tokB")
  }

  lemma PlainTokens()
    ensures !IsAnon("tokA") && !IsAPIKey("tokA") && !IsAnon("tokB") && !IsAPIKey("tokB")
    ensures ValidSubdomain("abc")
  {
    assert "tokA"[0] == 't' && "tokB"[0] == 't' && "anon:"[0] == 'a' && "htk_"[0] == 'h';
    assert "abc"[0] == 'a' && "abc"[1] == 'b' && "abc"[2] == 'c';
    assert MatchesSubdomainRe("abc");
    assert forall r :: r in RESERVED_SUBDOMAINS ==> r[0] != 'a' || |r| > 3 || r == "api";
    assert "abc"[1] != "api"[1];
  }

  function Counters(a: nat, b: nat): Quotas {
    Quotas(map[], map["tokA" := Slot(a, 1), "tokB" := Slot(b, 1)])
  }

  /** The server with these entries, charges and requests. */
  function Scene(q: Quotas, http: HttpMap, born: map<string, Birth>, owed: set<string>,
                 requests: map<string, Request>, teardowns: map<Session, Teardown>): State {
    State(0, 1, 1, http, map[], map[], None, q, born, owed, {}, requests, teardowns, None)
  }

  function Asked(id: string, ses: Session): Tunnel {
    Tunnel(id, ses.token, Http, "", 0, 80, ses, 0, false, 0)
  }

  function Entry(id: string, ses: Session): Tunnel {
    Asked(id, ses).(subdomain := "abc")
  }

  lemma SceneBegins(q: Quotas, q': Quotas, http: HttpMap, born: map<string, Birth>, owed: set<string>,
                    teardowns: map<Session, Teardown>, id: string, ses: Session)
    requires !IsAnon(ses.token) && Charge(q, ses.token) == Ok(q') && id !in born
    ensures var s, step := Scene(q, http, born, owed, map[], teardowns), Begin(id, ses, Http, 80);
            && Enabled(s, step)
            && Apply(s, step) == Scene(q', http, born[id := Birth(ses, Http)], owed + {id},
                                       map[id := Request(Asked(id, ses), Charged)], teardowns)
  {
  }

  lemma SceneRegisters(q: Quotas, born: map<string, Birth>, owed: set<string>, teardowns: map<Session, Teardown>,
                       id: string, ses: Session)
    ensures var s := Scene(q, map[], born, owed, map[id := Request(Asked(id, ses), Charged)], teardowns);
            && Enabled(s, TryHTTP(id, "abc"))
            && Apply(s, TryHTTP(id, "abc")) == Scene(q, map["abc" := Entry(id, ses)], born, owed, map[], teardowns)
  {
    PlainTokens();
    var s := Scene(q, map[], born, owed, map[id := Request(Asked(id, ses), Charged)], teardowns);
    assert RegisterHTTP(s.http, "abc", Entry(id, ses), 0) == Ok(map["abc" := Entry(id, ses)]);
    assert s.requests - {id} == map[];
  }

  lemma CountersCharge(n: nat)
    ensures Charge(Counters(0, n), "tokA") == Ok(Counters(1, n)) && Charge(Counters(n, 0), "tokB") == Ok(Counters(n, 1))
  {
    PlainTokens();
    assert Counters(0, n).tokens["tokA" := Slot(1, 1)] == Counters(1, n).tokens;
    assert Counters(n, 0).tokens["tokB" := Slot(1, 1)] == Counters(n, 1).tokens;
  }

  lemma SceneSnapshot(q: Quotas, born: map<string, Birth>, owed: set<string>, id: string, ses: Session)
    ensures var s := Scene(q, map["abc" := Entry(id, ses)], born, owed, map[], map[]);
            && Enabled(s, Snapshot(ses))
            && Apply(s, Snapshot(ses))
               == Scene(q, s.http, born, owed, map[], map[ses := Teardown({Entry(id, ses)}, Waiting)])
  {
    var s := Scene(q, map["abc" := Entry(id, ses)], born, owed, map[], map[]);
    assert s.http["abc"] == Entry(id, ses);
    assert OfSession(s, ses) == {Entry(id, ses)};
  }

  lemma SceneKill(q: Quotas, born: map<string, Birth>, owed: set<string>, teardowns: map<Session, Teardown>,
                  id: string, ses: Session)
    ensures var s, step := Scene(q, map["abc" := Entry(id, ses)], born, owed, map[], teardowns), KillHTTP(id, "abc", false);
            Enabled(s, step) && Apply(s, step) == Scene(q, map[], born, owed, map[], teardowns)
  {
    assert map["abc" := Entry(id, ses)] - {"abc"} == map[];
  }

  /** The last scene: B's tunnel stands where A's was, and it is A's turn. */
  lemma SceneUnregister(q: Quotas, born: map<string, Birth>, owed: set<string>)
    ensures var s := Scene(q, map["abc" := Entry("2", B())], born, owed, map[],
                           map[A() := Teardown({Entry("1", A())}, Waiting)]);
            var step := Unregister(A(), Entry("1", A()));
            && Enabled(s, step) && EntryAt(s, step.t) == Some(Entry("2", B()))
            && !Live(Apply(s, step), "2") && Apply(s, step).owed == owed
  {
    assert map["abc" := Entry("2", B())] - {"abc"} == map[];
  }

  /** It does happen: a session's tunnel is killed between its snapshot and its turn, another
      client registers the name, and the first session's teardown takes that tunnel away while
      it is active and charged. */
  lemma TeardownMayDeleteOther() returns (states: seq<State>, steps: seq<Step>, j: nat)
    ensures IsRun(states, steps) && j < |steps| && steps[j].Unregister?
    ensures EntryAt(states[j], steps[j].t).Some?
    ensures var victim := EntryAt(states[j], steps[j].t).value;
            && victim.session != steps[j].session && victim.token != steps[j].session.token
            && !victim.reserved && victim.id in states[j].owed
            && !Live(states[j + 1], victim.id) && victim.id in states[j + 1].owed
  {
    PlainTokens();
    states, steps := SecondAct();
    SceneUnregister(Counters(1, 1), Both(), {"1", "2"});
    j := |steps|;
    states, steps := OneMore(states, steps, Unregister(A(), Entry("1", A())));
  }

  function Both(): map<string, Birth> {
    map["1" := Birth(A(), Http), "2" := Birth(B(), Http)]
  }

  /** B registers the name. */
  lemma SecondAct() returns (states: seq<State>, steps: seq<Step>)
    ensures IsRun(states, steps)
    ensures states[|steps|] == Scene(Counters(1, 1), map["abc" := Entry("2", B())], Both(), {"1", "2"}, map[],
                                     map[A() := Teardown({Entry("1", A())}, Waiting)])
  {
    var torn := map[A() := Teardown({Entry("1", A())}, Waiting)];
    PlainTokens();
    CountersCharge(1);
    states, steps := FirstAct();
    SceneBegins(Counters(1, 0), Counters(1, 1), map[], map["1" := Birth(A(), Http)], {"1"}, torn, "2", B());
    states, steps := OneMore(states, steps, Begin("2", B(), Http, 80));
    assert {"1"} + {"2"} == {"1", "2"};
    SceneRegisters(Counters(1, 1), Both(), {"1", "2"}, torn, "2", B());
    states, steps := OneMore(states, steps, TryHTTP("2", "abc"));
  }

  /** A registers, its connection ends, and its tunnel is killed. */
  lemma FirstAct() returns (states: seq<State>, steps: seq<Step>)
    ensures IsRun(states, steps)
    ensures states[|steps|] == Scene(Counters(1, 0), map[], map["1" := Birth(A(), Http)], {"1"}, map[],
                                     map[A() := Teardown({Entry("1", A())}, Waiting)])
  {
    PlainTokens();
    CountersCharge(0);
    var q, born := Counters(1, 0), map["1" := Birth(A(), Http)];
    states, steps := [Scene(Counters(0, 0), map[], map[], {}, map[], map[])], [];
    SceneBegins(Counters(0, 0), q, map[], map[], {}, map[], "1", A());
    states, steps := OneMore(states, steps, Begin("1", A(), Http, 80));
    assert {} + {"1"} == {"1"};
    SceneRegisters(q, born, {"1"}, map[], "1", A());
    states, steps := OneMore(states, steps, TryHTTP("1", "abc"));
    SceneSnapshot(q, born, {"1"}, "1", A());
    states, steps := OneMore(states, steps, Snapshot(A()));
    SceneKill(q, born, {"1"}, map[A() := Teardown({Entry("1", A())}, Waiting)], "1", A());
    states, steps := OneMore(states, steps, KillHTTP("1", "abc", false));
  }
}
