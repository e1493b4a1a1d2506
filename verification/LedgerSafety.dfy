/**
 Over every run of the control plane: a token's counter to the unit. Each charge on the books
 is a registered tunnel, a request under way, a refund some teardown still owes, or an orphan:
 a tunnel that was removed with nobody left to refund it.
 */
module LedgerSafety {
  import opened Tunnels
  import opened Quotas
  import opened ControlPlane
  import opened QuotaSafety
  import opened PortSafety
  import opened RegistrySafety
  import opened TeardownSafety

  // ---------------------------------------------------------------- where a charge can be

  predicate Holds(td: Teardown, id: string) {
    || (exists t :: t in td.todo && t.id == id)
    || (!td.work.Waiting? && td.work.t.id == id)
  }

  /** Some teardown still has the tunnel on its list or is about to refund it. */
  predicate HeldByTeardown(s: State, id: string) {
    exists ses :: ses in s.teardowns && Holds(s.teardowns[ses], id)
  }

  /** Charged, gone, and nobody will refund it. */
  ghost predicate Orphan(s: State, id: string) {
    id in s.owed && id !in s.requests && !Live(s, id) && !HeldByTeardown(s, id)
  }

  ghost function LiveOf(s: State, token: string): set<string> {
    set id | id in OwedBy(s, token) && Live(s, id)
  }

  ghost function InFlightOf(s: State, token: string): set<string> {
    set id | id in s.requests && s.requests[id].tunnel.token == token
  }

  ghost function PendingOf(s: State, token: string): set<string> {
    set id | id in OwedBy(s, token) && !Live(s, id) && HeldByTeardown(s, id)
  }

  ghost function OrphansOf(s: State, token: string): set<string> {
    set id | id in OwedBy(s, token) && Orphan(s, id)
  }

  // ---------------------------------------------------------------- every charge is in one place

  lemma HeldIsNotRequested(s: State, id: string)
    requires Teardowns(s) && HeldByTeardown(s, id)
    ensures id !in s.requests
  {
    var ses :| ses in s.teardowns && Holds(s.teardowns[ses], id);
    var td := s.teardowns[ses];
    assert Orderly(s, ses, td);
    if t :| t in td.todo && t.id == id {
      assert Held(s, ses, t);
    }
  }

  lemma RequestedIsNotLive(s: State, id: string)
    requires Identity(s) && id in s.requests
    ensures !Live(s, id)
  {
    assert forall p :: p in s.tcp ==> s.tcp[p].id !in s.requests;
  }

  lemma InFlightIsOwed(s: State, token: string)
    requires Books(s) && !IsAnon(token)
    ensures InFlightOf(s, token) == set id | id in OwedBy(s, token) && id in s.requests
  {
    forall id | id in s.requests
      ensures s.requests[id].tunnel.token == token <==> id in OwedBy(s, token)
    {
      var t := s.requests[id].tunnel;
      assert Genuine(s, t) && t.id == id && Covered(s.owed, t);
    }
  }

  lemma LiveAreCounted(s: State, token: string)
    requires Books(s) && !IsAnon(token)
    ensures |LiveOf(s, token)| == LiveCount(s.http, s.tcp, token)
  {
    HttpIdsAreOwed(s, token);
    TcpIdsAreOwed(s, token);
    LiveIsBothMaps(s, token);
    var httpIds, tcpIds := TokenIds(s.http, token), TokenIds(s.tcp, token);
    assert httpIds * tcpIds == {};
    assert |httpIds + tcpIds| == |httpIds| + |tcpIds|;
  }

  lemma LiveIsBothMaps(s: State, token: string)
    requires Books(s) && !IsAnon(token)
    ensures LiveOf(s, token) == TokenIds(s.http, token) + TokenIds(s.tcp, token)
  {
    forall id
      ensures id in LiveOf(s, token) <==> id in TokenIds(s.http, token) + TokenIds(s.tcp, token)
    {
      LiveIdsAre(s, token, id);
    }
  }

  lemma LiveIdsAre(s: State, token: string, id: string)
    requires Books(s) && !IsAnon(token)
    ensures id in LiveOf(s, token) <==> id in TokenIds(s.http, token) + TokenIds(s.tcp, token)
  {
    HttpIdsAreOwed(s, token);
    TcpIdsAreOwed(s, token);
    if id in TokenIds(s.http, token) {
      var sub := KeyWithId(s.http, KeysOf(s.http, token), id);
      assert s.http[sub].id == id;
    }
    if id in TokenIds(s.tcp, token) {
      var p := KeyWithId(s.tcp, KeysOf(s.tcp, token), id);
      assert s.tcp[p].id == id;
    }
    if id in LiveOf(s, token) {
      if LiveHttp(s, id) {
        var sub :| sub in s.http && s.http[sub].id == id;
        assert Genuine(s, s.http[sub]);
        assert sub in KeysOf(s.http, token);
      } else {
        var p: int :| p in s.tcp && s.tcp[p].id == id;
        assert Genuine(s, s.tcp[p]);
        IdOfKey(s.tcp, p, token);
      }
    }
  }

  lemma IdOfKey<K>(m: map<K, Tunnel>, k: K, token: string)
    requires k in m && m[k].token == token
    ensures m[k].id in TokenIds(m, token)
  {
    assert k in KeysOf(m, token);
  }

  /** At every moment of every run the counter is the registered tunnels, the requests under
      way, the refunds that teardowns still owe, and the orphans. */
  lemma CounterExact(states: seq<State>, steps: seq<Step>, i: nat, token: string)
    requires IsRun(states, steps) && i < |states| && !IsAnon(token)
    ensures var s := states[i];
            Count(s.quotas, token)
            == LiveCount(s.http, s.tcp, token) + |InFlightOf(s, token)| + |PendingOf(s, token)| + |OrphansOf(s, token)|
  {
    BooksAlways(states, steps, i);
    PlacesOfCharges(states[i], token);
    LiveAreCounted(states[i], token);
  }

  lemma InFlightIsApart(s: State, id: string)
    requires Identity(s) && Teardowns(s) && id in s.requests
    ensures !Live(s, id) && !HeldByTeardown(s, id)
  {
    RequestedIsNotLive(s, id);
    if HeldByTeardown(s, id) {
      HeldIsNotRequested(s, id);
      assert false;
    }
  }

  /** A charge is in exactly one of the four places. */
  lemma PlaceOf(s: State, token: string, id: string)
    requires Books(s) && !IsAnon(token)
    ensures var live, inFlight, pending, orphan :=
              id in LiveOf(s, token), id in InFlightOf(s, token), id in PendingOf(s, token), id in OrphansOf(s, token);
            && (id in OwedBy(s, token) <==> live || inFlight || pending || orphan)
            && !(live && inFlight) && !(live && pending) && !(live && orphan)
            && !(inFlight && pending) && !(inFlight && orphan) && !(pending && orphan)
  {
    InFlightIsOwed(s, token);
    if id in s.requests {
      InFlightIsApart(s, id);
    }
  }

  lemma PlacesOfCharges(s: State, token: string)
    requires Books(s) && !IsAnon(token)
    ensures |OwedBy(s, token)|
            == |LiveOf(s, token)| + |InFlightOf(s, token)| + |PendingOf(s, token)| + |OrphansOf(s, token)|
  {
    var all, live, inFlight := OwedBy(s, token), LiveOf(s, token), InFlightOf(s, token);
    var pending, orphans := PendingOf(s, token), OrphansOf(s, token);
    forall id
      ensures id in all <==> id in live || id in inFlight || id in pending || id in orphans
      ensures id in live ==> id !in inFlight && id !in pending && id !in orphans
      ensures id in inFlight ==> id !in pending && id !in orphans
      ensures id in pending ==> id !in orphans
    {
      PlaceOf(s, token, id);
    }
    FourParts(all, live, inFlight, pending, orphans);
  }

  lemma FourParts(all: set<string>, a: set<string>, b: set<string>, c: set<string>, d: set<string>)
    requires forall x :: x in all <==> x in a || x in b || x in c || x in d
    requires forall x :: x in a ==> x !in b && x !in c && x !in d
    requires forall x :: x in b ==> x !in c && x !in d
    requires forall x :: x in c ==> x !in d
    ensures |all| == |a| + |b| + |c| + |d|
  {
    assert all == a + b + c + d;
    assert a * b == {} && (a + b) * c == {} && (a + b + c) * d == {};
    assert |a + b| == |a| + |b|;
    assert |a + b + c| == |a + b| + |c|;
  }

  // ---------------------------------------------------------------- how orphans come about

  /** The step removes a charged tunnel that no teardown holds. */
  ghost predicate MakesOrphan(s: State, step: Step, id: string)
    requires Enabled(s, step)
  {
    id in s.owed && RemovedBy(s, step, id) && !HeldByTeardown(Apply(s, step), id)
  }

  lemma HeldStep(s: State, step: Step, id: string)
    requires Enabled(s, step)
    ensures HeldByTeardown(Apply(s, step), id) ==> HeldByTeardown(s, id) || (step.Snapshot? && Live(s, id))
    ensures HeldByTeardown(s, id) ==>
              || HeldByTeardown(Apply(s, step), id)
              || (step.RefundNext? && s.teardowns[step.session].work.t.id == id)
  {
    var s' := Apply(s, step);
    if !TearsDown(step) {
      StepFrames(s, step);
    } else {
      OwnHoldStep(s, step, id);
      assert forall ses :: ses in s'.teardowns && ses != step.session ==> ses in s.teardowns && s'.teardowns[ses] == s.teardowns[ses];
      assert forall ses :: ses in s.teardowns && ses != step.session ==> ses in s'.teardowns && s'.teardowns[ses] == s.teardowns[ses];
    }
  }

  lemma OwnHoldStep(s: State, step: Step, id: string)
    requires Enabled(s, step) && TearsDown(step)
    ensures var s' := Apply(s, step);
            && step.session in s'.teardowns
            && (Holds(s'.teardowns[step.session], id) ==>
                  || (step.session in s.teardowns && Holds(s.teardowns[step.session], id))
                  || (step.Snapshot? && Live(s, id)))
            && (step.session in s.teardowns && Holds(s.teardowns[step.session], id) ==>
                  || Holds(s'.teardowns[step.session], id)
                  || (step.RefundNext? && s.teardowns[step.session].work.t.id == id))
  {
    if step.Snapshot? {
      var td := Apply(s, step).teardowns[step.session];
      if t :| t in td.todo && t.id == id {
        LiveAt(s, id);
      }
    }
  }

  lemma RequestStep(s: State, step: Step, id: string)
    requires Identity(s) && Enabled(s, step) && id in s.requests
    ensures id in Apply(s, step).requests || Live(Apply(s, step), id) || (step.Refuse? && step.id == id)
  {
    var s' := Apply(s, step);
    if Registering(step) {
      RegisterEffect(s, step);
      LiveAt(s', id);
      assert s.requests[step.id].tunnel.id == step.id;
      if id == step.id && Registers(s, s', NewTunnel(s, step)) {
        var t := NewTunnel(s, step);
        assert if t.kind == Http then s'.http[t.subdomain] == t else s'.tcp[t.port] == t;
      } else {
        OtherRequests(s, step, id);
      }
    } else {
      RequestsKept(s, step, id);
    }
  }

  lemma OtherRequests(s: State, step: Step, id: string)
    requires Identity(s) && Enabled(s, step) && Registering(step) && id in s.requests
    requires id == step.id ==> !Registers(s, Apply(s, step), NewTunnel(s, step))
    ensures id in Apply(s, step).requests
  {
    if step.TryHTTP? {
      assert NewTunnel(s, step).id == step.id;
    }
  }

  lemma RequestsKept(s: State, step: Step, id: string)
    requires Enabled(s, step) && !Registering(step) && id in s.requests
    ensures id in Apply(s, step).requests || (step.Refuse? && step.id == id)
  {
  }

  /** Orphans stay orphans: nothing refunds them. */
  lemma OrphanStays(s: State, step: Step, id: string)
    requires Books(s) && Enabled(s, step) && Orphan(s, id)
    ensures Orphan(Apply(s, step), id)
  {
    DepartedStep(s, step, id);
    HeldStep(s, step, id);
    StepFrames(s, step);
    if Repays(step) {
      RepayEffect(s, step);
      assert Repaid(s, step).id != id;
    }
  }

  lemma OrphanMade(s: State, step: Step, id: string)
    requires Books(s) && RegisteredPorts(s) && Enabled(s, step) && !Orphan(s, id)
    ensures Orphan(Apply(s, step), id) <==> MakesOrphan(s, step, id)
  {
    LeavesIff(s, step, id);
    if Orphan(Apply(s, step), id) {
      OrphanWasLive(s, step, id);
    }
    if MakesOrphan(s, step, id) {
      RemovedIsOrphan(s, step, id);
    }
  }

  lemma OrphanWasLive(s: State, step: Step, id: string)
    requires Books(s) && Enabled(s, step) && !Orphan(s, id) && Orphan(Apply(s, step), id)
    ensures Live(s, id) && id in s.owed
  {
    HeldStep(s, step, id);
    StepFrames(s, step);
    if Repays(step) {
      RepayEffect(s, step);
    }
    if id in s.requests {
      RequestStep(s, step, id);
    }
  }

  lemma RemovedIsOrphan(s: State, step: Step, id: string)
    requires Books(s) && Enabled(s, step) && id in s.owed && Live(s, id) && !Live(Apply(s, step), id)
    requires !HeldByTeardown(Apply(s, step), id) && !Repays(step)
    ensures Orphan(Apply(s, step), id)
  {
    if id in s.requests {
      RequestedIsNotLive(s, id);
    }
    BornStep(s, step, id);
    StepFrames(s, step);
  }

  // ---------------------------------------------------------------- over whole runs

  lemma {:induction false} LedgerAlways(states: seq<State>, steps: seq<Step>, i: nat)
    requires IsRun(states, steps) && i < |states|
    ensures Books(states[i]) && RegisteredPorts(states[i])
  {
    BooksAlways(states, steps, i);
    PortsAlways(states, steps, i);
  }

  lemma OrphanStep(s: State, step: Step, id: string)
    requires Books(s) && RegisteredPorts(s) && Enabled(s, step)
    ensures Orphan(Apply(s, step), id) <==> Orphan(s, id) || MakesOrphan(s, step, id)
  {
    if Orphan(s, id) {
      OrphanStays(s, step, id);
    } else {
      OrphanMade(s, step, id);
    }
  }

  ghost predicate OrphanedBefore(states: seq<State>, steps: seq<Step>, j: nat, id: string)
    requires IsRun(states, steps) && j <= |steps|
  {
    exists k {:trigger steps[k]} :: 0 <= k < j && MakesOrphan(states[k], steps[k], id)
  }

  /** The orphans are exactly the charged tunnels that some earlier step, by a kill, the reaper,
      a reclaim or another session's teardown, removed while no teardown held them. */
  lemma {:induction false} OrphansAre(states: seq<State>, steps: seq<Step>, j: nat, id: string)
    requires IsRun(states, steps) && j < |states|
    ensures Orphan(states[j], id) <==> OrphanedBefore(states, steps, j, id)
  {
    if j > 0 {
      OrphansAre(states, steps, j - 1, id);
      LedgerAlways(states, steps, j - 1);
      OrphanStep(states[j - 1], steps[j - 1], id);
    }
  }

  lemma OwnTurnHolds(s: State, session: Session, t: Tunnel)
    requires Enabled(s, Unregister(session, t))
    ensures HeldByTeardown(Apply(s, Unregister(session, t)), t.id)
  {
    assert Holds(Apply(s, Unregister(session, t)).teardowns[session], t.id);
  }

  /** An orphan is the work of one of these. */
  lemma WhoMakesOrphans(s: State, step: Step, id: string)
    requires Enabled(s, step) && MakesOrphan(s, step, id)
    ensures step.KillHTTP? || step.KillDelete? || step.ReaperTick? || step.TryHTTP?
            || (step.Unregister? && DeletesOther(s, step.t))
  {
    if step.Unregister? {
      OwnTurnHolds(s, step.session, step.t);
    }
  }
}
