/**
 Over every run of the control plane: who holds a name and for how long, where requests
 for it go, and what the anonymous expiry takes away.
 */
module RegistrySafety {
  import opened Names
  import opened Tunnels
  import opened ControlPlane
  import opened PortSafety

  // ---------------------------------------------------------------- one step

  /** An entry that is there after a step and did not just register was there before, and
      only its reservation may have changed. */
  lemma EntryStep(s: State, step: Step, sub: string)
    requires Identity(s) && Enabled(s, step)
    requires var s' := Apply(s, step);
             sub in s'.http && s'.http[sub].id in s.born && s'.http[sub].id !in s.requests
    ensures sub in s.http && SameTunnel(Apply(s, step).http[sub], s.http[sub])
  {
    var s' := Apply(s, step);
    if step.Begin? {
      assert s'.http == s.http;
    } else {
      StepFrames(s, step);
      if Registering(step) {
        RegisterEffect(s, step);
      }
    }
  }

  /** Only ReserveName touches a reservation. */
  lemma ReservationStep(s: State, step: Step, sub: string)
    requires Identity(s) && Enabled(s, step)
    requires var s' := Apply(s, step);
             sub in s'.http && s'.http[sub].id in s.born && s'.http[sub].id !in s.requests
    requires !(step.ReserveName? && step.sub == sub)
    ensures sub in s.http && Apply(s, step).http[sub] == s.http[sub]
  {
    EntryStep(s, step, sub);
    var s' := Apply(s, step);
    if Registering(step) {
      RegisterEffect(s, step);
    } else if TearsDown(step) {
      TeardownReservations(s, step, sub);
    } else if Kills(step) || Allocates(step) {
      KillReservations(s, step, sub);
    } else {
      OtherReservations(s, step, sub);
    }
  }

  lemma TeardownReservations(s: State, step: Step, sub: string)
    requires Enabled(s, step) && TearsDown(step) && sub in Apply(s, step).http
    ensures sub in s.http && Apply(s, step).http[sub] == s.http[sub]
  {
  }

  lemma KillReservations(s: State, step: Step, sub: string)
    requires Enabled(s, step) && (Kills(step) || Allocates(step)) && sub in Apply(s, step).http
    ensures sub in s.http && Apply(s, step).http[sub] == s.http[sub]
  {
  }

  lemma OtherReservations(s: State, step: Step, sub: string)
    requires Enabled(s, step) && !Kills(step) && !Allocates(step) && !TearsDown(step) && !Registering(step)
    requires !(step.ReserveName? && step.sub == sub) && sub in Apply(s, step).http
    ensures sub in s.http && Apply(s, step).http[sub] == s.http[sub]
  {
  }

  lemma OwnerStep(s: State, step: Step, sub: string)
    requires Identity(s) && Enabled(s, step) && sub in s.http && sub in Apply(s, step).http
    ensures Apply(s, step).http[sub].token == s.http[sub].token
  {
    var s' := Apply(s, step);
    if step.TryHTTP? {
      if step.sub == sub && RegisterHTTP(s.http, sub, s.requests[step.id].tunnel, s.now).Ok? {
        RegisterKeepsOwner(s.http, sub, s.requests[step.id].tunnel, s.now);
      }
    } else if step.Begin? {
      assert s'.http == s.http;
    } else {
      StepFrames(s, step);
    }
  }

  // ---------------------------------------------------------------- main results: names

  /** As long as a name is held it is held for one token, whatever registers, reserves,
      reclaims or is torn down meanwhile. */
  lemma {:induction false} OwnerNeverChanges(states: seq<State>, steps: seq<Step>, i: nat, j: nat, sub: string)
    requires IsRun(states, steps) && i <= j < |states|
    requires forall k :: i <= k <= j ==> sub in states[k].http
    ensures states[j].http[sub].token == states[i].http[sub].token
    decreases j - i
  {
    if i < j {
      OwnerNeverChanges(states, steps, i, j - 1, sub);
      IdentityAlways(states, steps, j - 1);
      assert states[j] == Apply(states[j - 1], steps[j - 1]);
      OwnerStep(states[j - 1], steps[j - 1], sub);
    }
  }

  /** A registered tunnel that is still registered has been so all along, under the same
      name and with the same record, reservations aside. */
  lemma {:induction false} EntryPersists(states: seq<State>, steps: seq<Step>, i: nat, j: nat, sub: string)
    requires IsRun(states, steps) && i <= j < |states| && sub in states[j].http
    requires states[j].http[sub].id in states[i].born && states[j].http[sub].id !in states[i].requests
    ensures sub in states[i].http && SameTunnel(states[j].http[sub], states[i].http[sub])
    decreases j - i
  {
    if i < j {
      var id := states[j].http[sub].id;
      IdentityAlways(states, steps, i);
      BornStep(states[i], steps[i], id);
      EntryPersists(states, steps, i + 1, j, sub);
      EntryStep(states[i], steps[i], sub);
    }
  }

  lemma BornStep(s: State, step: Step, id: string)
    requires Enabled(s, step) && id in s.born && id !in s.requests
    ensures id in Apply(s, step).born && id !in Apply(s, step).requests
  {
    StepFrames(s, step);
    if Registering(step) {
      assert Apply(s, step).born == s.born;
    }
  }

  ghost predicate NamesValid(s: State) {
    forall sub :: sub in s.http ==> ValidSubdomain(sub)
  }

  lemma NamesValidStep(s: State, step: Step)
    requires Identity(s) && NamesValid(s) && Enabled(s, step)
    ensures NamesValid(Apply(s, step))
  {
    var s' := Apply(s, step);
    if step.Begin? {
      assert s'.http == s.http;
    } else {
      StepFrames(s, step);
      if Registering(step) {
        RegisterEffect(s, step);
      }
    }
  }

  lemma {:induction false} NamesValidAlways(states: seq<State>, steps: seq<Step>, i: nat)
    requires IsRun(states, steps) && i < |states|
    ensures NamesValid(states[i])
  {
    if i > 0 {
      NamesValidAlways(states, steps, i - 1);
      IdentityAlways(states, steps, i - 1);
      NamesValidStep(states[i - 1], steps[i - 1]);
    }
  }

  /** Never refused: when RegisterHTTP admits a tunnel in any run, then at any later moment
      at which the tunnel is registered and not reserved, a request whose TLS server name
      spells the host of the tunnel's URL, in any letter case, is routed to that tunnel of
      that session, whatever its Host header; likewise one whose Host header does, with or
      without a port, if its server name (`other`) says nothing. The client reads the
      registered name off its URL. */
  lemma AdmittedTunnelIsRouted(states: seq<State>, steps: seq<Step>, i: nat, j: nat, id: string, sub: string,
                               name: string, domain: string, host: string, port: string, other: string,
                               dashboardEnabled: bool)
    requires IsRun(states, steps) && i < j < |states|
    requires i < |steps| && steps[i] == TryHTTP(id, sub) && id !in states[i + 1].requests
    requires name in states[j].http && states[j].http[name].id == id && !states[j].http[name].reserved
    requires ':' !in domain && ':' !in port
    requires ToLower(host) == ToLower(sub + "." + domain)
    ensures var http, t := states[j].http, states[j].http[name];
            && t.session == states[i].requests[id].tunnel.session
            && RouteTLS(http, host, other, domain, dashboardEnabled) == ToTunnel(t)
            && (ExtractSubdomain(other, domain) == "" ==>
                  && RouteTLS(http, other, host, domain, dashboardEnabled) == ToTunnel(t)
                  && RouteTLS(http, other, host + ":" + port, domain, dashboardEnabled) == ToTunnel(t))
    ensures FirstLabel(StripScheme(TunnelURL(sub, domain))) == sub
  {
    AdmittedStands(states, steps, i, j, id, sub, name);
    NamesValidAlways(states, steps, j);
    RegisteredNameRoutes(states[j].http, sub, domain, host, port, other, dashboardEnabled);
  }

  lemma AdmittedStands(states: seq<State>, steps: seq<Step>, i: nat, j: nat, id: string, sub: string, name: string)
    requires IsRun(states, steps) && i < j < |states|
    requires i < |steps| && steps[i] == TryHTTP(id, sub) && id !in states[i + 1].requests
    requires name in states[j].http && states[j].http[name].id == id
    ensures name == sub && states[j].http[name].session == states[i].requests[id].tunnel.session
  {
    IdentityAlways(states, steps, i);
    RegisterEffect(states[i], steps[i]);
    assert states[i].requests[id].tunnel.id == id;
    assert states[i + 1].born == states[i].born;
    EntryPersists(states, steps, i + 1, j, name);
    IdentityAlways(states, steps, i + 1);
    assert states[i + 1].http[sub].id == id;
  }

  /** Exactly when RegisterHTTP admits a request: the name is valid, and free or reserved for the
      same token until a time that has not come. A refused attempt changes nothing. */
  lemma AdmittedIff(s: State, id: string, sub: string)
    requires Enabled(s, TryHTTP(id, sub))
    ensures var s', t := Apply(s, TryHTTP(id, sub)), s.requests[id].tunnel;
            var free := sub in s.http ==>
                          s.http[sub].reserved && s.http[sub].token == t.token && s.now < s.http[sub].reservedUntil;
            if ValidSubdomain(sub) && free then
              && s'.http == s.http[sub := t.(subdomain := sub, createdAt := s.now)]
              && id !in s'.requests && s'.requests == s.requests - {id}
            else s' == s
  {
  }

  // ---------------------------------------------------------------- main results: reservations

  /** The reaper deletes exactly the reservations that were past their deadline at its clock
      read; so never an active entry, nor one that its token could still reclaim. */
  lemma ReaperIsExact(states: seq<State>, steps: seq<Step>, i: nat, at: int, sub: string)
    requires IsRun(states, steps) && i < |steps| && steps[i] == ReaperTick(at) && sub in states[i].http
    ensures var t := states[i].http[sub];
            && (sub !in states[i + 1].http <==> t.reserved && at > t.reservedUntil)
            && (sub in states[i + 1].http ==> states[i + 1].http[sub] == t)
            && (!t.reserved || Reclaimable(t, t.token, states[i].now) ==> sub in states[i + 1].http)
  {
    assert states[i + 1] == Apply(states[i], steps[i]);
  }

  /** The reaper ticks at least once in every stretch of `period`, reading the clock within it. */
  ghost predicate ReaperTicksEvery(states: seq<State>, steps: seq<Step>, period: int)
    requires IsRun(states, steps)
  {
    forall i, j :: 0 <= i <= j < |states| && states[j].now >= states[i].now + period ==>
      TickedIn(states, steps, i, j, states[j].now - period)
  }

  ghost predicate TickedIn(states: seq<State>, steps: seq<Step>, i: nat, j: nat, after: int)
    requires |states| == |steps| + 1 && i <= j < |states|
  {
    exists k :: i <= k < j && steps[k].ReaperTick? && steps[k].at > after
  }

  lemma {:induction false} ReservationUnchanged(states: seq<State>, steps: seq<Step>, i: nat, j: nat, sub: string)
    requires IsRun(states, steps) && i <= j < |states| && sub in states[i].http && sub in states[j].http
    requires states[j].http[sub].id == states[i].http[sub].id
    requires forall k :: i <= k < j ==> !(steps[k].ReserveName? && steps[k].sub == sub)
    ensures states[j].http[sub] == states[i].http[sub]
    decreases j - i
  {
    if i < j {
      UnchangedBefore(states, steps, i, j, sub);
      ReservationUnchanged(states, steps, i, j - 1, sub);
    }
  }

  lemma UnchangedBefore(states: seq<State>, steps: seq<Step>, i: nat, j: nat, sub: string)
    requires IsRun(states, steps) && i < j < |states| && sub in states[i].http && sub in states[j].http
    requires states[j].http[sub].id == states[i].http[sub].id
    requires !(steps[j - 1].ReserveName? && steps[j - 1].sub == sub)
    ensures sub in states[j - 1].http && states[j - 1].http[sub] == states[j].http[sub]
  {
    var s, step := states[j - 1], steps[j - 1];
    assert Enabled(s, step) && states[j] == Apply(s, step);
    IdentityAlways(states, steps, i);
    assert states[i].http[sub].id in states[i].born && states[i].http[sub].id !in states[i].requests;
    StaysBorn(states, steps, i, j - 1, states[i].http[sub].id);
    IdentityAlways(states, steps, j - 1);
    ReservationStep(s, step, sub);
  }

  lemma {:induction false} StaysBorn(states: seq<State>, steps: seq<Step>, i: nat, j: nat, id: string)
    requires IsRun(states, steps) && i <= j < |states| && id in states[i].born && id !in states[i].requests
    ensures id in states[j].born && id !in states[j].requests
    decreases j - i
  {
    if i < j {
      StaysBorn(states, steps, i, j - 1, id);
      BornStep(states[j - 1], steps[j - 1], id);
    }
  }

  /** A name that was reserved for `ttl` is held for its token: as long as the reservation
      stands nobody is served under it, and who asks for it gets it if and only if it is the same
      token and the ttl has not run out. */
  lemma ReservedForOwner(states: seq<State>, steps: seq<Step>, i: nat, j: nat, sub: string, ttl: int, id: string)
    requires IsRun(states, steps) && i < j < |steps| && steps[i] == ReserveName(sub, ttl) && steps[j] == TryHTTP(id, sub)
    requires sub in states[i].http && sub in states[j].http && states[j].http[sub].id == states[i].http[sub].id
    requires forall k :: i < k < j ==> !(steps[k].ReserveName? && steps[k].sub == sub)
    ensures LookupHTTP(states[j].http, sub).None?
    ensures id in states[j].requests
    ensures id !in states[j + 1].requests <==>
              states[j].requests[id].tunnel.token == states[i].http[sub].token && states[j].now < states[i].now + ttl
  {
    var s := states[i];
    ReserveEffect(s, sub, ttl);
    assert states[i + 1] == Apply(s, steps[i]);
    ReservationUnchanged(states, steps, i + 1, j, sub);
    NamesValidAlways(states, steps, j);
    AdmittedIff(states[j], id, sub);
    assert Enabled(states[j], steps[j]) && states[j + 1] == Apply(states[j], steps[j]);
  }

  lemma ReserveEffect(s: State, sub: string, ttl: int)
    requires Enabled(s, ReserveName(sub, ttl)) && sub in s.http
    ensures var http := Apply(s, ReserveName(sub, ttl)).http;
            http == s.http[sub := s.http[sub].(reserved := true, reservedUntil := s.now + ttl)]
  {
  }

  /** A reservation that is neither renewed nor reclaimed does not survive the first reaper
      tick whose clock read is past the deadline. */
  lemma ReservationEnds(states: seq<State>, steps: seq<Step>, i: nat, k: nat, j: nat, sub: string)
    requires IsRun(states, steps) && i <= k < j < |states| && sub in states[i].http && states[i].http[sub].reserved
    requires forall m :: i <= m < j ==> !(steps[m].ReserveName? && steps[m].sub == sub)
    requires steps[k].ReaperTick? && steps[k].at > states[i].http[sub].reservedUntil
    ensures sub in states[j].http ==> states[j].http[sub].id != states[i].http[sub].id
  {
    var id := states[i].http[sub].id;
    if sub in states[j].http && states[j].http[sub].id == id {
      IdentityAlways(states, steps, i);
      StaysBorn(states, steps, i, k, id);
      StaysBorn(states, steps, k, k + 1, id);
      EntryPersists(states, steps, k, j, sub);
      ReservationUnchanged(states, steps, i, k, sub);
      ReaperIsExact(states, steps, k, steps[k].at, sub);
      EntryPersists(states, steps, k + 1, j, sub);
    }
  }

  /** So with a reaper that ticks every `period`, it is gone one period after the deadline. */
  lemma ReservationGoneInTime(states: seq<State>, steps: seq<Step>, i: nat, j: nat, sub: string, period: int)
    requires IsRun(states, steps) && i <= j < |states| && sub in states[i].http && states[i].http[sub].reserved
    requires forall m :: i <= m < j ==> !(steps[m].ReserveName? && steps[m].sub == sub)
    requires ReaperTicksEvery(states, steps, period)
    requires states[i].now <= states[i].http[sub].reservedUntil
    requires states[j].now >= states[i].http[sub].reservedUntil + period
    ensures sub in states[j].http ==> states[j].http[sub].id != states[i].http[sub].id
  {
    assert TickedIn(states, steps, i, j, states[j].now - period);
    var k :| i <= k < j && steps[k].ReaperTick? && steps[k].at > states[j].now - period;
    ReservationEnds(states, steps, i, k, j, sub);
  }

  // ---------------------------------------------------------------- main results: anonymous expiry

  predicate Qualifies(t: Tunnel, p: Pass) {
    IsAnon(t.token) && p.at - t.createdAt > p.ttl
  }

  /** What the pass still wants to kill qualified when it was collected and can only have
      grown older; what it is done with has left for good. */
  ghost predicate PassSound(s: State) {
    && (s.pass.Some? ==>
          var p := s.pass.value;
          && p.at <= s.now
          && (forall id :: id in p.todo ==> id in s.born && id !in s.requests)
          && (forall sub :: sub in s.http && s.http[sub].id in p.todo ==> Qualifies(s.http[sub], p))
          && (forall port :: port in s.tcp && s.tcp[port].id in p.todo ==> Qualifies(s.tcp[port], p))
          && (forall id :: id in p.done ==> Departed(s, id)))
    && (s.kill.Some? && s.kill.value.byPass ==> WantedByPass(s, s.kill.value.id))
  }

  lemma PassStep(s: State, step: Step)
    requires Identity(s) && Ports(s) && PassSound(s) && Enabled(s, step)
    ensures PassSound(Apply(s, step))
  {
    var s' := Apply(s, step);
    IdentityStep(s, step);
    if s.pass.Some? {
      forall id | id in s.pass.value.done
        ensures Departed(s', id)
      {
        DepartedStep(s, step, id);
      }
    }
    if Kills(step) {
      PassKills(s, step);
    } else {
      StepFrames(s, step);
      if step.Begin? {
        assert s'.http == s.http && s'.tcp == s.tcp;
      } else if Registering(step) {
        RegisterEffect(s, step);
      }
      PassThins(s, step);
    }
  }

  lemma PassThins(s: State, step: Step)
    requires Identity(s) && PassSound(s) && Enabled(s, step) && !Kills(step)
    requires s.pass.Some? ==> forall id :: id in s.pass.value.done ==> Departed(Apply(s, step), id)
    ensures PassSound(Apply(s, step))
  {
    var s' := Apply(s, step);
    StepFrames(s, step);
    if s.pass.Some? {
      var p := s.pass.value;
      forall id | id in p.todo
        ensures id in s'.born && id !in s'.requests
      {
        BornStep(s, step, id);
      }
      forall sub | sub in s'.http && s'.http[sub].id in p.todo
        ensures Qualifies(s'.http[sub], p)
      {
        EntryStep(s, step, sub);
      }
      forall port | port in s'.tcp && s'.tcp[port].id in p.todo
        ensures Qualifies(s'.tcp[port], p)
      {
        TcpEntryStep(s, step, port);
      }
    }
  }

  lemma TcpEntryStep(s: State, step: Step, port: int)
    requires Identity(s) && Enabled(s, step)
    requires var s' := Apply(s, step);
             port in s'.tcp && s'.tcp[port].id in s.born && s'.tcp[port].id !in s.requests
    ensures port in s.tcp && Apply(s, step).tcp[port] == s.tcp[port]
  {
    var s' := Apply(s, step);
    if step.Begin? {
      assert s'.tcp == s.tcp;
    } else {
      StepFrames(s, step);
      if Registering(step) {
        RegisterEffect(s, step);
      }
    }
  }

  lemma PassKills(s: State, step: Step)
    requires Identity(s) && Ports(s) && PassSound(s) && Enabled(s, step) && Kills(step)
    requires s.pass.Some? ==> forall id :: id in s.pass.value.done ==> Departed(Apply(s, step), id)
    ensures PassSound(Apply(s, step))
  {
    KillFrames(s, step);
    if step.KillHTTP? {
      PassKillHTTP(s, step);
    } else if step.KillDelete? {
      PassKillDelete(s, step);
    } else if step.Collect? {
      PassCollect(s, step);
    } else if step.KillMisses? {
      assert Departed(Apply(s, step), step.id);
    }
  }

  lemma PassKillHTTP(s: State, step: Step)
    requires Identity(s) && PassSound(s) && Enabled(s, step) && step.KillHTTP?
    requires s.pass.Some? ==> forall id :: id in s.pass.value.done ==> Departed(Apply(s, step), id)
    ensures PassSound(Apply(s, step))
  {
    var s' := Apply(s, step);
    assert s'.http == s.http - {step.sub};
    assert forall p :: p in s.tcp ==> s.tcp[p].id != step.id;
    assert Departed(s', step.id);
  }

  lemma PassKillDelete(s: State, step: Step)
    requires Identity(s) && RegisteredPorts(s) && PassSound(s) && Enabled(s, step) && step.KillDelete?
    requires s.pass.Some? ==> forall id :: id in s.pass.value.done ==> Departed(Apply(s, step), id)
    ensures PassSound(Apply(s, step))
  {
    var s', k := Apply(s, step), s.kill.value;
    assert s'.tcp == s.tcp - {k.port};
    assert s.tcp[k.port].id == k.id;
    assert forall sub :: sub in s.http ==> s.http[sub].id != k.id;
    assert Departed(s', k.id);
  }

  lemma PassCollect(s: State, step: Step)
    requires Identity(s) && Enabled(s, step) && step.Collect?
    ensures PassSound(Apply(s, step))
  {
    var s' := Apply(s, step);
    assert s'.http == s.http && s'.tcp == s.tcp && s'.requests == s.requests && s'.born == s.born;
    forall sub | sub in s.http && s.http[sub].id in TooOldIds(s, step.at, step.ttl)
      ensures Qualifies(s.http[sub], s'.pass.value)
    {
      assert forall p :: p in s.tcp ==> s.tcp[p].id != s.http[sub].id;
    }
    forall p | p in s.tcp && s.tcp[p].id in TooOldIds(s, step.at, step.ttl)
      ensures Qualifies(s.tcp[p], s'.pass.value)
    {
      assert forall sub :: sub in s.http ==> s.http[sub].id != s.tcp[p].id;
    }
  }

  lemma {:induction false} PassAlways(states: seq<State>, steps: seq<Step>, i: nat)
    requires IsRun(states, steps) && i < |states|
    ensures PassSound(states[i])
  {
    if i > 0 {
      PassAlways(states, steps, i - 1);
      PortsAlways(states, steps, i - 1);
      PassStep(states[i - 1], steps[i - 1]);
    }
  }

  /** Whatever the pass itself deletes is an anonymous tunnel that is older than the ttl when
      it goes, although it was picked under an earlier lock. */
  lemma PassKillsOnlyOldAnonymous(states: seq<State>, steps: seq<Step>, i: nat, sub: string, port: int)
    requires IsRun(states, steps) && i < |steps|
    ensures steps[i].KillHTTP? && steps[i].byPass && steps[i].sub == sub ==>
              && sub in states[i].http && states[i].pass.Some?
              && IsAnon(states[i].http[sub].token)
              && states[i].now - states[i].http[sub].createdAt > states[i].pass.value.ttl
    ensures steps[i].KillDelete? && states[i].kill.value.byPass && states[i].kill.value.port == port ==>
              && port in states[i].tcp && states[i].pass.Some?
              && IsAnon(states[i].tcp[port].token)
              && states[i].now - states[i].tcp[port].createdAt > states[i].pass.value.ttl
  {
    PassAlways(states, steps, i);
    PortsAlways(states, steps, i);
  }

  /** The tunnel `id` is one that the pass with this clock read has to take away: an HTTP
      tunnel in use or a TCP tunnel, of an anonymous token, registered for longer than the ttl. */
  ghost predicate Overdue(s: State, id: string, at: int, ttl: int) {
    || (exists sub :: && sub in s.http && s.http[sub].id == id && "anon:" <= s.http[sub].token
                      && !s.http[sub].reserved && at - s.http[sub].createdAt > ttl)
    || (exists p :: && p in s.tcp && s.tcp[p].id == id && "anon:" <= s.tcp[p].token
                    && at - s.tcp[p].createdAt > ttl)
  }

  /** A pass collects exactly these. */
  lemma CollectsOverdue(s: State, at: int, ttl: int, id: string)
    requires Enabled(s, Collect(at, ttl))
    ensures var p := Apply(s, Collect(at, ttl)).pass;
            p.Some? && p.value.done == {} && (id in p.value.todo <==> Overdue(s, id, at, ttl))
  {
    OverdueIs(s, id, at, ttl);
  }

  lemma OverdueIs(s: State, id: string, at: int, ttl: int)
    ensures id in TooOldIds(s, at, ttl) <==> Overdue(s, id, at, ttl)
  {
    var http := set sub | sub in s.http && !s.http[sub].reserved && AnonTooOld(s.http[sub], at, ttl) :: s.http[sub].id;
    var tcp := set p | p in s.tcp && AnonTooOld(s.tcp[p], at, ttl) :: s.tcp[p].id;
    assert TooOldIds(s, at, ttl) == http + tcp;
    if id in tcp {
      var p: int :| p in s.tcp && AnonTooOld(s.tcp[p], at, ttl) && s.tcp[p].id == id;
    }
  }

  /** What a pass still has to kill and what it is done with are, until the next one starts,
      the tunnels that were overdue when it collected. */
  lemma {:induction false} PassAccounts(states: seq<State>, steps: seq<Step>, i: nat, j: nat, id: string)
    requires IsRun(states, steps) && i < j < |states| && steps[i].Collect?
    requires forall k :: i < k < j ==> !steps[k].Collect?
    ensures states[j].pass.Some?
    ensures id in states[j].pass.value.todo || id in states[j].pass.value.done
            <==> Overdue(states[i], id, steps[i].at, steps[i].ttl)
    decreases j - i
  {
    if j == i + 1 {
      CollectsOverdue(states[i], steps[i].at, steps[i].ttl, id);
      assert states[j] == Apply(states[i], steps[i]);
    } else {
      PassAccounts(states, steps, i, j - 1, id);
      PassAlways(states, steps, j - 1);
      PassAccountsStep(states[j - 1], steps[j - 1]);
    }
  }

  lemma PassAccountsStep(s: State, step: Step)
    requires Enabled(s, step) && !step.Collect? && s.pass.Some? && PassSound(s)
    ensures var s' := Apply(s, step);
            && s'.pass.Some?
            && s'.pass.value.todo + s'.pass.value.done == s.pass.value.todo + s.pass.value.done
  {
    if !Kills(step) {
      StepFrames(s, step);
    }
  }

  /** When a pass has worked through its list, every tunnel that was overdue at its collection
      is gone, and stays gone. */
  lemma PassClears(states: seq<State>, steps: seq<Step>, i: nat, j: nat, id: string)
    requires IsRun(states, steps) && i < j < |states| && steps[i].Collect?
    requires forall k :: i < k < j ==> !steps[k].Collect?
    requires states[j].pass.Some? && states[j].pass.value.todo == {}
    requires Overdue(states[i], id, steps[i].at, steps[i].ttl)
    ensures forall k :: j <= k < |states| ==> !Live(states[k], id)
  {
    PassAccounts(states, steps, i, j, id);
    PassAlways(states, steps, j);
    assert Departed(states[j], id);
    forall k | j <= k < |states|
      ensures !Live(states[k], id)
    {
      DepartedStays(states, steps, j, k, id);
    }
  }

  lemma {:induction false} DepartedStays(states: seq<State>, steps: seq<Step>, i: nat, k: nat, id: string)
    requires IsRun(states, steps) && i <= k < |states| && Departed(states[i], id)
    ensures Departed(states[k], id)
    decreases k - i
  {
    if i < k {
      DepartedStays(states, steps, i, k - 1, id);
      IdentityAlways(states, steps, k - 1);
      DepartedStep(states[k - 1], steps[k - 1], id);
    }
  }
}
