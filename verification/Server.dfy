/**
 The server's handlers as the source has them: sequences of calls on the tunnel manager and
 the two stores, with early refunds and a teardown loop over a snapshot. Each is proved to
 do what Handlers.dfy says of it when it runs undisturbed; what happens when handlers
 interleave is in ControlPlane.dfy.
 (internal/server/server.go)
 */
module Server {
  import opened Wrappers
  import opened Tunnels
  import opened Quotas
  import opened Handlers
  import Manager
  import KeyStores

  type TunnelSession = Manager.TunnelSession

  const RESERVATION_TTL := 60_000_000_000

  /** Until when the idle branch reserves each name; it reads the clock for every one. */
  function Until(clock: string -> int): string -> int {
    (sub: string) => clock(sub) + RESERVATION_TTL
  }

  /** It is a minute later. */
  lemma UntilIs(clock: string -> int, sub: string)
    ensures Until(clock)(sub) == clock(sub) + 60 * 1_000_000_000
  {
  }

  /** The chances of a request are those it was given; a port comes with the clock read of the
      attempt that obtained it. */
  predicate Completes(ch: Chance, allowed: bool, id: string, names: seq<string>, now: int, clock: seq<int>) {
    && ch.allowed == allowed && ch.id == id && ch.names == names
    && (if ch.port.Some? then ch.now in clock else ch.now == now)
  }

  /** What the key store does is, to the control plane, the step NewKey or nothing at all; the
      counting is part of the other handlers. */
  lemma KeyOperationIsHandler(c: Control, keys: KeyStores.Keys, op: KeyStores.Op)
    requires c.quotas.keys == KeyStores.Slots(keys) && KeyStores.MayDo(keys, op) && !op.CountTo?
    ensures var c' := c.(quotas := c.quotas.(keys := KeyStores.Slots(KeyStores.Do(keys, op))));
            if op.Create? && KeyStores.CreateKeyError(op.name, op.subs, op.owners, op.saved).None? then
              exists max :: max > 0 && MayDo(c, NewKey(op.key, max)) && c' == Do(c, NewKey(op.key, max))
            else c' == c
  {
    KeyStores.CountersAfter(keys, op);
    if op.Create? && KeyStores.CreateKeyError(op.name, op.subs, op.owners, op.saved).None? {
      var max := if op.maxTunnels <= 0 then 10 else op.maxTunnels;
      assert MayDo(c, NewKey(op.key, max));
    }
  }

  class RelayServer {
    const tunnels: Manager.TunnelManager
    const tokenStore: TokenStore
    const keyStore: KeyStores.KeyStore

    constructor (tunnels: Manager.TunnelManager, tokenStore: TokenStore, keyStore: KeyStores.KeyStore)
      ensures this.tunnels == tunnels && this.tokenStore == tokenStore && this.keyStore == keyStore
    {
      this.tunnels, this.tokenStore, this.keyStore := tunnels, tokenStore, keyStore;
    }

    ghost function Counters(): Quotas
      reads tokenStore, keyStore
    {
      Quotas(KeyStores.Slots(keyStore.infos), tokenStore.slots)
    }

    /** The records that hold the counters. */
    ghost function CounterRecords(): set<object>
      reads tokenStore, keyStore
    {
      keyStore.keys.Values + tokenStore.tokens.Values
    }

    ghost predicate StoresValid()
      reads tokenStore, tokenStore.tokens.Values, keyStore, keyStore.keys.Values
    {
      tokenStore.Valid() && keyStore.Valid()
    }

    ghost function View(): Control
      reads tunnels, tokenStore, keyStore
    {
      Control(tunnels.http, tunnels.tcp, Counters())
    }

    ghost predicate Valid()
      reads tunnels, tunnels.Records(), tokenStore, tokenStore.tokens.Values, keyStore, keyStore.keys.Values
    {
      tunnels.Valid() && StoresValid()
    }

    method ChargeStores(token: string) returns (err: Option<ChargeError>)
      requires StoresValid()
      modifies keyStore`infos, tokenStore`slots, CounterRecords()
      ensures StoresValid()
      ensures match Charge(old(Counters()), token)
              case Ok(q) => err == None && Counters() == q
              case Err(e) => err == Some(e) && Counters() == old(Counters())
    {
      if IsAnon(token) {
        return None;
      }
      ghost var before := Counters();
      if IsAPIKey(token) {
        err := keyStore.IncrementTunnels(token);
        assert unchanged(tokenStore, tokenStore.tokens.Values);
        assert Counters() == before.(keys := Counters().keys);
      } else {
        err := tokenStore.IncrementTunnels(token);
        assert unchanged(keyStore, keyStore.keys.Values);
        assert Counters() == before.(tokens := Counters().tokens);
      }
    }

    method RefundStores(token: string)
      requires StoresValid()
      modifies keyStore`infos, tokenStore`slots, CounterRecords()
      ensures StoresValid() && CounterRecords() == old(CounterRecords())
      ensures Counters() == Refund(old(Counters()), token)
    {
      if IsAnon(token) {
        return;
      }
      ghost var before := Counters();
      if IsAPIKey(token) {
        keyStore.DecrementTunnels(token);
        assert unchanged(tokenStore, tokenStore.tokens.Values);
        assert Counters() == before.(keys := Counters().keys);
      } else {
        tokenStore.DecrementTunnels(token);
        assert unchanged(keyStore, keyStore.keys.Values);
        assert Counters() == before.(tokens := Counters().tokens);
      }
    }

    method DecrementTunnels(token: string)
      requires Valid()
      modifies keyStore`infos, tokenStore`slots, CounterRecords()
      ensures Valid() && unchanged(tunnels, tunnels.Records()) && CounterRecords() == old(CounterRecords())
      ensures Counters() == Refund(old(Counters()), token)
    {
      RefundStores(token);
      assert unchanged(tunnels, tunnels.Records());
    }

    method Unregister(ts: TunnelSession)
      requires Valid()
      modifies tunnels`httpTunnels, tunnels`http, tunnels`tcpTunnels, tunnels`tcp, tunnels.net
      ensures Valid() && Counters() == old(Counters()) && CounterRecords() == old(CounterRecords())
      ensures ts.kind == Http ==> tunnels.http == old(tunnels.http) - {ts.subdomain} && tunnels.tcp == old(tunnels.tcp)
      ensures ts.kind == Tcp ==> tunnels.http == old(tunnels.http) && tunnels.tcp == old(tunnels.tcp) - {ts.port}
    {
      if ts.kind == Http {
        tunnels.UnregisterHTTP(ts.subdomain);
      } else {
        tunnels.UnregisterTCP(ts.port);
      }
    }

    method ChargeToken(token: string) returns (err: Option<ChargeError>)
      requires Valid()
      modifies keyStore`infos, tokenStore`slots, CounterRecords()
      ensures Valid() && unchanged(tunnels, tunnels.Records())
      ensures match Charge(old(Counters()), token)
              case Ok(q) => err == None && Counters() == q
              case Err(e) => err == Some(e) && Counters() == old(Counters())
    {
      err := ChargeStores(token);
      assert unchanged(tunnels, tunnels.Records());
    }

    /** The records' values; nobody changes a registered tunnel's name or port. */
    function Views(records: seq<TunnelSession>): (views: seq<Tunnel>)
      reads set s | s in records
      ensures |views| == |records| && forall i :: 0 <= i < |views| ==> views[i] == records[i].View()
    {
      if records == [] then [] else Views(records[..|records| - 1]) + [records[|records| - 1].View()]
    }

    /** A record stands where it says. */
    lemma RecordStands(ts: TunnelSession)
      requires tunnels.Valid() && WellFormed(View()) && ts in tunnels.Records()
      ensures ts.kind == Http ==>
                ts.subdomain in tunnels.httpTunnels && tunnels.httpTunnels[ts.subdomain] == ts
                && tunnels.http[ts.subdomain] == ts.View()
      ensures ts.kind == Tcp ==>
                ts.port in tunnels.tcpTunnels && tunnels.tcpTunnels[ts.port] == ts
                && tunnels.tcp[ts.port] == ts.View()
    {
      if ts in tunnels.httpTunnels.Values {
        var sub := Manager.KeyOf(tunnels.httpTunnels, ts);
        assert tunnels.http[sub] == ts.View();
      } else {
        var p := Manager.KeyOf(tunnels.tcpTunnels, ts);
        assert tunnels.tcp[p] == ts.View();
      }
    }

    lemma RecordsOncePerPlace(records: seq<TunnelSession>)
      requires tunnels.Valid() && WellFormed(View())
      requires forall s :: s in records ==> s in tunnels.Records()
      requires forall i, j :: 0 <= i < j < |records| ==> records[i] != records[j]
      ensures OncePerPlace(Views(records))
    {
      var views := Views(records);
      forall i, j | 0 <= i < j < |records|
        ensures !SamePlace(views[i], views[j])
      {
        RecordStands(records[i]);
        RecordStands(records[j]);
      }
    }

    lemma RecordsHaveSubs(records: seq<TunnelSession>, session: Session, sub: string)
      requires tunnels.Valid() && WellFormed(View())
      requires forall s :: s in records <==> s in tunnels.Records() && s.session == session
      ensures sub in SubsOf(Views(records)) <==> sub in OwnKeys(tunnels.http, session)
    {
      var views := Views(records);
      SubIndex(views, sub);
      if sub in OwnKeys(tunnels.http, session) {
        var i :| 0 <= i < |records| && records[i] == tunnels.httpTunnels[sub];
        assert views[i] == tunnels.http[sub];
      } else {
        forall i | 0 <= i < |records| && views[i].kind == Http
          ensures views[i].subdomain != sub
        {
          RecordStands(records[i]);
        }
      }
    }

    lemma RecordsHavePorts(records: seq<TunnelSession>, session: Session, p: int)
      requires tunnels.Valid() && WellFormed(View())
      requires forall s :: s in records <==> s in tunnels.Records() && s.session == session
      ensures p in PortsOf(Views(records)) <==> p in OwnKeys(tunnels.tcp, session)
    {
      var views := Views(records);
      PortIndex(views, p);
      if p in OwnKeys(tunnels.tcp, session) {
        assert tunnels.tcpTunnels[p] in tunnels.Records();
        var i :| 0 <= i < |records| && records[i] == tunnels.tcpTunnels[p];
        assert views[i] == tunnels.tcp[p];
      } else {
        forall i | 0 <= i < |records| && views[i].kind == Tcp
          ensures views[i].port != p
        {
          RecordStands(records[i]);
        }
      }
    }

    lemma RecordsHaveAllSubs(records: seq<TunnelSession>, session: Session)
      requires tunnels.Valid() && WellFormed(View())
      requires forall s :: s in records <==> s in tunnels.Records() && s.session == session
      ensures SubsOf(Views(records)) == OwnKeys(tunnels.http, session)
    {
      forall sub
        ensures sub in SubsOf(Views(records)) <==> sub in OwnKeys(tunnels.http, session)
      {
        RecordsHaveSubs(records, session, sub);
      }
    }

    lemma RecordsHaveAllPorts(records: seq<TunnelSession>, session: Session)
      requires tunnels.Valid() && WellFormed(View())
      requires forall s :: s in records <==> s in tunnels.Records() && s.session == session
      ensures PortsOf(Views(records)) == OwnKeys(tunnels.tcp, session)
    {
      forall p
        ensures p in PortsOf(Views(records)) <==> p in OwnKeys(tunnels.tcp, session)
      {
        RecordsHavePorts(records, session, p);
      }
    }

    lemma SnapshotOfRecords(records: seq<TunnelSession>, session: Session)
      requires tunnels.Valid() && WellFormed(View())
      requires forall s :: s in records <==> s in tunnels.Records() && s.session == session
      requires forall i, j :: 0 <= i < j < |records| ==> records[i] != records[j]
      ensures IsSnapshot(View(), session, Views(records))
    {
      RecordsOncePerPlace(records);
      RecordsHaveAllSubs(records, session);
      RecordsHaveAllPorts(records, session);
    }

    /** One turn of the teardown loop: name and port are read from the shared record. */
    method DropTunnel(ts: TunnelSession, token: string)
      requires Valid()
      modifies tunnels`httpTunnels, tunnels`http, tunnels`tcpTunnels, tunnels`tcp, tunnels.net
      modifies keyStore`infos, tokenStore`slots, CounterRecords()
      ensures Valid() && CounterRecords() == old(CounterRecords())
      ensures View() == Drop(old(View()), old(ts.View()), token)
    {
      Unregister(ts);
      DecrementTunnels(token);
    }

    ghost predicate Read(snapshot: seq<TunnelSession>, ts: seq<Tunnel>)
      reads set r | r in snapshot
    {
      |ts| == |snapshot| && forall j :: 0 <= j < |snapshot| ==> snapshot[j].View() == ts[j]
    }

    /** The i-th turn changes none of the records. */
    method DropAt(snapshot: seq<TunnelSession>, i: nat, token: string, ghost ts: seq<Tunnel>)
      requires Valid() && Read(snapshot, ts) && i < |snapshot|
      modifies tunnels`httpTunnels, tunnels`http, tunnels`tcpTunnels, tunnels`tcp, tunnels.net
      modifies keyStore`infos, tokenStore`slots, CounterRecords()
      ensures Valid() && Read(snapshot, ts) && CounterRecords() == old(CounterRecords())
      ensures View() == Drop(old(View()), ts[i], token)
    {
      DropTunnel(snapshot[i], token);
      assert unchanged(set r | r in snapshot);
    }

    /** The teardown loop. */
    method DropTunnels(snapshot: seq<TunnelSession>, token: string, ghost ts: seq<Tunnel>)
      requires Valid() && Read(snapshot, ts)
      modifies tunnels`httpTunnels, tunnels`http, tunnels`tcpTunnels, tunnels`tcp, tunnels.net
      modifies keyStore`infos, tokenStore`slots, CounterRecords()
      ensures Valid()
      ensures View() == DropAll(old(View()), ts, token)
    {
      for i := 0 to |snapshot|
        invariant Valid() && Read(snapshot, ts) && CounterRecords() == old(CounterRecords())
        invariant View() == DropAll(old(View()), ts[..i], token)
      {
        DropNext(old(View()), ts, i, token);
        DropAt(snapshot, i, token, ts);
      }
      assert ts[..|snapshot|] == ts;
    }

    /** cleanupSession: a snapshot, then one unregistration and one refund for each record. */
    method CleanupSession(session: Session)
      requires Valid() && WellFormed(View())
      modifies tunnels`httpTunnels, tunnels`http, tunnels`tcpTunnels, tunnels`tcp, tunnels.net
      modifies keyStore`infos, tokenStore`slots, CounterRecords()
      ensures Valid() && WellFormed(View())
      ensures View() == Teardown(old(View()), session)
    {
      var snapshot := tunnels.SessionTunnels(session);
      ghost var ts := Views(snapshot);
      SnapshotOfRecords(snapshot, session);
      DropTunnels(snapshot, session.token, ts);
      AnyOrderTearsDown(old(View()), session, ts);
      WellFormedStep(old(View()), EndSession(session));
    }

    /** One turn of the loop of the idle branch. */
    method ReserveName(t: Tunnel, clock: string -> int)
      requires tunnels.Valid()
      modifies tunnels.Records(), tunnels`http
      ensures tunnels.Valid() && tunnels.tcp == old(tunnels.tcp)
      ensures tunnels.http
              == if t.kind == Http then Reserve(old(tunnels.http), t.subdomain, Until(clock)(t.subdomain))
                 else old(tunnels.http)
    {
      if t.kind == Http {
        tunnels.ReserveHTTP(t.subdomain, RESERVATION_TTL, clock(t.subdomain));
      }
    }

    /** The loop; `clock` gives the clock read for each name. */
    method ReserveNames(ts: seq<Tunnel>, clock: string -> int)
      requires tunnels.Valid()
      modifies tunnels.Records(), tunnels`http
      ensures tunnels.Valid() && tunnels.tcp == old(tunnels.tcp)
      ensures tunnels.http == ReserveEach(old(tunnels.http), ts, Until(clock))
    {
      ghost var until := Until(clock);
      for i := 0 to |ts|
        invariant tunnels.Valid() && tunnels.tcp == old(tunnels.tcp)
        invariant tunnels.http == ReserveEach(old(tunnels.http), ts[..i], until)
      {
        assert ts[..i + 1][..i] == ts[..i];
        ReserveName(ts[i], clock);
      }
      assert ts[..|ts|] == ts;
    }

    method ReserveListed(ts: seq<Tunnel>, clock: string -> int)
      requires Valid()
      modifies tunnels.Records(), tunnels`http
      ensures Valid() && Counters() == old(Counters()) && tunnels.tcp == old(tunnels.tcp)
      ensures tunnels.http == ReserveEach(old(tunnels.http), ts, Until(clock))
    {
      ReserveNames(ts, clock);
      assert unchanged(keyStore, keyStore.keys.Values, tokenStore, tokenStore.tokens.Values);
    }

    method ReserveOwn(session: Session, clock: string -> int)
      requires Valid() && WellFormed(View())
      modifies tunnels.Records(), tunnels`http
      ensures Valid()
      ensures View() == old(View()).(http := ReserveAll(old(tunnels.http), OwnKeys(old(tunnels.http), session), Until(clock)))
    {
      var snapshot := tunnels.SessionTunnels(session);
      var ts := Views(snapshot);
      SnapshotOfRecords(snapshot, session);
      ReserveListed(ts, clock);
      ReserveEachIs(old(tunnels.http), ts, Until(clock));
    }

    /** The idle branch and the deferred cleanup. */
    method EndIdleSession(session: Session, clock: string -> int)
      requires Valid() && WellFormed(View())
      modifies tunnels.Records(), tunnels`httpTunnels, tunnels`http, tunnels`tcpTunnels, tunnels`tcp, tunnels.net
      modifies keyStore`infos, tokenStore`slots, CounterRecords()
      ensures Valid() && WellFormed(View())
      ensures View() == IdleTimeout(old(View()), session, Until(clock))
    {
      ReserveOwn(session, clock);
      WellFormedReserve(old(View()), OwnKeys(old(tunnels.http), session), Until(clock));
      CleanupSession(session);
    }

    /** The retry loop of registerHTTPTunnel. */
    method AllocateRandomName(ts: TunnelSession, names: seq<string>, now: int) returns (r: Option<string>)
      requires tunnels.Valid() && ts !in tunnels.Records() && ts.kind == Http
      modifies tunnels`httpTunnels, tunnels`http, ts`subdomain, ts`createdAt
      ensures tunnels.Valid() && tunnels.tcp == old(tunnels.tcp)
      ensures r == FirstFree(old(tunnels.http), old(ts.View()), names, now)
      ensures r.None? ==> tunnels.http == old(tunnels.http)
      ensures r.Some? ==>
                RegisterHTTP(old(tunnels.http), r.value, old(ts.View()).(subdomain := r.value), now) == Ok(tunnels.http)
    {
      ghost var t := ts.View();
      for i := 0 to |names|
        invariant tunnels.Valid() && ts !in tunnels.Records()
        invariant tunnels.http == old(tunnels.http) && tunnels.tcp == old(tunnels.tcp)
        invariant ts.View() == t.(subdomain := ts.subdomain)
        invariant FirstFree(tunnels.http, t, names, now) == FirstFree(tunnels.http, t, names[i..], now)
      {
        assert names[i..][1..] == names[i + 1..];
        ts.subdomain := names[i];
        var err := tunnels.RegisterHTTP(names[i], ts, now);
        if err.None? {
          return Some(names[i]);
        }
      }
      return None;
    }

    /** The naming part of registerHTTPTunnel. */
    method AllocateName(ts: TunnelSession, sub: string, names: seq<string>, now: int) returns (r: Result<string, Refusal>)
      requires tunnels.Valid() && ts !in tunnels.Records() && ts.kind == Http
      modifies tunnels`httpTunnels, tunnels`http, ts`subdomain, ts`createdAt
      ensures tunnels.Valid() && tunnels.tcp == old(tunnels.tcp)
      ensures match RegisterName(old(tunnels.http), old(ts.View()), sub, names, now)
              case Ok((name, http)) => r == Ok(name) && tunnels.http == http
              case Err(e) => r == Err(e) && tunnels.http == old(tunnels.http)
    {
      if sub != "" {
        ts.subdomain := sub;
        var err := tunnels.RegisterHTTP(sub, ts, now);
        return if err.None? then Ok(sub) else Err(NameRefused(err.value));
      }
      var free := AllocateRandomName(ts, names, now);
      return if free.None? then Err(NoFreeName) else Ok(free.value);
    }

    /** The checks of handleTunnelRequest before the charge. */
    method CheckRequest(req: Request, allowed: bool) returns (why: Option<Refusal>)
      requires tunnels.Valid()
      ensures why == Precheck(View(), req, allowed)
    {
      var token := req.session.token;
      if req.localPort < 1 || req.localPort > 65535 {
        return Some(BadLocalPort);
      }
      if IsAnon(token) {
        if req.wanted.WantsTCP? {
          return Some(AnonTCP);
        }
        if req.sub != "" {
          return Some(AnonName);
        }
        var existing := tunnels.TunnelsForAnon(token);
        ActiveRecords(token, existing);
        if |existing| >= 1 {
          return Some(AnonTwice);
        }
      }
      return if allowed then None else Some(RateLimited);
    }

    lemma ActiveRecords(token: string, existing: seq<TunnelSession>)
      requires tunnels.Valid()
      requires forall s :: s in existing <==> s in tunnels.Records() && s.token == token && (s.kind == Http ==> !s.reserved)
      ensures HoldsActive(View(), token) <==> existing != []
    {
      if existing != [] {
        var s := existing[0];
        assert s in existing;
        if s in tunnels.httpTunnels.Values {
          var sub := Manager.KeyOf(tunnels.httpTunnels, s);
          assert tunnels.http[sub] == s.View();
        } else {
          var p := Manager.KeyOf(tunnels.tcpTunnels, s);
          assert tunnels.tcp[p] == s.View();
        }
      }
      if HoldsActive(View(), token) {
        if sub :| sub in tunnels.http && tunnels.http[sub].token == token && !tunnels.http[sub].reserved {
          assert tunnels.httpTunnels[sub] in existing;
        } else {
          var p :| p in tunnels.tcp && tunnels.tcp[p].token == token;
          assert tunnels.tcpTunnels[p].View() == tunnels.tcp[p];
          assert tunnels.tcpTunnels[p] in existing;
        }
      }
    }

    method RegisterHTTPFor(req: Request, id: string, names: seq<string>, now: int) returns (r: Result<Reply, Refusal>)
      requires Valid()
      modifies tunnels`httpTunnels, tunnels`http
      ensures Valid() && Counters() == old(Counters()) && tunnels.tcp == old(tunnels.tcp)
      ensures match RegisterName(old(tunnels.http), NewTunnel(req, Http, id), req.sub, names, now)
              case Ok((name, http)) => r == Ok(URL(name)) && tunnels.http == http
              case Err(e) => r == Err(e) && tunnels.http == old(tunnels.http)
    {
      var ts := new Manager.TunnelSession(id, req.session.token, Http, req.localPort, req.session);
      var name := AllocateName(ts, req.sub, names, now);
      assert unchanged(keyStore, keyStore.keys.Values, tokenStore, tokenStore.tokens.Values);
      r := match name case Ok(n) => Ok(URL(n)) case Err(e) => Err(e);
    }

    method RegisterTCPFor(req: Request, id: string, draws: seq<nat>, clock: seq<int>)
      returns (port: Option<int>, ghost at: nat)
      requires Valid()
      requires |clock| == |draws| == Manager.MAX_PORT_ATTEMPTS
      requires forall i :: 0 <= i < |draws| ==> draws[i] <= tunnels.portMax - tunnels.portMin
      modifies tunnels`tcpTunnels, tunnels`tcp, tunnels.net`bound
      ensures Valid() && Counters() == old(Counters()) && tunnels.http == old(tunnels.http)
      ensures port.None? ==> tunnels.tcp == old(tunnels.tcp)
      ensures port.Some? ==>
                && at < |draws| && port.value !in old(tunnels.tcp)
                && tunnels.tcp
                   == old(tunnels.tcp)[port.value := NewTunnel(req, Tcp, id).(port := port.value, createdAt := clock[at])]
    {
      var ts := new Manager.TunnelSession(id, req.session.token, Tcp, req.localPort, req.session);
      port, at := tunnels.RegisterTCP(ts, draws, clock);
      assert unchanged(keyStore, keyStore.keys.Values, tokenStore, tokenStore.tokens.Values);
    }

    /** The registration part of a request, for an HTTP tunnel at `now`; `ch` completes the
        chances by the port that RegisterTCP obtained and the time at which it did. */
    method RegisterFor(req: Request, id: string, names: seq<string>, now: int, draws: seq<nat>, clock: seq<int>)
      returns (r: Result<Reply, Refusal>, ghost ch: Chance)
      requires Valid()
      requires |draws| == |clock| == Manager.MAX_PORT_ATTEMPTS
      requires forall i :: 0 <= i < |draws| ==> draws[i] <= tunnels.portMax - tunnels.portMin
      modifies tunnels`httpTunnels, tunnels`http, tunnels`tcpTunnels, tunnels`tcp, tunnels.net`bound
      ensures Valid()
      ensures match Register(old(View()), req, ch)
              case Ok((c, reply)) => r == Ok(reply) && View() == c
              case Err(e) => r == Err(e) && View() == old(View())
      ensures Completes(ch, true, id, names, now, clock) && (ch.port.Some? ==> ch.port.value !in old(tunnels.tcp))
    {
      ch := Chance(true, id, names, None, now);
      match req.wanted
      case WantsHTTP =>
        r := RegisterHTTPFor(req, id, names, now);
      case WantsTCP =>
        var p;
        ghost var at;
        p, at := RegisterTCPFor(req, id, draws, clock);
        if p.Some? {
          ch := Chance(true, id, names, p, clock[at]);
        }
        r := match p case Some(n) => Ok(Port(n)) case None => Err(NoPort);
      case WantsOther =>
        r := Err(UnknownType);
    }

    method AdmitRequest(req: Request, id: string, names: seq<string>, now: int, draws: seq<nat>, clock: seq<int>)
      returns (reply: Reply, ghost ch: Chance)
      requires Valid()
      requires |draws| == |clock| == Manager.MAX_PORT_ATTEMPTS
      requires forall i :: 0 <= i < |draws| ==> draws[i] <= tunnels.portMax - tunnels.portMin
      modifies tunnels`httpTunnels, tunnels`http, tunnels`tcpTunnels, tunnels`tcp, tunnels.net`bound
      modifies keyStore`infos, tokenStore`slots, CounterRecords()
      ensures Valid()
      ensures (View(), reply) == Admit(old(View()), req, ch)
      ensures Completes(ch, true, id, names, now, clock) && (ch.port.Some? ==> ch.port.value !in old(tunnels.tcp))
    {
      ch := Chance(true, id, names, None, now);
      var err := ChargeToken(req.session.token);
      if err.Some? {
        return Refused(NoQuota(err.value)), ch;
      }
      var r;
      r, ch := RegisterFor(req, id, names, now, draws, clock);
      if r.Err? {
        DecrementTunnels(req.session.token);
        return Refused(r.error), ch;
      }
      return r.value, ch;
    }

    /** handleTunnelRequest: check, charge, register, and refund if that failed. */
    method HandleTunnelRequest(req: Request, allowed: bool, id: string, names: seq<string>, now: int,
                               draws: seq<nat>, clock: seq<int>)
      returns (reply: Reply, ghost ch: Chance)
      requires Valid() && WellFormed(View()) && |names| == 10
      requires |draws| == |clock| == Manager.MAX_PORT_ATTEMPTS
      requires forall i :: 0 <= i < |draws| ==> draws[i] <= tunnels.portMax - tunnels.portMin
      modifies tunnels`httpTunnels, tunnels`http, tunnels`tcpTunnels, tunnels`tcp, tunnels.net`bound
      modifies keyStore`infos, tokenStore`slots, CounterRecords()
      ensures Valid() && WellFormed(View()) && MayDo(old(View()), Serve(req, ch))
      ensures ch.allowed == allowed && ch.id == id && ch.names == names
      ensures if ch.port.Some? then ch.now in clock else ch.now == now
      ensures (View(), reply) == Handle(old(View()), req, ch)
    {
      ch := Chance(allowed, id, names, None, now);
      var why := CheckRequest(req, allowed);
      if why.Some? {
        return Refused(why.value), ch;
      }
      reply, ch := AdmitRequest(req, id, names, now, draws, clock);
      WellFormedStep(old(View()), Serve(req, ch));
    }
  }
}
