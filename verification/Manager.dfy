/**
 The tunnel manager as the source has it: two maps of shared tunnel records, changed
 in place. Each method is one critical section (or, for RegisterTCP, one whole call
 with nobody in between); its contract gives the new maps as a function of the old.
 The lock itself and what may happen between critical sections are in ControlPlane.dfy.
 (internal/server/tunnel_manager.go)
 */
module Manager {
  import opened Wrappers
  import opened Names
  import opened Tunnels

  /** The ports this process listens on, and those somebody else does. */
  class Net {
    var bound: set<int>
    const foreign: set<int>

    constructor (foreign: set<int>)
      ensures bound == {} && this.foreign == foreign
    {
      this.foreign := foreign;
      bound := {};
    }

    method Listen(port: int) returns (ok: bool)
      modifies this`bound
      ensures ok <==> port !in old(bound) && port !in foreign
      ensures bound == if ok then old(bound) + {port} else old(bound)
    {
      ok := port !in bound && port !in foreign;
      if ok {
        bound := bound + {port};
      }
    }

    method Close(port: int)
      modifies this`bound
      ensures bound == old(bound) - {port}
    {
      bound := bound - {port};
    }
  }

  class TunnelSession {
    const id: string
    const token: string
    const kind: Kind
    const localPort: int
    const session: Session
    var subdomain: string
    var port: int
    var createdAt: int
    var reserved: bool
    var reservedUntil: int

    constructor (id: string, token: string, kind: Kind, localPort: int, session: Session)
      ensures View() == Tunnel(id, token, kind, "", 0, localPort, session, 0, false, 0)
    {
      this.id, this.token, this.kind, this.localPort, this.session := id, token, kind, localPort, session;
      subdomain, port, createdAt, reserved, reservedUntil := "", 0, 0, false, 0;
    }

    function View(): Tunnel
      reads this
    {
      Tunnel(id, token, kind, subdomain, port, localPort, session, createdAt, reserved, reservedUntil)
    }
  }

  const MAX_PORT_ATTEMPTS := 100

  lemma KeyOf<K, V>(m: map<K, V>, v: V) returns (k: K)
    requires v in m.Values
    ensures k in m && m[k] == v
  {
    k :| k in m && m[k] == v;
  }

  class TunnelManager {
    var httpTunnels: map<string, TunnelSession>
    var tcpTunnels: map<int, TunnelSession>
    ghost var http: HttpMap
    ghost var tcp: TcpMap
    const portMin: int
    const portMax: int
    const net: Net

    ghost function Records(): set<TunnelSession>
      reads this
    {
      httpTunnels.Values + tcpTunnels.Values
    }

    /** No record stands under two names; each is in the map of its kind; a TCP record
        knows its port; `http` and `tcp` are what the records say. */
    ghost predicate Valid()
      reads this, Records()
    {
      && portMin <= portMax
      && http.Keys == httpTunnels.Keys
      && tcp.Keys == tcpTunnels.Keys
      && (forall a :: a in httpTunnels ==> httpTunnels[a].kind == Http && httpTunnels[a].View() == http[a])
      && (forall p :: p in tcpTunnels ==> tcpTunnels[p].kind == Tcp && tcpTunnels[p].View() == tcp[p])
      && (forall p :: p in tcpTunnels ==> tcpTunnels[p].port == p && portMin <= p <= portMax)
      && (forall a, b :: a in httpTunnels && b in httpTunnels && httpTunnels[a] == httpTunnels[b] ==> a == b)
    }

    constructor (portMin: int, portMax: int, net: Net)
      requires portMin <= portMax
      ensures Valid() && http == map[] && tcp == map[]
      ensures this.portMin == portMin && this.portMax == portMax && this.net == net
    {
      this.portMin, this.portMax, this.net := portMin, portMax, net;
      httpTunnels, tcpTunnels := map[], map[];
      http, tcp := map[], map[];
    }

    method RegisterHTTP(sub: string, s: TunnelSession, now: int) returns (err: Option<RegisterError>)
      requires Valid() && s !in Records() && s.kind == Http
      modifies this`httpTunnels, this`http, s`createdAt
      ensures Valid()
      ensures tcp == old(tcp)
      ensures err.Some? ==>
                && Tunnels.RegisterHTTP(old(http), sub, old(s.View()), now) == Err(err.value)
                && unchanged(this) && unchanged(s)
      ensures err.None? ==>
                && Tunnels.RegisterHTTP(old(http), sub, old(s.View()), now) == Ok(http)
                && Records() <= old(Records()) + {s}
    {
      var bad := ValidateSubdomain(sub);
      if bad.Some? {
        return Some(Invalid(bad.value));
      }
      if sub in httpTunnels {
        var existing := httpTunnels[sub];
        assert http[sub] == existing.View();
        if !(existing.reserved && existing.token == s.token && now < existing.reservedUntil) {
          return Some(InUse);
        }
        // A live reservation of the same token: its place is taken over.
      }
      Enter(sub, s, now);
      return None;
    }

    method Enter(sub: string, s: TunnelSession, now: int)
      requires Valid() && s !in Records() && s.kind == Http
      modifies this`httpTunnels, this`http, s`createdAt
      ensures Valid() && Records() <= old(Records()) + {s}
      ensures http == old(http)[sub := old(s.View()).(createdAt := now)]
    {
      s.createdAt := now;
      httpTunnels := httpTunnels[sub := s];
      http := http[sub := s.View()];
    }

    /** One attempt of RegisterTCP. Nobody else runs during it, so the second look at the
        map, after the listener is open, finds what the first one did. */
    method TryPort(s: TunnelSession, port: int, now: int) returns (ok: bool)
      requires Valid() && s !in Records() && s.kind == Tcp && portMin <= port <= portMax
      modifies this`tcpTunnels, this`tcp, s`port, s`createdAt, net`bound
      ensures Valid()
      ensures ok <==> port !in old(tcp) && port !in old(net.bound) && port !in net.foreign
      ensures ok ==>
                && tcp == old(tcp)[port := old(s.View()).(port := port, createdAt := now)]
                && net.bound == old(net.bound) + {port}
                && Records() <= old(Records()) + {s}
      ensures !ok ==> unchanged(this) && unchanged(s) && net.bound == old(net.bound)
    {
      if port in tcpTunnels {
        return false;
      }
      ok := net.Listen(port);
      if ok {
        s.port := port;
        s.createdAt := now;
        tcpTunnels := tcpTunnels[port := s];
        tcp := tcp[port := s.View()];
      }
    }

    /** `draws` are the random offsets into the port range, `clock` the clock reads that go with
        them; `at` is the attempt that succeeded. A failure means that every one of the
        attempts drew a port that was registered or could not be bound. */
    method RegisterTCP(s: TunnelSession, draws: seq<nat>, clock: seq<int>) returns (r: Option<int>, ghost at: nat)
      requires Valid() && s !in Records() && s.kind == Tcp
      requires |clock| == |draws| == 100 && forall i :: 0 <= i < |draws| ==> draws[i] <= portMax - portMin
      modifies this`tcpTunnels, this`tcp, s`port, s`createdAt, net`bound
      ensures Valid()
      ensures r.Some? ==>
                && at < |draws| && r.value == portMin + draws[at]
                && portMin <= r.value <= portMax
                && r.value !in old(tcp) && r.value !in old(net.bound) && r.value !in net.foreign
                && tcp == old(tcp)[r.value := old(s.View()).(port := r.value, createdAt := clock[at])]
                && net.bound == old(net.bound) + {r.value}
                && Records() <= old(Records()) + {s}
      ensures r.None? ==> unchanged(this) && unchanged(s) && net.bound == old(net.bound)
      ensures forall i :: 0 <= i < (if r.Some? then at else |draws|) ==>
                portMin + draws[i] in old(tcp) || portMin + draws[i] in old(net.bound) + net.foreign
    {
      at := 0;
      for attempt := 0 to MAX_PORT_ATTEMPTS
        invariant unchanged(this) && unchanged(s) && net.bound == old(net.bound)
        invariant forall i :: 0 <= i < attempt ==>
                    portMin + draws[i] in old(tcp) || portMin + draws[i] in old(net.bound) + net.foreign
      {
        var port := portMin + draws[attempt];
        var ok := TryPort(s, port, clock[attempt]);
        if ok {
          return Some(port), attempt;
        }
      }
      return None, 0;
    }

    method UnregisterHTTP(sub: string)
      requires Valid()
      modifies this`httpTunnels, this`http
      ensures Valid() && Records() <= old(Records())
      ensures http == old(http) - {sub} && tcp == old(tcp)
    {
      httpTunnels := httpTunnels - {sub};
      http := http - {sub};
    }

    method ReserveHTTP(sub: string, ttl: int, now: int)
      requires Valid()
      modifies if sub in httpTunnels then {httpTunnels[sub]} else {}
      modifies this`http
      ensures Valid()
      ensures http == Reserve(old(http), sub, now + ttl) && tcp == old(tcp)
    {
      if sub in httpTunnels {
        var s := httpTunnels[sub];
        s.reserved := true;
        s.reservedUntil := now + ttl;
        http := Reserve(http, sub, now + ttl);
      }
    }

    /** The listener that is closed is the one of the entry found under the lock. */
    method UnregisterTCP(port: int)
      requires Valid()
      modifies this`tcpTunnels, this`tcp, net
      ensures Valid() && Records() <= old(Records())
      ensures http == old(http) && tcp == old(tcp) - {port}
      ensures net.bound == if port in old(tcp) then old(net.bound) - {port} else old(net.bound)
    {
      if port in tcpTunnels {
        var s := tcpTunnels[port];
        tcpTunnels := tcpTunnels - {port};
        tcp := tcp - {port};
        net.Close(s.port);
      }
    }

    method LookupHTTP(sub: string) returns (s: TunnelSession?)
      requires Valid()
      ensures match Tunnels.LookupHTTP(http, sub)
              case None => s == null
              case Some(t) => s != null && s in Records() && s.View() == t
    {
      if sub !in httpTunnels {
        return null;
      }
      s := httpTunnels[sub];
      if s.reserved {
        return null;
      }
    }

    lemma TcpRecordsAreTcp(s: TunnelSession)
      requires Valid() && s in tcpTunnels.Values
      ensures s.kind == Tcp
    {
      var p := KeyOf(tcpTunnels, s);
      assert tcpTunnels[p].kind == Tcp;
    }

    /** Every record of the session, once each, in an order that depends on map iteration. */
    method SessionTunnels(session: Session) returns (out: seq<TunnelSession>)
      requires Valid()
      ensures forall s :: s in out <==> s in Records() && s.session == session
      ensures forall i, j :: 0 <= i < j < |out| ==> out[i] != out[j]
    {
      out := [];
      var records := httpTunnels.Values;
      while records != {}
        invariant records <= httpTunnels.Values
        invariant forall s :: s in out <==> s in httpTunnels.Values && s !in records && s.session == session
        invariant forall i, j :: 0 <= i < j < |out| ==> out[i] != out[j]
        decreases records
      {
        var s :| s in records;
        records := records - {s};
        if s.session == session {
          out := out + [s];
        }
      }
      ghost var fromHttp := out;
      records := tcpTunnels.Values;
      while records != {}
        invariant records <= tcpTunnels.Values
        invariant forall s :: s in out <==>
                    (s in fromHttp || (s in tcpTunnels.Values && s !in records && s.session == session))
        invariant forall i, j :: 0 <= i < j < |out| ==> out[i] != out[j]
        decreases records
      {
        var s :| s in records;
        TcpRecordsAreTcp(s);
        records := records - {s};
        if s.session == session {
          out := out + [s];
        }
      }
    }

    /** The active records of an anonymous token. */
    method TunnelsForAnon(token: string) returns (out: seq<TunnelSession>)
      requires Valid()
      ensures forall s :: s in out <==> s in Records() && s.token == token && (s.kind == Http ==> !s.reserved)
    {
      out := [];
      var records := httpTunnels.Values;
      while records != {}
        invariant records <= httpTunnels.Values
        invariant forall s :: s in out <==>
                    s in httpTunnels.Values && s !in records && s.token == token && !s.reserved
        decreases records
      {
        var s :| s in records;
        records := records - {s};
        if s.token == token && !s.reserved {
          out := out + [s];
        }
      }
      ghost var fromHttp := out;
      records := tcpTunnels.Values;
      while records != {}
        invariant records <= tcpTunnels.Values
        invariant forall s :: s in out <==>
                    (s in fromHttp || (s in tcpTunnels.Values && s !in records && s.token == token))
        decreases records
      {
        var s :| s in records;
        records := records - {s};
        if s.token == token {
          out := out + [s];
        }
      }
      forall s | s in tcpTunnels.Values
        ensures s.kind == Tcp
      {
        TcpRecordsAreTcp(s);
      }
    }

    /** One tick of the reservation reaper. */
    method ReapOnce(now: int)
      requires Valid()
      modifies this`httpTunnels, this`http
      ensures Valid() && Records() <= old(Records())
      ensures http == Reap(old(http), now) && tcp == old(tcp)
    {
      var subs := httpTunnels.Keys;
      while subs != {}
        invariant Valid() && subs <= httpTunnels.Keys && Records() <= old(Records()) && tcp == old(tcp)
        invariant forall sub :: sub in http ==> sub in old(http) && http[sub] == old(http)[sub]
        invariant forall sub :: sub in old(http) ==> (sub in http <==> sub in subs || !Expired(old(http)[sub], now))
        decreases subs
      {
        var sub :| sub in subs;
        subs := subs - {sub};
        var s := httpTunnels[sub];
        assert s.View() == http[sub];
        if s.reserved && now > s.reservedUntil {
          UnregisterHTTP(sub);
        }
      }
    }

    /** The first loop of KillTunnelByID. */
    method KillHTTP(id: string) returns (killed: Option<string>, closed: Option<Session>)
      requires Valid()
      modifies this`httpTunnels, this`http
      ensures Valid() && Records() <= old(Records()) && tcp == old(tcp)
      ensures killed.None? ==> http == old(http) && forall sub :: sub in http ==> http[sub].id != id
      ensures killed.Some? ==>
                && killed.value in old(http) && old(http)[killed.value].id == id
                && http == old(http) - {killed.value}
                && closed == Some(old(http)[killed.value].session)
    {
      var subs := httpTunnels.Keys;
      while subs != {}
        invariant subs <= httpTunnels.Keys
        invariant forall sub :: sub in httpTunnels && sub !in subs ==> httpTunnels[sub].id != id
        invariant unchanged(this)
        decreases subs
      {
        var sub :| sub in subs;
        subs := subs - {sub};
        if httpTunnels[sub].id == id {
          closed := Some(httpTunnels[sub].session);
          httpTunnels := httpTunnels - {sub};
          http := http - {sub};
          return Some(sub), closed;
        }
      }
      return None, None;
    }

    /** The second loop: the listener goes first. */
    method KillTCP(id: string) returns (killed: Option<int>, closed: Option<Session>)
      requires Valid()
      modifies this`tcpTunnels, this`tcp, net`bound
      ensures Valid() && Records() <= old(Records()) && http == old(http)
      ensures killed.None? ==> tcp == old(tcp) && unchanged(net) && forall p :: p in tcp ==> tcp[p].id != id
      ensures killed.Some? ==>
                && killed.value in old(tcp) && old(tcp)[killed.value].id == id
                && tcp == old(tcp) - {killed.value} && net.bound == old(net.bound) - {killed.value}
                && closed == Some(old(tcp)[killed.value].session)
    {
      var items := tcpTunnels.Items;
      while items != {}
        invariant items <= tcpTunnels.Items
        invariant forall p :: p in tcpTunnels && (p, tcpTunnels[p]) !in items ==> tcpTunnels[p].id != id
        invariant unchanged(this) && unchanged(net)
        decreases items
      {
        var it :| it in items;
        items := items - {it};
        var (p, s) := it;
        if s.id == id {
          net.Close(s.port);
          closed := Some(s.session);
          tcpTunnels := tcpTunnels - {p};
          tcp := tcp - {p};
          return Some(p), closed;
        }
      }
      return None, None;
    }

    /** Deletes the first record found with this id, HTTP tunnels before TCP ones, and closes
        its session. */
    method KillTunnelByID(id: string) returns (found: bool, closed: Option<Session>)
      requires Valid()
      modifies this`httpTunnels, this`tcpTunnels, this`http, this`tcp, net`bound
      ensures Valid() && Records() <= old(Records())
      ensures !found ==>
                && http == old(http) && tcp == old(tcp) && unchanged(net) && closed == None
                && (forall sub :: sub in http ==> http[sub].id != id)
                && (forall p :: p in tcp ==> tcp[p].id != id)
      ensures found ==>
                || (exists sub :: && sub in old(http) && old(http)[sub].id == id
                                  && http == old(http) - {sub} && tcp == old(tcp)
                                  && net.bound == old(net.bound) && closed == Some(old(http)[sub].session))
                || ((forall sub :: sub in old(http) ==> old(http)[sub].id != id)
                    && exists p :: && p in old(tcp) && old(tcp)[p].id == id
                                   && tcp == old(tcp) - {p} && http == old(http)
                                   && net.bound == old(net.bound) - {p} && closed == Some(old(tcp)[p].session))
    {
      var sub;
      sub, closed := KillHTTP(id);
      if sub.Some? {
        return true, closed;
      }
      var port;
      port, closed := KillTCP(id);
      found := port.Some?;
      if found {
        var p := port.value;
        assert p in old(tcp) && old(tcp)[p].id == id && closed == Some(old(tcp)[p].session);
        assert tcp == old(tcp) - {p} && http == old(http);
        assert net.bound == old(net.bound) - {p};
      } else {
        closed := None;
      }
    }
  }
}
