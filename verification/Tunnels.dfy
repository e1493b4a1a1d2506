/**
 The registry as values: what a tunnel is, and what each operation of the tunnel
 manager does to the map from subdomains to tunnels. The class in Manager.dfy is
 proved against these functions; the state machine in ControlPlane.dfy runs them.
 (internal/server/tunnel_manager.go)
 */
module Tunnels {
  import opened Wrappers
  import opened Names

  datatype Kind = Http | Tcp

  /** A control connection: its identity and the token it authenticated with. */
  datatype Session = Session(sid: nat, token: string)

  /** Times are instants on one clock, in nanoseconds. */
  datatype Tunnel = Tunnel(
    id: string,
    token: string,
    kind: Kind,
    subdomain: string,
    port: int,
    localPort: int,
    session: Session,
    createdAt: int,
    reserved: bool,
    reservedUntil: int)

  type HttpMap = map<string, Tunnel>
  type TcpMap = map<int, Tunnel>

  ghost function KeysOf<K>(m: map<K, Tunnel>, token: string): set<K> {
    set k | k in m && m[k].token == token
  }

  /** How many registry entries a token has, active or reserved. */
  ghost function LiveCount(http: HttpMap, tcp: TcpMap, token: string): nat {
    |KeysOf(http, token)| + |KeysOf(tcp, token)|
  }

  predicate IsAnon(token: string) {
    "anon:" <= token
  }

  datatype RegisterError = Invalid(why: NameError) | InUse

  /** A reservation that its own token may still take back at `now`. */
  predicate Reclaimable(t: Tunnel, token: string, now: int) {
    t.reserved && t.token == token && now < t.reservedUntil
  }

  /** RegisterHTTP: `t` enters the map under `sub`, or the reason it does not. */
  function RegisterHTTP(http: HttpMap, sub: string, t: Tunnel, now: int): Result<HttpMap, RegisterError> {
    match ValidateSubdomain(sub)
    case Some(why) => Err(Invalid(why))
    case None =>
      if sub in http && !Reclaimable(http[sub], t.token, now) then Err(InUse)
      else Ok(http[sub := t.(createdAt := now)])
  }

  function Reserve(http: HttpMap, sub: string, until: int): HttpMap {
    if sub in http then http[sub := http[sub].(reserved := true, reservedUntil := until)] else http
  }

  function LookupHTTP(http: HttpMap, sub: string): Option<Tunnel> {
    if sub in http && !http[sub].reserved then Some(http[sub]) else None
  }

  /** What the reaper deletes on a tick whose clock read is `now`. */
  predicate Expired(t: Tunnel, now: int) {
    t.reserved && now > t.reservedUntil
  }

  function Reap(http: HttpMap, now: int): HttpMap {
    map sub | sub in http && !Expired(http[sub], now) :: http[sub]
  }

  /** What one pass of the anonymous expiry looks for, among HTTP tunnels that are not reserved
      and all TCP tunnels. */
  predicate AnonTooOld(t: Tunnel, now: int, ttl: int) {
    IsAnon(t.token) && now - t.createdAt > ttl
  }

  /** serveRequest: a request goes to the dashboard, to a tunnel, or nowhere. */
  datatype Route = Dashboard | ToTunnel(t: Tunnel) | NotFound

  function RouteName(http: HttpMap, sub: string, dashboardEnabled: bool): Route {
    if IsSpecialName(sub) && dashboardEnabled then Dashboard
    else
      match LookupHTTP(http, sub)
      case None => NotFound
      case Some(t) => ToTunnel(t)
  }

  /** Where a request goes that came over a TLS connection with server name `sni` and has this
      Host header: the server name decides, unless it names nothing below the domain. */
  function RouteTLS(http: HttpMap, sni: string, host: string, domain: string, dashboardEnabled: bool): Route {
    var named := ExtractSubdomain(sni, domain);
    RouteName(http, if named == "" then ExtractSubdomain(host, domain) else named, dashboardEnabled)
  }

  /** A name with an active entry is reached under every spelling of its URL's host: by the
      server name, whatever the Host header says, and by the Host header, with or without a
      port, when the server name says nothing. The client reads the name from the URL. */
  lemma RegisteredNameRoutes(http: HttpMap, sub: string, domain: string, host: string, port: string, other: string,
                             dashboardEnabled: bool)
    requires sub in http && !http[sub].reserved && ValidSubdomain(sub)
    requires ':' !in domain && ':' !in port
    requires ToLower(host) == ToLower(sub + "." + domain)
    ensures RouteTLS(http, host, other, domain, dashboardEnabled) == ToTunnel(http[sub])
    ensures ExtractSubdomain(other, domain) == "" ==>
              && RouteTLS(http, other, host, domain, dashboardEnabled) == ToTunnel(http[sub])
              && RouteTLS(http, other, host + ":" + port, domain, dashboardEnabled) == ToTunnel(http[sub])
    ensures FirstLabel(StripScheme(TunnelURL(sub, domain))) == sub
  {
    ValidNameShape(sub);
    HostNamesTunnel(sub, domain, host, port);
    ClientRemembersName(sub, domain);
  }

  /** Exactly which requests reach the dashboard: the server name decides, and if it says
      nothing the Host header. */
  lemma DashboardIff(http: HttpMap, sni: string, host: string, domain: string, enabled: bool)
    ensures var h := if SaysNothing(sni, domain) then host else sni;
            RouteTLS(http, sni, host, domain, enabled) == Dashboard <==>
              && enabled
              && (|| SaysNothing(h, domain) || SaysName(h, "www", domain)
                  || SaysName(h, "admin", domain) || SaysName(h, "dashboard", domain))
  {
    HostYieldsNothingIff(domain, sni);
    var h := if SaysNothing(sni, domain) then host else sni;
    HostYieldsNothingIff(domain, h);
    HostYieldsNameIff("www", domain, h);
    HostYieldsNameIff("admin", domain, h);
    HostYieldsNameIff("dashboard", domain, h);
  }

  /** In particular the bare domain does, and its three special names, under every spelling and
      with or without a port. */
  lemma DashboardHosts(http: HttpMap, domain: string, host: string, port: string, name: string)
    requires ':' !in domain && ':' !in port && name in {"www", "admin", "dashboard"}
    requires ToLower(host) == ToLower(domain) || ToLower(host) == ToLower(name + "." + domain)
    ensures RouteName(http, ExtractSubdomain(host, domain), true) == Dashboard
    ensures RouteName(http, ExtractSubdomain(host + ":" + port, domain), true) == Dashboard
  {
    if ToLower(host) == ToLower(domain) {
      NoColons(host, domain);
      StripPortIs(host, port);
    } else {
      assert IsLabel(name);
      HostNamesTunnel(name, domain, host, port);
    }
  }

  /** Exactly which requests reach the tunnel that is registered under a name. */
  lemma TunnelReachedIff(http: HttpMap, sni: string, host: string, domain: string, enabled: bool, sub: string)
    requires ValidSubdomain(sub)
    ensures var h := if SaysNothing(sni, domain) then host else sni;
            SaysName(h, sub, domain) ==>
              RouteTLS(http, sni, host, domain, enabled)
              == if sub in http && !http[sub].reserved then ToTunnel(http[sub]) else NotFound
  {
    ValidNameShape(sub);
    HostYieldsNothingIff(domain, sni);
    HostYieldsNameIff(sub, domain, if SaysNothing(sni, domain) then host else sni);
  }

  /** A request that says no registered name in use, and does not reach the dashboard, is not
      found; nothing but an entry in use under the name it says is ever its target. */
  lemma TargetIsNamed(http: HttpMap, sni: string, host: string, domain: string, enabled: bool)
    requires forall sub :: sub in http ==> ValidSubdomain(sub)
    ensures var h := if SaysNothing(sni, domain) then host else sni;
            match RouteTLS(http, sni, host, domain, enabled)
            case Dashboard => true
            case ToTunnel(t) => exists sub :: sub in http && SaysName(h, sub, domain) && !http[sub].reserved && t == http[sub]
            case NotFound => forall sub :: sub in http && SaysName(h, sub, domain) ==> http[sub].reserved
  {
    HostYieldsNothingIff(domain, sni);
    var h := if SaysNothing(sni, domain) then host else sni;
    forall sub | sub in http
      ensures ExtractSubdomain(h, domain) == sub <==> SaysName(h, sub, domain)
    {
      ValidNameShape(sub);
      HostYieldsNameIff(sub, domain, h);
    }
  }

  /** Registering never moves a held name from one token to another. */
  lemma RegisterKeepsOwner(http: HttpMap, sub: string, t: Tunnel, now: int)
    requires sub in http && RegisterHTTP(http, sub, t, now).Ok?
    ensures t.token == http[sub].token
  {
  }

  /** A reserved name is not served; until its deadline exactly its own token may take it, and
      after it nobody may until the reaper has deleted it, which it does at any later time. */
  lemma ReservedNameIsHeld(http: HttpMap, sub: string, until: int, t: Tunnel, now: int)
    requires sub in http && ValidSubdomain(sub)
    ensures var http' := Reserve(http, sub, until);
            && LookupHTTP(http', sub).None?
            && (RegisterHTTP(http', sub, t, now).Ok? <==> t.token == http[sub].token && now < until)
            && (sub in Reap(http', now) <==> now <= until)
            && http' - {sub} == http - {sub}
            && RegisterHTTP(Reap(http', until + 1), sub, t, now).Ok?
  {
    var http' := Reserve(http, sub, until);
    assert sub !in Reap(http', until + 1);
  }
}
