/**
 The server's handlers, each taken as one step: a tunnel request from charge to reply, the
 teardown of a session, an idle timeout, a kill, a reaper tick. What they do to the registry
 and the counters is a function here, proved of the methods in Server.dfy; over runs of
 whole handlers the counters and the registry differ by exactly the tunnels that were
 removed without a refund.
 (internal/server/server.go)
 */
module Handlers {
  import opened Wrappers
  import opened Names
  import opened Tunnels
  import opened Quotas

  datatype Control = Control(http: HttpMap, tcp: TcpMap, quotas: Quotas)

  datatype Wanted = WantsHTTP | WantsTCP | WantsOther

  /** `sub` is the name asked for, empty for a random one. */
  datatype Request = Request(session: Session, localPort: int, wanted: Wanted, sub: string)

  /** What the handler does not decide itself: the rate limiter's answer, the id and the names
      it draws, the port RegisterTCP obtains, the clock. */
  datatype Chance = Chance(allowed: bool, id: string, names: seq<string>, port: Option<int>, now: int)

  datatype Refusal =
    | BadLocalPort | AnonTCP | AnonName | AnonTwice | RateLimited | NoQuota(why: ChargeError)
    | NoFreeName | NameRefused(error: RegisterError) | NoPort | UnknownType

  datatype Reply = Refused(refusal: Refusal) | URL(sub: string) | Port(port: int)

  // ---------------------------------------------------------------- a tunnel request

  /** TunnelsForAnon finds something. */
  predicate HoldsActive(c: Control, token: string) {
    || (exists sub :: sub in c.http && c.http[sub].token == token && !c.http[sub].reserved)
    || (exists p :: p in c.tcp && c.tcp[p].token == token)
  }

  /** The checks made before anything is charged. */
  ghost function Precheck(c: Control, req: Request, allowed: bool): Option<Refusal> {
    var token := req.session.token;
    if req.localPort < 1 || req.localPort > 65535 then Some(BadLocalPort)
    else if IsAnon(token) && req.wanted.WantsTCP? then Some(AnonTCP)
    else if IsAnon(token) && req.sub != "" then Some(AnonName)
    else if IsAnon(token) && HoldsActive(c, token) then Some(AnonTwice)
    else if !allowed then Some(RateLimited)
    else None
  }

  function NewTunnel(req: Request, kind: Kind, id: string): Tunnel {
    Tunnel(id, req.session.token, kind, "", 0, req.localPort, req.session, 0, false, 0)
  }

  /** The first of the drawn names that registers. */
  function FirstFree(http: HttpMap, t: Tunnel, names: seq<string>, now: int): Option<string> {
    if names == [] then None
    else if RegisterHTTP(http, names[0], t, now).Ok? then Some(names[0])
    else FirstFree(http, t, names[1..], now)
  }

  /** A name for an HTTP tunnel: the one asked for, or the first random one that is free. */
  function RegisterName(http: HttpMap, t: Tunnel, sub: string, names: seq<string>, now: int)
    : Result<(string, HttpMap), Refusal>
  {
    var free := FirstFree(http, t, names, now);
    if sub == "" && free.None? then Err(NoFreeName)
    else
      var name := if sub == "" then free.value else sub;
      match RegisterHTTP(http, name, t.(subdomain := name), now)
      case Ok(http') => Ok((name, http'))
      case Err(e) => Err(NameRefused(e))
  }

  /** Registration of a request that has been charged. */
  function Register(c: Control, req: Request, ch: Chance): Result<(Control, Reply), Refusal> {
    match req.wanted
    case WantsHTTP =>
      (match RegisterName(c.http, NewTunnel(req, Http, ch.id), req.sub, ch.names, ch.now)
       case Ok((name, http)) => Ok((c.(http := http), URL(name)))
       case Err(e) => Err(e))
    case WantsTCP =>
      (match ch.port
       case None => Err(NoPort)
       case Some(p) =>
         Ok((c.(tcp := c.tcp[p := NewTunnel(req, Tcp, ch.id).(port := p, createdAt := ch.now)]), Port(p))))
    case WantsOther => Err(UnknownType)
  }

  /** Charge, registration, and the refund if that fails. */
  function Admit(c: Control, req: Request, ch: Chance): (Control, Reply) {
    match Charge(c.quotas, req.session.token)
    case Err(e) => (c, Refused(NoQuota(e)))
    case Ok(q) =>
      match Register(c.(quotas := q), req, ch)
      case Ok((c', reply)) => (c', reply)
      case Err(why) => (c.(quotas := Refund(q, req.session.token)), Refused(why))
  }

  /** handleTunnelRequest */
  ghost function Handle(c: Control, req: Request, ch: Chance): (Control, Reply) {
    match Precheck(c, req, ch.allowed)
    case Some(why) => (c, Refused(why))
    case None => Admit(c, req, ch)
  }

  /** A request that is refused, wherever it fails, leaves registry and counters as they were. */
  lemma RefusalChangesNothing(c: Control, req: Request, ch: Chance)
    requires Handle(c, req, ch).1.Refused?
    ensures Handle(c, req, ch).0 == c
  {
    if Charge(c.quotas, req.session.token).Ok? {
      RefundUndoesCharge(c.quotas, req.session.token);
    }
  }

  /** What an accepted request was, and what it leaves behind: one charge and one new entry. */
  lemma AcceptedRequest(c: Control, req: Request, ch: Chance)
    requires !Handle(c, req, ch).1.Refused?
    ensures 1 <= req.localPort <= 65535 && ch.allowed && !req.wanted.WantsOther?
    ensures IsAnon(req.session.token) ==> req.wanted.WantsHTTP? && req.sub == "" && !HoldsActive(c, req.session.token)
    ensures var (c', reply), ses := Handle(c, req, ch), req.session;
            && (!IsAnon(ses.token) ==> Count(c'.quotas, ses.token) == Count(c.quotas, ses.token) + 1)
            && (forall t :: t != ses.token || IsAnon(t) ==> Count(c'.quotas, t) == Count(c.quotas, t))
            && (forall t :: Limit(c'.quotas, t) == Limit(c.quotas, t))
            && if reply.URL? then
                 && ValidSubdomain(reply.sub) && (req.sub != "" ==> reply.sub == req.sub) && c'.tcp == c.tcp
                 && c'.http
                    == c.http[reply.sub := Tunnel(ch.id, ses.token, Http, reply.sub, 0, req.localPort, ses, ch.now, false, 0)]
               else
                 && ch.port == Some(reply.port) && c'.http == c.http
                 && c'.tcp
                    == c.tcp[reply.port := Tunnel(ch.id, ses.token, Tcp, "", reply.port, req.localPort, ses, ch.now, false, 0)]
  {
    if !IsAnon(req.session.token) {
      ChargeEffect(c.quotas, req.session.token);
    }
  }

  /** The token may register the name now. */
  predicate Available(c: Control, token: string, name: string, now: int) {
    && ValidSubdomain(name)
    && (name in c.http ==> c.http[name].reserved && c.http[name].token == token && now < c.http[name].reservedUntil)
  }

  lemma RegistersIffAvailable(c: Control, t: Tunnel, name: string, now: int)
    ensures RegisterHTTP(c.http, name, t, now).Ok? <==> Available(c, t.token, name, now)
  {
  }

  lemma {:induction false} FirstFreeIsFirst(c: Control, t: Tunnel, names: seq<string>, now: int)
    ensures match FirstFree(c.http, t, names, now)
            case None => forall n :: n in names ==> !Available(c, t.token, n, now)
            case Some(name) =>
              exists i :: 0 <= i < |names| && names[i] == name && Available(c, t.token, name, now)
                          && forall k :: 0 <= k < i ==> !Available(c, t.token, names[k], now)
  {
    if names != [] {
      RegistersIffAvailable(c, t, names[0], now);
      var rest := names[1..];
      FirstFreeIsFirst(c, t, rest, now);
      assert names == [names[0]] + rest;
      var free := FirstFree(c.http, t, rest, now);
      if !Available(c, t.token, names[0], now) && free.Some? {
        var i :| 0 <= i < |rest| && rest[i] == free.value && forall k :: 0 <= k < i ==> !Available(c, t.token, rest[k], now);
        assert names[i + 1] == free.value && forall k :: 0 < k < i + 1 ==> names[k] == rest[k - 1];
      }
    }
  }

  /** A request without a name gets the first drawn name that it may register. */
  lemma FirstDrawnNameWins(c: Control, req: Request, ch: Chance)
    requires req.wanted == WantsHTTP && req.sub == "" && Handle(c, req, ch).1.URL?
    ensures var name := Handle(c, req, ch).1.sub;
            exists i :: 0 <= i < |ch.names| && ch.names[i] == name && Available(c, req.session.token, name, ch.now)
                        && forall k :: 0 <= k < i ==> !Available(c, req.session.token, ch.names[k], ch.now)
  {
    FirstFreeIsFirst(c, NewTunnel(req, Http, ch.id), ch.names, ch.now);
  }

  /** What stands in the way of a request before it is charged, and of its charge, in the order
      in which the handler looks; read off the state's fields. */
  ghost predicate Stopped(c: Control, req: Request, allowed: bool) {
    var token, anon := req.session.token, "anon:" <= req.session.token;
    var store := if "htk_" <= token then c.quotas.keys else c.quotas.tokens;
    || !(1 <= req.localPort <= 65535)
    || (anon && (|| req.wanted.WantsTCP? || req.sub != ""
                 || (exists sub :: sub in c.http && c.http[sub].token == token && !c.http[sub].reserved)
                 || (exists p :: p in c.tcp && c.tcp[p].token == token)))
    || !allowed
    || (!anon && (token !in store || store[token].count >= store[token].max))
  }

  /** Exactly which requests are refused: those that are stopped before or at their charge, those
      of an unknown type, and those for which no port, or no name, can be had. */
  lemma RefusedIff(c: Control, req: Request, ch: Chance)
    ensures Handle(c, req, ch).1.Refused? <==>
              || Stopped(c, req, ch.allowed)
              || req.wanted.WantsOther?
              || (req.wanted.WantsTCP? && ch.port.None?)
              || (req.wanted.WantsHTTP? && req.sub != "" && !Available(c, req.session.token, req.sub, ch.now))
              || (req.wanted.WantsHTTP? && req.sub == ""
                  && forall n :: n in ch.names ==> !Available(c, req.session.token, n, ch.now))
  {
    ChargeGrantedIff(c.quotas, req.session.token);
    var t := NewTunnel(req, Http, ch.id);
    FirstFreeIsFirst(c, t, ch.names, ch.now);
    RegistersIffAvailable(c, t, req.sub, ch.now);
  }

  /** And which refusal each gets: the first one in the handler's order. */
  lemma WhichRefusal(c: Control, req: Request, ch: Chance)
    ensures var reply, token, anon := Handle(c, req, ch).1, req.session.token, "anon:" <= req.session.token;
            var store := if "htk_" <= token then c.quotas.keys else c.quotas.tokens;
            var holds := || (exists sub :: sub in c.http && c.http[sub].token == token && !c.http[sub].reserved)
                         || (exists p :: p in c.tcp && c.tcp[p].token == token);
            if !(1 <= req.localPort <= 65535) then reply == Refused(BadLocalPort)
            else if anon && req.wanted.WantsTCP? then reply == Refused(AnonTCP)
            else if anon && req.sub != "" then reply == Refused(AnonName)
            else if anon && holds then reply == Refused(AnonTwice)
            else if !ch.allowed then reply == Refused(RateLimited)
            else if !anon && token !in store then reply == Refused(NoQuota(UnknownToken))
            else if !anon && store[token].count >= store[token].max then reply == Refused(NoQuota(LimitReached))
            else
              match req.wanted
              case WantsOther => reply == Refused(UnknownType)
              case WantsTCP => reply == if ch.port.None? then Refused(NoPort) else Port(ch.port.value)
              case WantsHTTP =>
                && !reply.Port? && (req.sub == "" && reply.Refused? ==> reply.refusal == NoFreeName)
                && (req.sub != "" ==>
                      reply == if !ValidSubdomain(req.sub) then
                                 Refused(NameRefused(Invalid(ValidateSubdomain(req.sub).value)))
                               else if !Available(c, token, req.sub, ch.now) then Refused(NameRefused(InUse))
                               else URL(req.sub))
  {
    ChargeGrantedIff(c.quotas, req.session.token);
    var t := NewTunnel(req, Http, ch.id);
    FirstFreeIsFirst(c, t, ch.names, ch.now);
    RegistersIffAvailable(c, t, req.sub, ch.now);
  }

  /** A request without a name fails after its charge only if every name that was drawn is
      held; drawn names are valid ones. */
  lemma NoFreeNameIffCollisions(c: Control, req: Request, ch: Chance)
    requires req.wanted == WantsHTTP && req.sub == "" && !Stopped(c, req, ch.allowed)
    requires forall n :: n in ch.names ==> ValidSubdomain(n)
    ensures Handle(c, req, ch).1 == Refused(NoFreeName) <==>
              forall n :: n in ch.names ==> n in c.http && !Reclaimable(c.http[n], req.session.token, ch.now)
    ensures Handle(c, req, ch).1 != Refused(NoFreeName) ==>
              var reply := Handle(c, req, ch).1; reply.URL? && reply.sub in ch.names
  {
    RefusedIff(c, req, ch);
    WhichRefusal(c, req, ch);
    if Handle(c, req, ch).1.URL? {
      FirstDrawnNameWins(c, req, ch);
    }
  }

  // ---------------------------------------------------------------- the other handlers

  function RefundTimes(q: Quotas, token: string, n: nat): Quotas {
    if n == 0 then q else Refund(RefundTimes(q, token, n - 1), token)
  }

  ghost function OwnKeys<K>(m: map<K, Tunnel>, session: Session): set<K> {
    set k | k in m && m[k].session == session
  }

  /** cleanupSession */
  ghost function Teardown(c: Control, session: Session): Control {
    var subs, ports := OwnKeys(c.http, session), OwnKeys(c.tcp, session);
    Control(c.http - subs, c.tcp - ports, RefundTimes(c.quotas, session.token, |subs| + |ports|))
  }

  /** Each name is reserved until a time of its own: the clock is read for every one. */
  function ReserveAll(http: HttpMap, subs: set<string>, until: string -> int): HttpMap {
    map sub | sub in http ::
      if sub in subs then http[sub].(reserved := true, reservedUntil := until(sub)) else http[sub]
  }

  /** The idle branch of handleControlSession and the deferred cleanup that follows it. */
  ghost function IdleTimeout(c: Control, session: Session, until: string -> int): Control {
    Teardown(c.(http := ReserveAll(c.http, OwnKeys(c.http, session), until)), session)
  }

  datatype Op =
    | Serve(req: Request, ch: Chance)
    | EndSession(session: Session)
    | Idle(session: Session, until: string -> int)
    | KillHTTP(sub: string)
    | KillTCP(port: int)
    | ReaperTick(now: int)
    | NewKey(key: string, max: int)

  predicate MayDo(c: Control, op: Op) {
    match op
    case Serve(_, ch) => ch.port.Some? ==> ch.port.value !in c.tcp
    case KillHTTP(sub) => sub in c.http
    case KillTCP(p) => p in c.tcp
    case NewKey(key, _) => IsAPIKey(key) && key !in c.quotas.keys
    case _ => true
  }

  ghost function Do(c: Control, op: Op): Control
    requires MayDo(c, op)
  {
    match op
    case Serve(req, ch) => Handle(c, req, ch).0
    case EndSession(session) => Teardown(c, session)
    case Idle(session, until) => IdleTimeout(c, session, until)
    case KillHTTP(sub) => c.(http := c.http - {sub})
    case KillTCP(p) => c.(tcp := c.tcp - {p})
    case ReaperTick(now) => c.(http := Reap(c.http, now))
    case NewKey(key, max) => c.(quotas := c.quotas.(keys := c.quotas.keys[key := Slot(0, max)]))
  }

  // ---------------------------------------------------------------- what is kept

  /** Entries carry the token of their session. */
  ghost predicate Tokened<K>(m: map<K, Tunnel>) {
    forall k :: k in m ==> m[k].token == m[k].session.token
  }

  /** And they know their names. */
  ghost predicate WellFormed(c: Control) {
    && Tokened(c.http) && Tokened(c.tcp)
    && (forall sub :: sub in c.http ==> c.http[sub].kind == Http && c.http[sub].subdomain == sub)
    && (forall p :: p in c.tcp ==> c.tcp[p].kind == Tcp && c.tcp[p].port == p)
  }

  /** How far a token's counter is above the number of its registry entries. */
  ghost function Drift(c: Control, token: string): int {
    Count(c.quotas, token) - LiveCount(c.http, c.tcp, token)
  }

  /** How many entries of the token the handler removes without a refund. */
  ghost function Unrefunded(c: Control, op: Op, token: string): nat
    requires MayDo(c, op)
  {
    match op
    case Serve(req, ch) =>
      var reply := Handle(c, req, ch).1;
      if reply.URL? && reply.sub in c.http && c.http[reply.sub].token == token then 1 else 0
    case KillHTTP(sub) => if c.http[sub].token == token then 1 else 0
    case KillTCP(p) => if c.tcp[p].token == token then 1 else 0
    case ReaperTick(now) => |KeysOf(c.http, token) - KeysOf(Reap(c.http, now), token)|
    case _ => 0
  }

  lemma WellFormedStep(c: Control, op: Op)
    requires WellFormed(c) && MayDo(c, op)
    ensures WellFormed(Do(c, op))
  {
    if op.Serve? {
      WellFormedServe(c, op.req, op.ch);
    }
  }

  lemma WellFormedReserve(c: Control, subs: set<string>, until: string -> int)
    requires WellFormed(c)
    ensures WellFormed(c.(http := ReserveAll(c.http, subs, until)))
  {
  }

  lemma WellFormedServe(c: Control, req: Request, ch: Chance)
    requires WellFormed(c)
    ensures WellFormed(Handle(c, req, ch).0)
  {
  }

  lemma EntryAdded<K>(m: map<K, Tunnel>, k: K, t: Tunnel, token: string)
    ensures |KeysOf(m[k := t], token)|
            == |KeysOf(m, token)| + (if t.token == token then 1 else 0)
               - if k in m && m[k].token == token then 1 else 0
  {
    var before, after := KeysOf(m, token), KeysOf(m[k := t], token);
    if t.token == token {
      assert after == before + {k};
    } else {
      assert after == before - {k};
    }
  }

  lemma EntriesRemoved<K>(m: map<K, Tunnel>, gone: set<K>, token: string)
    ensures |KeysOf(m - gone, token)| == |KeysOf(m, token)| - |KeysOf(m, token) * gone|
  {
    var before := KeysOf(m, token);
    assert KeysOf(m - gone, token) == before - gone;
    assert before == (before - gone) + (before * gone);
  }

  lemma {:induction false} RefundTimesEffect(q: Quotas, token: string, n: nat)
    requires !IsAnon(token) && n <= Count(q, token)
    ensures var q' := RefundTimes(q, token, n);
            && Count(q', token) == Count(q, token) - n
            && forall t :: t != token ==> Count(q', t) == Count(q, t)
  {
    if n > 0 {
      RefundTimesEffect(q, token, n - 1);
      RefundEffect(RefundTimes(q, token, n - 1), token);
    }
  }

  lemma {:induction false} AnonRefundsNothing(q: Quotas, token: string, n: nat)
    requires IsAnon(token)
    ensures RefundTimes(q, token, n) == q
  {
    if n > 0 {
      AnonRefundsNothing(q, token, n - 1);
    }
  }

  // ---------------------------------------------------------------- teardown

  ghost predicate Solvent(c: Control) {
    forall token :: !IsAnon(token) ==> Drift(c, token) >= 0
  }

  lemma OwnEntriesRemoved<K>(m: map<K, Tunnel>, session: Session, token: string)
    requires Tokened(m)
    ensures |KeysOf(m - OwnKeys(m, session), token)|
            == |KeysOf(m, token)| - if token == session.token then |OwnKeys(m, session)| else 0
  {
    var own := OwnKeys(m, session);
    EntriesRemoved(m, own, token);
    if token == session.token {
      assert KeysOf(m, token) * own == own;
    } else {
      assert KeysOf(m, token) * own == {};
    }
  }

  lemma OwnEntriesCounted(c: Control, session: Session, token: string)
    requires WellFormed(c)
    ensures var subs, ports := OwnKeys(c.http, session), OwnKeys(c.tcp, session);
            LiveCount(c.http - subs, c.tcp - ports, token)
            == LiveCount(c.http, c.tcp, token) - if token == session.token then |subs| + |ports| else 0
  {
    OwnEntriesRemoved(c.http, session, token);
    OwnEntriesRemoved(c.tcp, session, token);
  }

  /** A teardown removes exactly the entries of its session, from both maps, leaves every
      other entry as it is, and refunds one unit for each entry it removed. */
  lemma TeardownExact(c: Control, session: Session)
    requires WellFormed(c) && Solvent(c)
    ensures var c' := Teardown(c, session);
            && (forall sub :: sub in c'.http <==> sub in c.http && c.http[sub].session != session)
            && (forall sub :: sub in c'.http ==> c'.http[sub] == c.http[sub])
            && (forall p :: p in c'.tcp <==> p in c.tcp && c.tcp[p].session != session)
            && (forall p :: p in c'.tcp ==> c'.tcp[p] == c.tcp[p])
            && (forall token :: !IsAnon(token) ==>
                  Count(c.quotas, token) - Count(c'.quotas, token)
                  == LiveCount(c.http, c.tcp, token) - LiveCount(c'.http, c'.tcp, token))
            && (IsAnon(session.token) ==> c'.quotas == c.quotas)
  {
    var c', n := Teardown(c, session), |OwnKeys(c.http, session)| + |OwnKeys(c.tcp, session)|;
    forall token | !IsAnon(token)
      ensures Count(c.quotas, token) - Count(c'.quotas, token)
              == LiveCount(c.http, c.tcp, token) - LiveCount(c'.http, c'.tcp, token)
    {
      OwnEntriesCounted(c, session, token);
      if IsAnon(session.token) {
        AnonRefundsNothing(c.quotas, session.token, n);
      } else {
        OwnEntriesCounted(c, session, session.token);
        assert n <= LiveCount(c.http, c.tcp, session.token) <= Count(c.quotas, session.token);
        RefundTimesEffect(c.quotas, session.token, n);
      }
    }
    if IsAnon(session.token) {
      AnonRefundsNothing(c.quotas, session.token, n);
    }
  }

  function SubsOf(ts: seq<Tunnel>): set<string> {
    if ts == [] then {}
    else
      var t := ts[|ts| - 1];
      SubsOf(ts[..|ts| - 1]) + if t.kind == Http then {t.subdomain} else {}
  }

  function PortsOf(ts: seq<Tunnel>): set<int> {
    if ts == [] then {}
    else
      var t := ts[|ts| - 1];
      PortsOf(ts[..|ts| - 1]) + if t.kind == Tcp then {t.port} else {}
  }

  lemma {:induction false} SubIndex(ts: seq<Tunnel>, sub: string)
    ensures sub in SubsOf(ts) <==> exists i :: 0 <= i < |ts| && ts[i].kind == Http && ts[i].subdomain == sub
  {
    if ts != [] {
      var n := |ts| - 1;
      SubIndex(ts[..n], sub);
      if sub in SubsOf(ts[..n]) {
        var i :| 0 <= i < n && ts[..n][i].kind == Http && ts[..n][i].subdomain == sub;
        assert ts[i].subdomain == sub;
      }
      assert forall i :: 0 <= i < n ==> ts[..n][i] == ts[i];
    }
  }

  lemma {:induction false} PortIndex(ts: seq<Tunnel>, port: int)
    ensures port in PortsOf(ts) <==> exists i :: 0 <= i < |ts| && ts[i].kind == Tcp && ts[i].port == port
  {
    if ts != [] {
      var n := |ts| - 1;
      PortIndex(ts[..n], port);
      if port in PortsOf(ts[..n]) {
        var i :| 0 <= i < n && ts[..n][i].kind == Tcp && ts[..n][i].port == port;
        assert ts[i].port == port;
      }
      assert forall i :: 0 <= i < n ==> ts[..n][i] == ts[i];
    }
  }

  /** One turn of the teardown loop. */
  function Drop(c: Control, t: Tunnel, token: string): Control {
    Control(if t.kind == Http then c.http - {t.subdomain} else c.http,
            if t.kind == Tcp then c.tcp - {t.port} else c.tcp,
            Refund(c.quotas, token))
  }

  function DropAll(c: Control, ts: seq<Tunnel>, token: string): Control {
    if ts == [] then c else Drop(DropAll(c, ts[..|ts| - 1], token), ts[|ts| - 1], token)
  }

  lemma DropNext(c: Control, ts: seq<Tunnel>, i: nat, token: string)
    requires i < |ts|
    ensures DropAll(c, ts[..i + 1], token) == Drop(DropAll(c, ts[..i], token), ts[i], token)
  {
    assert ts[..i + 1][..i] == ts[..i];
  }

  predicate SamePlace(a: Tunnel, b: Tunnel) {
    a.kind == b.kind && if a.kind == Http then a.subdomain == b.subdomain else a.port == b.port
  }

  predicate OncePerPlace(ts: seq<Tunnel>) {
    forall i, j :: 0 <= i < j < |ts| ==> !SamePlace(ts[i], ts[j])
  }

  lemma {:induction false} DropAllIs(c: Control, ts: seq<Tunnel>, token: string)
    ensures DropAll(c, ts, token)
            == Control(c.http - SubsOf(ts), c.tcp - PortsOf(ts), RefundTimes(c.quotas, token, |ts|))
  {
    if ts == [] {
      assert c.http - {} == c.http && c.tcp - {} == c.tcp;
    } else {
      var front, t := ts[..|ts| - 1], ts[|ts| - 1];
      DropAllIs(c, front, token);
      MinusMore(c.http, SubsOf(front), t.subdomain);
      MinusMore(c.tcp, PortsOf(front), t.port);
    }
  }

  lemma {:induction false} PlacesAreAsMany(ts: seq<Tunnel>)
    requires OncePerPlace(ts)
    ensures |SubsOf(ts)| + |PortsOf(ts)| == |ts|
  {
    if ts != [] {
      PlacesAreAsMany(ts[..|ts| - 1]);
      LastIsElsewhere(ts);
    }
  }

  lemma LastIsElsewhere(ts: seq<Tunnel>)
    requires ts != [] && OncePerPlace(ts)
    ensures var front, t := ts[..|ts| - 1], ts[|ts| - 1];
            if t.kind == Http then t.subdomain !in SubsOf(front) else t.port !in PortsOf(front)
  {
    var front, t := ts[..|ts| - 1], ts[|ts| - 1];
    assert forall i :: 0 <= i < |front| ==> front[i] == ts[i] && !SamePlace(ts[i], t);
    if t.kind == Http {
      SubIndex(front, t.subdomain);
    } else {
      PortIndex(front, t.port);
    }
  }

  lemma MinusMore<K>(m: map<K, Tunnel>, ks: set<K>, k: K)
    ensures m - (ks + {k}) == m - ks - {k} && m - (ks + {}) == m - ks
  {
    assert ks + {} == ks;
  }

  /** `ts` lists the tunnels of the session, each once, in any order. */
  ghost predicate IsSnapshot(c: Control, session: Session, ts: seq<Tunnel>) {
    OncePerPlace(ts) && SubsOf(ts) == OwnKeys(c.http, session) && PortsOf(ts) == OwnKeys(c.tcp, session)
  }

  /** In whatever order the snapshot lists them, dropping the session's tunnels one by one is
      the teardown. */
  lemma AnyOrderTearsDown(c: Control, session: Session, ts: seq<Tunnel>)
    requires IsSnapshot(c, session, ts)
    ensures DropAll(c, ts, session.token) == Teardown(c, session)
  {
    DropAllIs(c, ts, session.token);
    PlacesAreAsMany(ts);
  }

  /** The loop of the idle branch. */
  function ReserveEach(http: HttpMap, ts: seq<Tunnel>, until: string -> int): HttpMap {
    if ts == [] then http
    else
      var t := ts[|ts| - 1];
      var http' := ReserveEach(http, ts[..|ts| - 1], until);
      if t.kind == Http then Reserve(http', t.subdomain, until(t.subdomain)) else http'
  }

  lemma {:induction false} ReserveEachIs(http: HttpMap, ts: seq<Tunnel>, until: string -> int)
    ensures ReserveEach(http, ts, until) == ReserveAll(http, SubsOf(ts), until)
  {
    if ts != [] {
      ReserveEachIs(http, ts[..|ts| - 1], until);
    }
  }

  /** The names that an idle timeout reserves are deleted by the cleanup that follows at once:
      the client finds nothing to reclaim. */
  lemma IdleTimeoutIsTeardown(c: Control, session: Session, until: string -> int)
    ensures IdleTimeout(c, session, until) == Teardown(c, session)
  {
    var subs := OwnKeys(c.http, session);
    var reserved := ReserveAll(c.http, subs, until);
    assert OwnKeys(reserved, session) == subs;
    assert reserved - subs == c.http - subs;
  }

  // ---------------------------------------------------------------- counters over whole runs

  lemma DriftServe(c: Control, req: Request, ch: Chance, token: string)
    requires WellFormed(c) && MayDo(c, Serve(req, ch)) && !IsAnon(token)
    ensures Drift(Handle(c, req, ch).0, token) == Drift(c, token) + Unrefunded(c, Serve(req, ch), token)
  {
    var (c', reply) := Handle(c, req, ch);
    if reply.Refused? {
      RefusalChangesNothing(c, req, ch);
    } else {
      var mine := req.session.token;
      if !IsAnon(mine) {
        ChargeEffect(c.quotas, mine);
      }
      if reply.URL? {
        assert c'.http == c.http[reply.sub := c'.http[reply.sub]] && c'.tcp == c.tcp;
        EntryAdded(c.http, reply.sub, c'.http[reply.sub], token);
      } else {
        assert c'.tcp == c.tcp[reply.port := c'.tcp[reply.port]] && c'.http == c.http;
        EntryAdded(c.tcp, reply.port, c'.tcp[reply.port], token);
      }
    }
  }

  lemma DriftKills(c: Control, op: Op, token: string)
    requires MayDo(c, op) && (op.KillHTTP? || op.KillTCP?)
    ensures Drift(Do(c, op), token) == Drift(c, token) + Unrefunded(c, op, token)
  {
    if op.KillHTTP? {
      EntriesRemoved(c.http, {op.sub}, token);
      assert KeysOf(c.http, token) * {op.sub} == if c.http[op.sub].token == token then {op.sub} else {};
    } else {
      EntriesRemoved(c.tcp, {op.port}, token);
      assert KeysOf(c.tcp, token) * {op.port} == if c.tcp[op.port].token == token then {op.port} else {};
    }
  }

  lemma DriftReaper(c: Control, now: int, token: string)
    ensures Drift(Do(c, ReaperTick(now)), token) == Drift(c, token) + Unrefunded(c, ReaperTick(now), token)
  {
    var before, after := KeysOf(c.http, token), KeysOf(Reap(c.http, now), token);
    assert before == after + (before - after);
  }

  /** Every handler moves a token's counter away from its number of entries by exactly the
      entries it removes without a refund. */
  lemma DriftStep(c: Control, op: Op, token: string)
    requires WellFormed(c) && Solvent(c) && MayDo(c, op) && !IsAnon(token)
    ensures Drift(Do(c, op), token) == Drift(c, token) + Unrefunded(c, op, token)
  {
    match op
    case Serve(req, ch) => DriftServe(c, req, ch, token);
    case EndSession(session) => TeardownExact(c, session);
    case Idle(session, until) =>
      IdleTimeoutIsTeardown(c, session, until);
      TeardownExact(c, session);
    case KillHTTP(_) => DriftKills(c, op, token);
    case KillTCP(_) => DriftKills(c, op, token);
    case ReaperTick(now) => DriftReaper(c, now, token);
    case NewKey(_, _) => assert Count(Do(c, op).quotas, token) == Count(c.quotas, token);
  }

  predicate Start(c: Control) {
    && c.http == map[] && c.tcp == map[]
    && (forall k :: k in c.quotas.keys ==> c.quotas.keys[k].count == 0)
    && (forall t :: t in c.quotas.tokens ==> c.quotas.tokens[t].count == 0)
  }

  ghost predicate IsRun(cs: seq<Control>, ops: seq<Op>) {
    && |cs| == |ops| + 1
    && Start(cs[0])
    && forall i {:trigger ops[i]} :: 0 <= i < |ops| ==> MayDo(cs[i], ops[i]) && cs[i + 1] == Do(cs[i], ops[i])
  }

  /** The token's entries that the first `i` handlers of a run removed without a refund. */
  ghost function Forgotten(cs: seq<Control>, ops: seq<Op>, i: nat, token: string): nat
    requires IsRun(cs, ops) && i <= |ops|
  {
    if i == 0 then 0 else Forgotten(cs, ops, i - 1, token) + Unrefunded(cs[i - 1], ops[i - 1], token)
  }

  /** Between handlers a token's counter is the number of its registered tunnels plus the
      number of its tunnels that were removed without a refund since the start. */
  lemma {:induction false} CounterIsLivePlusForgotten(cs: seq<Control>, ops: seq<Op>, i: nat)
    requires IsRun(cs, ops) && i < |cs|
    ensures WellFormed(cs[i])
    ensures forall token :: !IsAnon(token) ==>
              Count(cs[i].quotas, token)
              == LiveCount(cs[i].http, cs[i].tcp, token) + Forgotten(cs, ops, i, token)
  {
    if i == 0 {
      assert forall token :: KeysOf(cs[0].http, token) == {} && KeysOf(cs[0].tcp, token) == {};
    } else {
      CounterIsLivePlusForgotten(cs, ops, i - 1);
      WellFormedStep(cs[i - 1], ops[i - 1]);
      forall token | !IsAnon(token)
        ensures Drift(cs[i], token) == Forgotten(cs, ops, i, token)
      {
        DriftStep(cs[i - 1], ops[i - 1], token);
      }
    }
  }

  /** No reservation outlives the handler that makes it. */
  lemma {:induction false} NothingReservedBetweenHandlers(cs: seq<Control>, ops: seq<Op>, i: nat)
    requires IsRun(cs, ops) && i < |cs|
    ensures forall sub :: sub in cs[i].http ==> !cs[i].http[sub].reserved
  {
    if i > 0 {
      NothingReservedBetweenHandlers(cs, ops, i - 1);
      var op := ops[i - 1];
      if op.Idle? {
        IdleTimeoutIsTeardown(cs[i - 1], op.session, op.until);
      }
      assert cs[i] == Do(cs[i - 1], op);
    }
  }

  /** So the reaper and reclaiming never remove anything, and kills are the only handlers that
      make a counter drift: without kills it is exact. */
  lemma {:induction false} ExactWithoutKills(cs: seq<Control>, ops: seq<Op>, i: nat, token: string)
    requires IsRun(cs, ops) && i < |cs| && !IsAnon(token)
    requires forall k :: 0 <= k < i ==> !ops[k].KillHTTP? && !ops[k].KillTCP?
    ensures Count(cs[i].quotas, token) == LiveCount(cs[i].http, cs[i].tcp, token)
  {
    CounterIsLivePlusForgotten(cs, ops, i);
    NothingForgotten(cs, ops, i, token);
  }

  lemma {:induction false} NothingForgotten(cs: seq<Control>, ops: seq<Op>, i: nat, token: string)
    requires IsRun(cs, ops) && i < |cs|
    requires forall k :: 0 <= k < i ==> !ops[k].KillHTTP? && !ops[k].KillTCP?
    ensures Forgotten(cs, ops, i, token) == 0
  {
    if i > 0 {
      NothingForgotten(cs, ops, i - 1, token);
      NothingReservedBetweenHandlers(cs, ops, i - 1);
      OnlyKillsForget(cs[i - 1], ops[i - 1], token);
    }
  }

  lemma OnlyKillsForget(c: Control, op: Op, token: string)
    requires MayDo(c, op) && !op.KillHTTP? && !op.KillTCP?
    requires forall sub :: sub in c.http ==> !c.http[sub].reserved
    ensures Unrefunded(c, op, token) == 0
  {
    if op.ReaperTick? {
      assert Reap(c.http, op.now) == c.http;
    }
  }

  // ---------------------------------------------------------------- anonymous clients

  lemma FewerEntries<K>(m: map<K, Tunnel>, gone: set<K>, token: string)
    ensures |KeysOf(m - gone, token)| <= |KeysOf(m, token)|
  {
    EntriesRemoved(m, gone, token);
  }

  /** Every handler but a tunnel request can only take entries away. */
  lemma OthersOnlyRemove(c: Control, op: Op, token: string)
    requires MayDo(c, op) && !op.Serve?
    ensures var c' := Do(c, op); LiveCount(c'.http, c'.tcp, token) <= LiveCount(c.http, c.tcp, token)
  {
    match op
    case EndSession(session) =>
      FewerEntries(c.http, OwnKeys(c.http, session), token);
      FewerEntries(c.tcp, OwnKeys(c.tcp, session), token);
    case Idle(session, until) =>
      IdleTimeoutIsTeardown(c, session, until);
      FewerEntries(c.http, OwnKeys(c.http, session), token);
      FewerEntries(c.tcp, OwnKeys(c.tcp, session), token);
    case KillHTTP(sub) => FewerEntries(c.http, {sub}, token);
    case KillTCP(p) => FewerEntries(c.tcp, {p}, token);
    case ReaperTick(now) => DriftReaper(c, now, token);
    case NewKey(_, _) =>
  }

  lemma KeyWithToken<K>(m: map<K, Tunnel>, token: string) returns (k: K)
    requires KeysOf(m, token) != {}
    ensures k in m && m[k].token == token
  {
    k :| k in KeysOf(m, token);
  }

  lemma HoldsNothing(c: Control, token: string)
    requires !HoldsActive(c, token) && forall sub :: sub in c.http ==> !c.http[sub].reserved
    ensures LiveCount(c.http, c.tcp, token) == 0
  {
    assert KeysOf(c.http, token) == {};
    if KeysOf(c.tcp, token) != {} {
      var p := KeyWithToken(c.tcp, token);
      assert false;
    }
  }

  lemma ServeAddsOne(c: Control, req: Request, ch: Chance, token: string)
    requires MayDo(c, Serve(req, ch)) && forall sub :: sub in c.http ==> !c.http[sub].reserved
    ensures var c' := Handle(c, req, ch).0;
            LiveCount(c'.http, c'.tcp, token)
            == LiveCount(c.http, c.tcp, token)
               + if !Handle(c, req, ch).1.Refused? && req.session.token == token then 1 else 0
  {
    var (c', reply) := Handle(c, req, ch);
    if reply.Refused? {
      RefusalChangesNothing(c, req, ch);
    } else if reply.URL? {
      assert c'.http == c.http[reply.sub := c'.http[reply.sub]] && c'.tcp == c.tcp;
      EntryAdded(c.http, reply.sub, c'.http[reply.sub], token);
    } else {
      assert c'.tcp == c.tcp[reply.port := c'.tcp[reply.port]] && c'.http == c.http;
      EntryAdded(c.tcp, reply.port, c'.tcp[reply.port], token);
    }
  }

  /** With handlers taken whole, an anonymous address never has more than one tunnel. */
  lemma {:induction false} AnonAtMostOne(cs: seq<Control>, ops: seq<Op>, i: nat, token: string)
    requires IsRun(cs, ops) && i < |cs| && IsAnon(token)
    ensures LiveCount(cs[i].http, cs[i].tcp, token) <= 1
  {
    if i == 0 {
      assert KeysOf(cs[0].http, token) == {} && KeysOf(cs[0].tcp, token) == {};
    } else {
      AnonAtMostOne(cs, ops, i - 1, token);
      var c, op := cs[i - 1], ops[i - 1];
      if op.Serve? {
        NothingReservedBetweenHandlers(cs, ops, i - 1);
        ServeAddsOne(c, op.req, op.ch, token);
        if !Handle(c, op.req, op.ch).1.Refused? && op.req.session.token == token {
          AcceptedRequest(c, op.req, op.ch);
          HoldsNothing(c, token);
        }
      } else {
        OthersOnlyRemove(c, op, token);
      }
    }
  }
}
