/**
 Rate limiting. A limiter is a token bucket that starts full and refills at a constant
 rate; time and tokens are real numbers, times in seconds.
 (internal/server/auth.go; golang.org/x/time/rate is modelled by Bucket)
 */
module RateLimit {

  // ---------------------------------------------------------------- one bucket

  datatype Bucket = Bucket(tokens: real, last: real)

  /** A capacity, and how many tokens `refill(d)` flow in during `d` seconds. */
  datatype Flow = Flow(burst: real, refill: real -> real)

  /** Tokens flow in steadily, and a minute's worth fills the bucket. */
  ghost predicate Steady(f: Flow) {
    f.refill(0.0) == 0.0 && f.refill(60.0) == f.burst && Monotone(f) && Additive(f)
  }

  ghost predicate Monotone(f: Flow) {
    forall d, e :: 0.0 <= d <= e ==> f.refill(d) <= f.refill(e)
  }

  ghost predicate Additive(f: Flow) {
    forall c, d, e :: 0.0 <= d && 0.0 <= e && c == d + e ==> f.refill(c) == f.refill(d) + f.refill(e)
  }

  type Limits = f: Flow | Steady(f) ghost witness Flow(0.0, (d: real) => 0.0)

  function PerSecond(n: nat): real {
    n as real / 60.0
  }

  function PerMinuteFlow(n: nat): Flow {
    Flow(n as real, (d: real) => d * PerSecond(n))
  }

  lemma MoreFlows(d: real, e: real, r: real)
    requires d <= e && r >= 0.0
    ensures d * r <= e * r
  {
    assert (e - d) * r >= 0.0;
  }

  lemma FlowsAdd(d: real, e: real, r: real)
    ensures (d + e) * r == d * r + e * r
  {
  }

  lemma PerMinuteMonotone(n: nat)
    ensures Monotone(PerMinuteFlow(n))
  {
    forall d: real, e: real | 0.0 <= d <= e
      ensures PerMinuteFlow(n).refill(d) <= PerMinuteFlow(n).refill(e)
    {
      MoreFlows(d, e, PerSecond(n));
    }
  }

  lemma PerMinuteAdditive(n: nat)
    ensures Additive(PerMinuteFlow(n))
  {
    forall c: real, d: real, e: real | 0.0 <= d && 0.0 <= e && c == d + e
      ensures PerMinuteFlow(n).refill(c) == PerMinuteFlow(n).refill(d) + PerMinuteFlow(n).refill(e)
    {
      FlowsAdd(d, e, PerSecond(n));
    }
  }

  lemma PerMinuteIsSteady(n: nat)
    ensures Steady(PerMinuteFlow(n))
  {
    PerMinuteMonotone(n);
    PerMinuteAdditive(n);
    MinuteFills(n);
  }

  lemma MinuteFills(n: nat)
    ensures PerMinuteFlow(n).refill(0.0) == 0.0 && PerMinuteFlow(n).refill(60.0) == PerMinuteFlow(n).burst
  {
  }

  /** `n` requests per minute: the burst is a minute's worth. */
  function PerMinute(n: nat): Limits {
    PerMinuteIsSteady(n);
    PerMinuteFlow(n)
  }

  function Min(a: real, b: real): real {
    if a < b then a else b
  }

  /** The tokens in the bucket at time `t`. */
  function Level(lim: Limits, b: Bucket, t: real): real {
    var elapsed := if t < b.last then 0.0 else t - b.last;
    Min(lim.burst, b.tokens + lim.refill(elapsed))
  }

  function Fresh(lim: Limits, t: real): Bucket {
    Bucket(lim.burst, t)
  }

  predicate Admits(lim: Limits, b: Bucket, t: real) {
    Level(lim, b, t) >= 1.0
  }

  /** A refused request leaves the bucket as it was. */
  function Take(lim: Limits, b: Bucket, t: real): Bucket {
    if Admits(lim, b, t) then Bucket(Level(lim, b, t) - 1.0, t) else b
  }

  /** Between two times the level grows by the refill of the time between, at most. */
  lemma LevelGrowth(lim: Limits, b: Bucket, t: real, u: real)
    requires t <= u
    ensures Level(lim, b, t) <= Level(lim, b, u) <= Level(lim, b, t) + lim.refill(u - t)
  {
    var d := if t < b.last then 0.0 else t - b.last;
    var e := if u < b.last then 0.0 else u - b.last;
    assert lim.refill(e) == lim.refill(d) + lim.refill(e - d);
    assert lim.refill(e - d) <= lim.refill(u - t);
  }

  /** A bucket that has rested for a minute is full, whatever was taken from it. */
  lemma RestedIsFull(lim: Limits, b: Bucket, t: real)
    requires b.tokens >= 0.0 && t >= b.last + 60.0
    ensures Level(lim, b, t) == lim.burst
  {
    assert lim.refill(60.0) <= lim.refill(t - b.last);
  }

  lemma FreshIsFull(lim: Limits, t: real, u: real)
    requires t <= u
    ensures Level(lim, Fresh(lim, t), u) == lim.burst
  {
    assert lim.refill(0.0) <= lim.refill(u - t);
  }

  // ---------------------------------------------------------------- per-IP limiter with eviction

  datatype Entry = Entry(bucket: Bucket, lastSeen: real)

  type Table = map<string, Entry>

  const EVICT_AFTER := 600.0

  /** How far apart the two clock reads of one Allow may be. Both happen under the lock. */
  const MAX_CLOCK_GAP := 540.0

  /** What the limiter would find for `ip` at `t`; an unknown address gets a full bucket. */
  function LevelAt(lim: Limits, tab: Table, ip: string, t: real): real {
    if ip in tab then Level(lim, tab[ip].bucket, t) else lim.burst
  }

  function BucketFor(lim: Limits, tab: Table, ip: string, at: real): Bucket {
    if ip in tab then tab[ip].bucket else Fresh(lim, at)
  }

  function AllowIP(lim: Limits, tab: Table, ip: string, seen: real, at: real): (bool, Table) {
    var b := BucketFor(lim, tab, ip, at);
    (Admits(lim, b, at), tab[ip := Entry(Take(lim, b, at), seen)])
  }

  function Sweep(tab: Table, cutoff: real): Table {
    map ip | ip in tab && tab[ip].lastSeen >= cutoff :: tab[ip]
  }

  /** An Allow reads the clock twice, for `lastSeen` and in the bucket; a cleanup reads it
      once, before it takes the lock. */
  datatype Event = Request(ip: string, seen: real, at: real) | Cleanup(now: real)

  /** The time that has certainly passed when the next event gets the lock. */
  function Later(now: real, e: Event): real {
    match e
    case Request(_, _, at) => at
    case Cleanup(t) => if t < now then now else t
  }

  predicate Timed(now: real, events: seq<Event>)
    decreases |events|
  {
    events == []
    || (&& (events[0].Request? ==> now <= events[0].seen <= events[0].at <= events[0].seen + MAX_CLOCK_GAP)
        && Timed(Later(now, events[0]), events[1..]))
  }

  /** The answers to the requests, with cleanup and without. */
  function AnswersEvicting(lim: Limits, tab: Table, events: seq<Event>): seq<bool>
    decreases |events|
  {
    if events == [] then []
    else
      match events[0]
      case Request(ip, seen, at) =>
        var (ok, tab') := AllowIP(lim, tab, ip, seen, at);
        [ok] + AnswersEvicting(lim, tab', events[1..])
      case Cleanup(now) => AnswersEvicting(lim, Sweep(tab, now - EVICT_AFTER), events[1..])
  }

  function AnswersKeeping(lim: Limits, tab: Table, events: seq<Event>): seq<bool>
    decreases |events|
  {
    if events == [] then []
    else
      match events[0]
      case Request(ip, seen, at) =>
        var (ok, tab') := AllowIP(lim, tab, ip, seen, at);
        [ok] + AnswersKeeping(lim, tab', events[1..])
      case Cleanup(now) => AnswersKeeping(lim, tab, events[1..])
  }

  /** Buckets are never overdrawn and not used much later than their entry was last seen. */
  predicate TableOk(tab: Table) {
    forall ip :: ip in tab ==> tab[ip].bucket.tokens >= 0.0 && tab[ip].bucket.last <= tab[ip].lastSeen + MAX_CLOCK_GAP
  }

  /** From `now` on the two tables give the same level to everybody. */
  ghost predicate Indistinguishable(lim: Limits, a: Table, b: Table, now: real) {
    forall ip, t :: t >= now ==> LevelAt(lim, a, ip, t) == LevelAt(lim, b, ip, t)
  }

  lemma SweepUnobservable(lim: Limits, tab: Table, now: real, ip: string, t: real)
    requires TableOk(tab) && t >= now
    ensures LevelAt(lim, Sweep(tab, now - EVICT_AFTER), ip, t) == LevelAt(lim, tab, ip, t)
  {
    if ip in tab && ip !in Sweep(tab, now - EVICT_AFTER) {
      RestedIsFull(lim, tab[ip].bucket, t);
    }
  }

  lemma AllowKeepsOk(lim: Limits, tab: Table, ip: string, seen: real, at: real)
    requires TableOk(tab) && seen <= at <= seen + MAX_CLOCK_GAP
    requires ip in tab ==> tab[ip].lastSeen <= seen
    ensures TableOk(AllowIP(lim, tab, ip, seen, at).1)
  {
  }

  predicate SeenBy(tab: Table, now: real) {
    forall ip :: ip in tab ==> tab[ip].lastSeen <= now
  }

  /** Same level at the time of a request, same answer and same levels from then on. */
  lemma AllowAgrees(lim: Limits, a: Table, b: Table, now: real, ip: string, seen: real, at: real)
    requires Indistinguishable(lim, a, b, now) && now <= at
    ensures AllowIP(lim, a, ip, seen, at).0 == AllowIP(lim, b, ip, seen, at).0
    ensures Indistinguishable(lim, AllowIP(lim, a, ip, seen, at).1, AllowIP(lim, b, ip, seen, at).1, at)
  {
    FreshIsFull(lim, at, at);
    assert LevelAt(lim, a, ip, at) == LevelAt(lim, b, ip, at);
    assert Level(lim, BucketFor(lim, a, ip, at), at) == LevelAt(lim, a, ip, at);
    assert Level(lim, BucketFor(lim, b, ip, at), at) == LevelAt(lim, b, ip, at);
    var a', b' := AllowIP(lim, a, ip, seen, at).1, AllowIP(lim, b, ip, seen, at).1;
    forall other, t | t >= at
      ensures LevelAt(lim, a', other, t) == LevelAt(lim, b', other, t)
    {
      assert LevelAt(lim, a, other, t) == LevelAt(lim, b, other, t);
      FreshIsFull(lim, at, t);
    }
  }

  /** Eviction is unobservable: for every timed sequence of requests and cleanups, the
      limiter answers as one that never forgets an address. */
  lemma {:induction false} EvictionUnobservable(lim: Limits, a: Table, b: Table, now: real, events: seq<Event>)
    requires Timed(now, events) && TableOk(a) && SeenBy(a, now) && Indistinguishable(lim, a, b, now)
    ensures AnswersEvicting(lim, a, events) == AnswersKeeping(lim, b, events)
    decreases |events|
  {
    if events != [] {
      match events[0]
      case Request(ip, seen, at) =>
        AllowAgrees(lim, a, b, now, ip, seen, at);
        AllowKeepsOk(lim, a, ip, seen, at);
        EvictionUnobservable(lim, AllowIP(lim, a, ip, seen, at).1, AllowIP(lim, b, ip, seen, at).1, at, events[1..]);
      case Cleanup(t) =>
        var swept, later := Sweep(a, t - EVICT_AFTER), Later(now, events[0]);
        forall ip, u | u >= later
          ensures LevelAt(lim, swept, ip, u) == LevelAt(lim, b, ip, u)
        {
          SweepUnobservable(lim, a, t, ip, u);
          assert LevelAt(lim, a, ip, u) == LevelAt(lim, b, ip, u);
        }
        EvictionUnobservable(lim, swept, b, later, events[1..]);
    }
  }

  /** In particular from the empty table the limiter starts with. */
  lemma EvictionUnobservableFromStart(lim: Limits, now: real, events: seq<Event>)
    requires Timed(now, events)
    ensures AnswersEvicting(lim, map[], events) == AnswersKeeping(lim, map[], events)
  {
    EvictionUnobservable(lim, map[], map[], now, events);
  }

  // ---------------------------------------------------------------- how much a window admits

  /** How many requests of `ip` the evicting limiter admits. */
  function AdmittedIP(lim: Limits, tab: Table, events: seq<Event>, ip: string): nat
    decreases |events|
  {
    if events == [] then 0
    else
      match events[0]
      case Request(who, seen, at) =>
        var (ok, tab') := AllowIP(lim, tab, who, seen, at);
        (if ok && who == ip then 1 else 0) + AdmittedIP(lim, tab', events[1..], ip)
      case Cleanup(now) => AdmittedIP(lim, Sweep(tab, now - EVICT_AFTER), events[1..], ip)
  }

  /** Every clock read is at most `until`. */
  predicate Within(events: seq<Event>, until: real) {
    forall i :: 0 <= i < |events| ==> match events[i] case Request(_, _, at) => at <= until case Cleanup(t) => t <= until
  }

  lemma {:induction false} AdmittedIPBound(lim: Limits, tab: Table, events: seq<Event>, ip: string, now: real, until: real)
    requires Timed(now, events) && TableOk(tab) && SeenBy(tab, now) && Within(events, until) && now <= until
    ensures AdmittedIP(lim, tab, events, ip) as real <= LevelAt(lim, tab, ip, now) + lim.refill(until - now)
    decreases |events|
  {
    if events == [] {
      assert lim.refill(0.0) <= lim.refill(until - now);
      if ip in tab {
        LevelNotNegative(lim, tab[ip].bucket, now);
      }
    } else {
      var later, tail := Later(now, events[0]), events[1..];
      assert Within(tail, until) by {
        assert forall i :: 0 <= i < |tail| ==> tail[i] == events[i + 1];
      }
      match events[0]
      case Request(who, seen, at) =>
        var (ok, tab') := AllowIP(lim, tab, who, seen, at);
        AllowKeepsOk(lim, tab, who, seen, at);
        AdmittedIPBound(lim, tab', tail, ip, at, until);
        RequestBound(lim, tab, who, seen, at, ip, now, until, AdmittedIP(lim, tab', tail, ip));
      case Cleanup(t) =>
        var swept := Sweep(tab, t - EVICT_AFTER);
        AdmittedIPBound(lim, swept, tail, ip, later, until);
        CleanupBound(lim, tab, t, later, ip, now, until, AdmittedIP(lim, swept, tail, ip));
    }
  }

  lemma RequestBound(lim: Limits, tab: Table, who: string, seen: real, at: real, ip: string,
                     now: real, until: real, more: nat)
    requires now <= at <= until
    requires more as real <= LevelAt(lim, AllowIP(lim, tab, who, seen, at).1, ip, at) + lim.refill(until - at)
    ensures var cost := if AllowIP(lim, tab, who, seen, at).0 && who == ip then 1 else 0;
            (cost + more) as real <= LevelAt(lim, tab, ip, now) + lim.refill(until - now)
  {
    AllowLevel(lim, tab, who, seen, at, ip);
    LevelAtGrowth(lim, tab, ip, now, at);
    var cost: nat := if AllowIP(lim, tab, who, seen, at).0 && who == ip then 1 else 0;
    BoundsAdd(lim, now, at, until, LevelAt(lim, tab, ip, now), LevelAt(lim, tab, ip, at), more, cost);
  }

  lemma CleanupBound(lim: Limits, tab: Table, t: real, later: real, ip: string, now: real, until: real, more: nat)
    requires TableOk(tab) && now <= later <= until && t <= later
    requires more as real <= LevelAt(lim, Sweep(tab, t - EVICT_AFTER), ip, later) + lim.refill(until - later)
    ensures more as real <= LevelAt(lim, tab, ip, now) + lim.refill(until - now)
  {
    SweepUnobservable(lim, tab, t, ip, later);
    LevelAtGrowth(lim, tab, ip, now, later);
    BoundsAdd(lim, now, later, until, LevelAt(lim, tab, ip, now), LevelAt(lim, tab, ip, later), more, 0);
  }

  /** One step of a bound: the refill up to `later` pays for `cost`, the rest for `more`. */
  lemma BoundsAdd(lim: Limits, now: real, later: real, until: real, level: real, level': real, more: nat, cost: nat)
    requires now <= later <= until && level' <= level + lim.refill(later - now)
    requires more as real <= level' - cost as real + lim.refill(until - later)
    ensures (cost + more) as real <= level + lim.refill(until - now)
  {
    assert lim.refill(later - now) + lim.refill(until - later) == lim.refill(until - now);
  }

  lemma LevelNotNegative(lim: Limits, b: Bucket, t: real)
    requires b.tokens >= 0.0
    ensures Level(lim, b, t) >= 0.0
  {
    if t >= b.last {
      assert lim.refill(0.0) <= lim.refill(t - b.last);
    }
  }

  lemma LevelAtMost(lim: Limits, tab: Table, ip: string, t: real)
    ensures LevelAt(lim, tab, ip, t) <= lim.burst
  {
  }

  lemma LevelAtGrowth(lim: Limits, tab: Table, ip: string, t: real, u: real)
    requires t <= u
    ensures LevelAt(lim, tab, ip, u) <= LevelAt(lim, tab, ip, t) + lim.refill(u - t)
  {
    assert lim.refill(0.0) <= lim.refill(u - t);
    if ip in tab {
      LevelGrowth(lim, tab[ip].bucket, t, u);
    }
  }

  /** An admission costs its own address one token and nobody else anything. */
  lemma AllowLevel(lim: Limits, tab: Table, who: string, seen: real, at: real, ip: string)
    ensures var (ok, tab') := AllowIP(lim, tab, who, seen, at);
            LevelAt(lim, tab', ip, at) == LevelAt(lim, tab, ip, at) - if ok && who == ip then 1.0 else 0.0
  {
    FreshIsFull(lim, at, at);
    if who == ip {
      var b := BucketFor(lim, tab, ip, at);
      assert lim.refill(0.0) == 0.0;
    }
  }

  /** What a window of `w` seconds can admit under `n` requests per minute. */
  function Allowance(n: nat, w: real): real {
    n as real + w * PerSecond(n)
  }

  lemma AllowanceIs(n: nat, w: real)
    ensures PerMinute(n).burst + PerMinute(n).refill(w) == Allowance(n, w)
  {
    var f: Flow := PerMinute(n);
    assert f == PerMinuteFlow(n);
    assert f.refill(w) == w * PerSecond(n);
  }

  lemma WindowBoundIP(lim: Limits, tab: Table, window: seq<Event>, ip: string, now: real, w: real)
    requires w >= 0.0 && Timed(now, window) && TableOk(tab) && SeenBy(tab, now) && Within(window, now + w)
    ensures AdmittedIP(lim, tab, window, ip) as real <= lim.burst + lim.refill(w)
  {
    var until := now + w;
    AdmittedIPBound(lim, tab, window, ip, now, until);
    LevelAtMost(lim, tab, ip, now);
    assert until - now == w;
  }

  /** Before authentication: in every window of `w` seconds, an address is admitted at most
      n + w * n / 60 times, evictions or not. */
  lemma IPWindowBound(n: nat, lim: Limits, tab: Table, window: seq<Event>, ip: string, now: real, w: real)
    requires lim == PerMinute(n)
    requires w >= 0.0 && Timed(now, window) && TableOk(tab) && SeenBy(tab, now) && Within(window, now + w)
    ensures AdmittedIP(lim, tab, window, ip) as real <= Allowance(n, w)
  {
    WindowBoundIP(lim, tab, window, ip, now, w);
    AllowanceIs(n, w);
  }

  // ---------------------------------------------------------------- and how much it cannot refuse

  /** A request is admitted exactly when a whole token is there for its address, and takes it. */
  lemma AllowIPIff(lim: Limits, tab: Table, ip: string, seen: real, at: real)
    ensures var (ok, tab') := AllowIP(lim, tab, ip, seen, at);
            && (ok <==> LevelAt(lim, tab, ip, at) >= 1.0)
            && LevelAt(lim, tab', ip, at) == LevelAt(lim, tab, ip, at) - (if ok then 1.0 else 0.0)
            && ip in tab' && tab'[ip].lastSeen == seen && tab' - {ip} == tab - {ip}
  {
    FreshIsFull(lim, at, at);
    AllowLevel(lim, tab, ip, seen, at, ip);
  }

  function Repeated(e: Event, k: nat): seq<Event> {
    if k == 0 then [] else [e] + Repeated(e, k - 1)
  }

  lemma {:induction false} BurstFromLevel(lim: Limits, tab: Table, ip: string, t: real, k: nat, level: nat)
    requires LevelAt(lim, tab, ip, t) == level as real
    ensures AdmittedIP(lim, tab, Repeated(Request(ip, t, t), k), ip) == if k < level then k else level
    decreases k
  {
    if k > 0 {
      AllowIPIff(lim, tab, ip, t, t);
      var (ok, tab') := AllowIP(lim, tab, ip, t, t);
      BurstFromLevel(lim, tab', ip, t, k - 1, if ok then level - 1 else level);
      assert Repeated(Request(ip, t, t), k)[1..] == Repeated(Request(ip, t, t), k - 1);
    }
  }

  /** An address that nobody has heard of is admitted n times at once, and no more often. */
  lemma BurstAdmits(n: nat, lim: Limits, ip: string, t: real, k: nat)
    requires lim == PerMinute(n)
    ensures AdmittedIP(lim, map[], Repeated(Request(ip, t, t), k), ip) == if k < n then k else n
  {
    assert lim == PerMinuteFlow(n);
    BurstFromLevel(lim, map[], ip, t, k, n);
  }

  function AfterEvent(lim: Limits, tab: Table, e: Event): Table {
    match e
    case Request(ip, seen, at) => AllowIP(lim, tab, ip, seen, at).1
    case Cleanup(now) => Sweep(tab, now - EVICT_AFTER)
  }

  function TableAfter(lim: Limits, tab: Table, events: seq<Event>): Table
    decreases |events|
  {
    if events == [] then tab else TableAfter(lim, AfterEvent(lim, tab, events[0]), events[1..])
  }

  function TimeAfter(now: real, events: seq<Event>): real
    decreases |events|
  {
    if events == [] then now else TimeAfter(Later(now, events[0]), events[1..])
  }

  function AdmittedNow(lim: Limits, tab: Table, e: Event, ip: string): nat {
    if e.Request? && e.ip == ip && AllowIP(lim, tab, ip, e.seen, e.at).0 then 1 else 0
  }

  /** One more event at the end. */
  lemma {:induction false} OneMoreEvent(lim: Limits, tab: Table, now: real, events: seq<Event>, e: Event, ip: string)
    ensures TableAfter(lim, tab, events + [e]) == AfterEvent(lim, TableAfter(lim, tab, events), e)
    ensures TimeAfter(now, events + [e]) == Later(TimeAfter(now, events), e)
    ensures AdmittedIP(lim, tab, events + [e], ip)
            == AdmittedIP(lim, tab, events, ip) + AdmittedNow(lim, TableAfter(lim, tab, events), e, ip)
    decreases |events|
  {
    if events == [] {
      assert events + [e] == [e] && [e][1..] == [];
    } else {
      assert (events + [e])[1..] == events[1..] + [e];
      OneMoreEvent(lim, AfterEvent(lim, tab, events[0]), Later(now, events[0]), events[1..], e, ip);
    }
  }

  lemma {:induction false} TimedFront(now: real, events: seq<Event>, e: Event)
    requires Timed(now, events + [e])
    ensures Timed(now, events) && now <= TimeAfter(now, events)
    ensures e.Request? ==> TimeAfter(now, events) <= e.seen <= e.at <= e.seen + MAX_CLOCK_GAP
    decreases |events|
  {
    if events == [] {
      assert (events + [e])[0] == e;
    } else {
      assert (events + [e])[0] == events[0] && (events + [e])[1..] == events[1..] + [e];
      TimedFront(Later(now, events[0]), events[1..], e);
    }
  }

  predicate LastBy(tab: Table, now: real) {
    forall ip :: ip in tab ==> tab[ip].bucket.last <= now
  }

  lemma {:induction false} TableStaysOk(lim: Limits, now: real, events: seq<Event>)
    requires Timed(now, events)
    ensures var tab, end := TableAfter(lim, map[], events), TimeAfter(now, events);
            TableOk(tab) && SeenBy(tab, end) && LastBy(tab, end)
    decreases |events|
  {
    if events != [] {
      var front, e := events[..|events| - 1], events[|events| - 1];
      assert events == front + [e];
      TimedFront(now, front, e);
      TableStaysOk(lim, now, front);
      OneMoreEvent(lim, map[], now, front, e, "");
      if e.Request? {
        AllowKeepsOk(lim, TableAfter(lim, map[], front), e.ip, e.seen, e.at);
      }
    }
  }

  lemma {:induction false} TableAfterSplits(lim: Limits, tab: Table, a: seq<Event>, b: seq<Event>)
    ensures TableAfter(lim, tab, a + b) == TableAfter(lim, TableAfter(lim, tab, a), b)
    decreases |a|
  {
    if a == [] {
      assert a + b == b;
    } else {
      assert (a + b)[1..] == a[1..] + b;
      TableAfterSplits(lim, AfterEvent(lim, tab, a[0]), a[1..], b);
    }
  }

  /** The tokens of a bucket grow by the refill of the time between, unless the bucket is full. */
  lemma FullOrGrown(lim: Limits, tab: Table, ip: string, t: real, u: real)
    requires t <= u && LastBy(tab, t)
    ensures LevelAt(lim, tab, ip, u) == lim.burst
            || LevelAt(lim, tab, ip, u) == LevelAt(lim, tab, ip, t) + lim.refill(u - t)
  {
    if ip in tab {
      var last := tab[ip].bucket.last;
      assert lim.refill(u - last) == lim.refill(t - last) + lim.refill(u - t);
      assert lim.refill(0.0) <= lim.refill(u - t);
    }
  }

  /** What an event does to the level at its own time: an admission costs a token. */
  lemma EventLevel(lim: Limits, tab: Table, e: Event, ip: string, now: real)
    requires TableOk(tab) && now <= Later(now, e)
    ensures LevelAt(lim, AfterEvent(lim, tab, e), ip, Later(now, e))
            == LevelAt(lim, tab, ip, Later(now, e)) - AdmittedNow(lim, tab, e, ip) as real
  {
    match e
    case Request(who, seen, at) => AllowLevel(lim, tab, who, seen, at, ip);
    case Cleanup(t) => SweepUnobservable(lim, tab, t, ip, Later(now, e));
  }

  /** The window `events[i..]` begins at `since`, when the bucket was full, and the bucket has not
      been capped since: what is not there any more was admitted in it. */
  ghost predicate FullSince(lim: Limits, start: real, events: seq<Event>, ip: string, i: nat, since: real)
    requires i <= |events|
  {
    var now := TimeAfter(start, events);
    && TimeAfter(start, events[..i]) <= since <= now
    && LevelAt(lim, TableAfter(lim, map[], events), ip, now)
       == lim.burst + lim.refill(now - since)
          - AdmittedIP(lim, TableAfter(lim, map[], events[..i]), events[i..], ip) as real
  }

  lemma WindowStarts(lim: Limits, start: real, front: seq<Event>, e: Event, ip: string)
    requires Timed(start, front + [e])
    requires LevelAt(lim, TableAfter(lim, map[], front), ip, TimeAfter(start, front + [e])) == lim.burst
    ensures FullSince(lim, start, front + [e], ip, |front|, TimeAfter(start, front + [e]))
  {
    var events, tab := front + [e], TableAfter(lim, map[], front);
    TimedFront(start, front, e);
    TableStaysOk(lim, start, front);
    OneMoreEvent(lim, map[], start, front, e, ip);
    EventLevel(lim, tab, e, ip, TimeAfter(start, front));
    assert events[..|front|] == front && events[|front|..] == [e];
    OneMoreEvent(lim, tab, start, [], e, ip);
    assert [] + [e] == [e];
    assert lim.refill(0.0) == 0.0;
  }

  /** A window of `front` counts one event more when it is a window of `front + [e]`. */
  lemma WindowCounts(lim: Limits, front: seq<Event>, e: Event, ip: string, i: nat)
    requires i <= |front|
    ensures (front + [e])[..i] == front[..i]
    ensures AdmittedIP(lim, TableAfter(lim, map[], front[..i]), (front + [e])[i..], ip)
            == AdmittedIP(lim, TableAfter(lim, map[], front[..i]), front[i..], ip)
               + AdmittedNow(lim, TableAfter(lim, map[], front), e, ip)
  {
    assert (front + [e])[i..] == front[i..] + [e] && front[..i] + front[i..] == front;
    TableAfterSplits(lim, map[], front[..i], front[i..]);
    OneMoreEvent(lim, TableAfter(lim, map[], front[..i]), 0.0, front[i..], e, ip);
  }

  lemma RefillsAdd(lim: Limits, since: real, now: real, later: real)
    requires since <= now <= later
    ensures lim.refill(later - since) == lim.refill(now - since) + lim.refill(later - now)
  {
  }

  /** One event later: the time has gone on, and an admission has cost a token. */
  lemma LaterLevel(lim: Limits, start: real, front: seq<Event>, e: Event, ip: string)
    requires Timed(start, front + [e])
    ensures Timed(start, front)
    ensures var tab, later := TableAfter(lim, map[], front), TimeAfter(start, front + [e]);
            && TimeAfter(start, front) <= later
            && LevelAt(lim, TableAfter(lim, map[], front + [e]), ip, later)
               == LevelAt(lim, tab, ip, later) - AdmittedNow(lim, tab, e, ip) as real
  {
    TimedFront(start, front, e);
    TableStaysOk(lim, start, front);
    OneMoreEvent(lim, map[], start, front, e, ip);
    EventLevel(lim, TableAfter(lim, map[], front), e, ip, TimeAfter(start, front));
  }

  lemma WindowGrows(lim: Limits, start: real, front: seq<Event>, e: Event, ip: string, i: nat, since: real)
    requires i <= |front| && FullSince(lim, start, front, ip, i, since)
    requires var tab, now, later := TableAfter(lim, map[], front), TimeAfter(start, front), TimeAfter(start, front + [e]);
             && now <= later
             && LevelAt(lim, tab, ip, later) == LevelAt(lim, tab, ip, now) + lim.refill(later - now)
             && LevelAt(lim, TableAfter(lim, map[], front + [e]), ip, later)
                == LevelAt(lim, tab, ip, later) - AdmittedNow(lim, tab, e, ip) as real
    ensures FullSince(lim, start, front + [e], ip, i, since)
  {
    WindowCounts(lim, front, e, ip, i);
    RefillsAdd(lim, since, TimeAfter(start, front), TimeAfter(start, front + [e]));
  }

  /** There is always such a window. */
  lemma {:induction false} LastFull(lim: Limits, start: real, events: seq<Event>, ip: string) returns (i: nat, since: real)
    requires Timed(start, events)
    ensures i <= |events| && FullSince(lim, start, events, ip, i, since)
    decreases |events|
  {
    if events == [] {
      i, since := 0, start;
      assert lim.refill(0.0) == 0.0;
    } else {
      var front, e := events[..|events| - 1], events[|events| - 1];
      assert events == front + [e];
      LaterLevel(lim, start, front, e, ip);
      TableStaysOk(lim, start, front);
      FullOrGrown(lim, TableAfter(lim, map[], front), ip, TimeAfter(start, front), TimeAfter(start, events));
      if LevelAt(lim, TableAfter(lim, map[], front), ip, TimeAfter(start, events)) == lim.burst {
        i, since := |front|, TimeAfter(start, events);
        WindowStarts(lim, start, front, e, ip);
      } else {
        i, since := LastFull(lim, start, front, ip);
        WindowGrows(lim, start, front, e, ip, i, since);
      }
    }
  }

  /** At the time of a request its bucket is full, or holds what it held and what flowed in. */
  lemma LevelAtRequest(lim: Limits, start: real, events: seq<Event>, ip: string, seen: real, at: real)
    requires Timed(start, events) && TimeAfter(start, events) <= seen <= at
    ensures var tab, now := TableAfter(lim, map[], events), TimeAfter(start, events);
            || LevelAt(lim, tab, ip, at) == lim.burst
            || LevelAt(lim, tab, ip, at) == LevelAt(lim, tab, ip, now) + lim.refill(at - now)
  {
    TableStaysOk(lim, start, events);
    FullOrGrown(lim, TableAfter(lim, map[], events), ip, TimeAfter(start, events), at);
  }

  lemma SoUsedUp(n: nat, lim: Limits, start: real, events: seq<Event>, ip: string, at: real, i: nat, since: real)
    requires lim == PerMinute(n) && i <= |events| && FullSince(lim, start, events, ip, i, since)
    requires var tab, now := TableAfter(lim, map[], events), TimeAfter(start, events);
             && now <= at && LevelAt(lim, tab, ip, at) < 1.0
             && LevelAt(lim, tab, ip, at) == LevelAt(lim, tab, ip, now) + lim.refill(at - now)
    ensures TimeAfter(start, events[..i]) <= since <= at
    ensures AdmittedIP(lim, TableAfter(lim, map[], events[..i]), events[i..], ip) as real > Allowance(n, at - since) - 1.0
  {
    AllowanceIs(n, at - since);
    RefillsAdd(lim, since, TimeAfter(start, events), at);
  }

  /** Without a burst nothing is ever admitted, and nothing allowed. */
  lemma NothingToUseUp(n: nat, lim: Limits, start: real, events: seq<Event>, ip: string, at: real)
    requires lim == PerMinute(n) && lim.burst < 1.0 && TimeAfter(start, events) <= at
    ensures TimeAfter(start, events[..|events|]) <= at
    ensures AdmittedIP(lim, TableAfter(lim, map[], events[..|events|]), events[|events|..], ip) as real
            > Allowance(n, at - at) - 1.0
  {
    NoBurst(n, lim);
    assert events[|events|..] == [] && events[..|events|] == events;
  }

  /** Before authentication, from the start of the server: an address is refused only if a window
      that ends with the refusal has used up its n + w * n / 60 to within one token. */
  lemma RefusedOnlyWhenUsedUp(n: nat, lim: Limits, start: real, events: seq<Event>, ip: string, seen: real, at: real)
    returns (i: nat, since: real)
    requires lim == PerMinute(n) && Timed(start, events) && TimeAfter(start, events) <= seen <= at
    requires !AllowIP(lim, TableAfter(lim, map[], events), ip, seen, at).0
    ensures i <= |events| && TimeAfter(start, events[..i]) <= since <= at
    ensures AdmittedIP(lim, TableAfter(lim, map[], events[..i]), events[i..], ip) as real > Allowance(n, at - since) - 1.0
  {
    LevelAtRequest(lim, start, events, ip, seen, at);
    AllowIPIff(lim, TableAfter(lim, map[], events), ip, seen, at);
    if lim.burst < 1.0 {
      i, since := |events|, at;
      NothingToUseUp(n, lim, start, events, ip, at);
    } else {
      i, since := LastFull(lim, start, events, ip);
      SoUsedUp(n, lim, start, events, ip, at, i, since);
    }
  }

  lemma NoBurst(n: nat, lim: Limits)
    requires lim == PerMinute(n) && lim.burst < 1.0
    ensures n == 0 && Allowance(n, 0.0) == 0.0
  {
    assert lim == PerMinuteFlow(n);
  }

  // ---------------------------------------------------------------- per-token and global limits

  datatype Limiters = Limiters(global: Bucket, perTok: map<string, Bucket>)

  function TokenBucket(lim: Limits, s: Limiters, token: string, t: real): Bucket {
    if token in s.perTok then s.perTok[token] else Fresh(lim, t)
  }

  function AskGlobal(glob: Limits, s: Limiters, t: real): (bool, Limiters) {
    (Admits(glob, s.global, t), s.(global := Take(glob, s.global, t)))
  }

  function AskOwn(own: Limits, s: Limiters, token: string, t: real): (bool, Limiters) {
    var b := TokenBucket(own, s, token, t);
    (Admits(own, b, t), s.(perTok := s.perTok[token := Take(own, b, t)]))
  }

  /** RateLimiter.Allow undisturbed: the global bucket is asked first and keeps the token it
      gave even when the token's own bucket, asked a little later, refuses. */
  function AllowToken(glob: Limits, own: Limits, s: Limiters, token: string, t: real, u: real): (bool, Limiters) {
    var (ok, s') := AskGlobal(glob, s, t);
    if !ok then (false, s') else AskOwn(own, s', token, u)
  }

  /** Requests run at once: between the two questions of one, others ask theirs. */
  datatype Ask = Global(request: nat, at: real) | Own(request: nat, token: string, at: real)

  predicate InOrder(now: real, asks: seq<Ask>)
    decreases |asks|
  {
    asks == [] || (now <= asks[0].at && InOrder(asks[0].at, asks[1..]))
  }

  /** How many requests passed both buckets, in all, and how often the token's own bucket gave;
      `granted` are the requests that have passed the global bucket only. */
  function Admitted(glob: Limits, own: Limits, s: Limiters, asks: seq<Ask>, granted: set<nat>, token: string): (nat, nat)
    decreases |asks|
  {
    if asks == [] then (0, 0)
    else
      match asks[0]
      case Global(r, t) =>
        var (ok, s') := AskGlobal(glob, s, t);
        Admitted(glob, own, s', asks[1..], if ok then granted + {r} else granted, token)
      case Own(r, who, t) =>
        var (ok, s') := AskOwn(own, s, who, t);
        var (all, mine) := Admitted(glob, own, s', asks[1..], granted - {r}, token);
        (all + if ok && r in granted then 1 else 0, mine + if ok && who == token then 1 else 0)
  }

  function TokenLevel(lim: Limits, s: Limiters, token: string, t: real): real {
    if token in s.perTok then Level(lim, s.perTok[token], t) else lim.burst
  }

  predicate LimitersOk(s: Limiters) {
    s.global.tokens >= 0.0 && forall token :: token in s.perTok ==> s.perTok[token].tokens >= 0.0
  }

  lemma AskGlobalLevels(glob: Limits, s: Limiters, t: real)
    requires LimitersOk(s)
    ensures var (ok, s') := AskGlobal(glob, s, t);
            && LimitersOk(s') && s'.perTok == s.perTok
            && Level(glob, s'.global, t) == Level(glob, s.global, t) - (if ok then 1.0 else 0.0)
  {
    assert glob.refill(0.0) == 0.0;
  }

  /** A grant costs its own token one and nobody else anything. */
  lemma AskOwnLevels(own: Limits, s: Limiters, who: string, t: real, token: string)
    requires LimitersOk(s)
    ensures var (ok, s') := AskOwn(own, s, who, t);
            && LimitersOk(s') && s'.global == s.global
            && TokenLevel(own, s', token, t) == TokenLevel(own, s, token, t) - (if ok && who == token then 1.0 else 0.0)
  {
    FreshIsFull(own, t, t);
    assert own.refill(0.0) == 0.0;
  }

  /** A tunnel request is allowed exactly when a whole token is there in the global bucket and in
      the token's own. Who finds one in the global bucket has taken it, even if refused by the
      other; who finds none there leaves both as they are. */
  lemma AllowTokenIff(glob: Limits, own: Limits, s: Limiters, token: string, t: real, u: real)
    ensures var (ok, s') := AllowToken(glob, own, s, token, t, u);
            var all, mine := Level(glob, s.global, t) >= 1.0, TokenLevel(own, s, token, u) >= 1.0;
            && (ok <==> all && mine)
            && Level(glob, s'.global, t) == Level(glob, s.global, t) - (if all then 1.0 else 0.0)
            && TokenLevel(own, s', token, u) == TokenLevel(own, s, token, u) - (if all && mine then 1.0 else 0.0)
            && s'.perTok - {token} == s.perTok - {token}
            && (!all ==> s' == s)
  {
    FreshIsFull(own, u, u);
    assert glob.refill(0.0) == 0.0 && own.refill(0.0) == 0.0;
  }

  /** What tunnel requests ask when each runs undisturbed; whoever gets nothing from the global
      bucket does not ask his own. */
  datatype Call = Call(token: string, t: real, u: real)

  function AsksOf(glob: Limits, own: Limits, s: Limiters, reqs: seq<Call>, next: nat): seq<Ask>
    decreases |reqs|
  {
    if reqs == [] then []
    else
      var Call(token, t, u) := reqs[0];
      var s' := AllowToken(glob, own, s, token, t, u).1;
      [Global(next, t)] + (if AskGlobal(glob, s, t).0 then [Own(next, token, u)] else [])
      + AsksOf(glob, own, s', reqs[1..], next + 1)
  }

  /** How many of them are allowed, of everybody and of one token. */
  function Allowed(glob: Limits, own: Limits, s: Limiters, reqs: seq<Call>, token: string): (nat, nat)
    decreases |reqs|
  {
    if reqs == [] then (0, 0)
    else
      var Call(who, t, u) := reqs[0];
      var (ok, s') := AllowToken(glob, own, s, who, t, u);
      var (all, mine) := Allowed(glob, own, s', reqs[1..], token);
      (all + if ok then 1 else 0, mine + if ok && who == token then 1 else 0)
  }

  /** For requests that do not interleave, the count over questions is the number of requests
      that RateLimiter.Allow lets through. */
  lemma {:induction false} AdmittedAreAllowed(glob: Limits, own: Limits, s: Limiters, reqs: seq<Call>, next: nat,
                                              granted: set<nat>, token: string)
    requires forall r :: r in granted ==> r < next
    ensures Admitted(glob, own, s, AsksOf(glob, own, s, reqs, next), granted, token)
            == Allowed(glob, own, s, reqs, token)
    decreases |reqs|
  {
    if reqs != [] {
      var Call(who, t, u) := reqs[0];
      var (ok, s') := AskGlobal(glob, s, t);
      var asks, rest := AsksOf(glob, own, s, reqs, next), AsksOf(glob, own, AllowToken(glob, own, s, who, t, u).1, reqs[1..], next + 1);
      if ok {
        assert asks[1..] == [Own(next, who, u)] + rest && asks[1..][1..] == rest;
        assert granted + {next} - {next} == granted;
      } else {
        assert asks[1..] == rest;
      }
      AdmittedAreAllowed(glob, own, AllowToken(glob, own, s, who, t, u).1, reqs[1..], next + 1, granted, token);
    }
  }

  lemma TokenLevelGrowth(lim: Limits, s: Limiters, token: string, t: real, u: real)
    requires t <= u
    ensures TokenLevel(lim, s, token, u) <= TokenLevel(lim, s, token, t) + lim.refill(u - t)
  {
    assert lim.refill(0.0) <= lim.refill(u - t);
    if token in s.perTok {
      LevelGrowth(lim, s.perTok[token], t, u);
    }
  }

  predicate Before(asks: seq<Ask>, until: real) {
    forall i :: 0 <= i < |asks| ==> asks[i].at <= until
  }

  lemma BeforeTail(asks: seq<Ask>, until: real)
    requires asks != [] && Before(asks, until)
    ensures Before(asks[1..], until)
  {
    assert forall i :: 0 <= i < |asks[1..]| ==> asks[1..][i] == asks[i + 1];
  }

  /** Who passes both buckets has spent a global token in the window, or had it before. */
  lemma {:induction false} AllBound(glob: Limits, own: Limits, s: Limiters, asks: seq<Ask>, granted: set<nat>,
                                    token: string, now: real, until: real)
    requires LimitersOk(s) && InOrder(now, asks) && Before(asks, until) && now <= until
    ensures Admitted(glob, own, s, asks, granted, token).0 as real
            <= |granted| as real + Level(glob, s.global, now) + glob.refill(until - now)
    decreases |asks|
  {
    if asks == [] {
      assert glob.refill(0.0) <= glob.refill(until - now);
      LevelNotNegative(glob, s.global, now);
    } else {
      BeforeTail(asks, until);
      var t := asks[0].at;
      match asks[0]
      case Global(r, _) =>
        var (ok, s') := AskGlobal(glob, s, t);
        AskGlobalLevels(glob, s, t);
        var granted' := if ok then granted + {r} else granted;
        AllBound(glob, own, s', asks[1..], granted', token, t, until);
        AllAdds(glob, s.global, now, t, until, |granted|, |granted'|, Level(glob, s'.global, t),
                Admitted(glob, own, s', asks[1..], granted', token).0);
      case Own(r, who, _) =>
        var (ok, s') := AskOwn(own, s, who, t);
        AskOwnLevels(own, s, who, t, token);
        AllBound(glob, own, s', asks[1..], granted - {r}, token, t, until);
        AllAdds(glob, s.global, now, t, until, |granted|, |granted - {r}| + if r in granted then 1 else 0,
                Level(glob, s'.global, t),
                Admitted(glob, own, s', asks[1..], granted - {r}, token).0 + if ok && r in granted then 1 else 0);
    }
  }

  /** One question: what it adds to the grants it takes from the level, and the time before it
      refills. */
  lemma AllAdds(glob: Limits, b: Bucket, now: real, t: real, until: real, held: nat, held': nat, level': real, more: nat)
    requires now <= t <= until && held' as real + level' <= held as real + Level(glob, b, t)
    requires more as real <= held' as real + level' + glob.refill(until - t)
    ensures more as real <= held as real + Level(glob, b, now) + glob.refill(until - now)
  {
    LevelGrowth(glob, b, now, t);
    assert glob.refill(t - now) + glob.refill(until - t) == glob.refill(until - now);
  }

  lemma {:induction false} MineBound(glob: Limits, own: Limits, s: Limiters, asks: seq<Ask>, granted: set<nat>,
                                     token: string, now: real, until: real)
    requires LimitersOk(s) && InOrder(now, asks) && Before(asks, until) && now <= until
    ensures Admitted(glob, own, s, asks, granted, token).1 as real
            <= TokenLevel(own, s, token, now) + own.refill(until - now)
    decreases |asks|
  {
    if asks == [] {
      assert own.refill(0.0) <= own.refill(until - now);
      if token in s.perTok {
        LevelNotNegative(own, s.perTok[token], now);
      }
    } else {
      BeforeTail(asks, until);
      var t := asks[0].at;
      TokenLevelGrowth(own, s, token, now, t);
      assert own.refill(t - now) + own.refill(until - t) == own.refill(until - now);
      match asks[0]
      case Global(r, _) =>
        var (ok, s') := AskGlobal(glob, s, t);
        AskGlobalLevels(glob, s, t);
        MineBound(glob, own, s', asks[1..], if ok then granted + {r} else granted, token, t, until);
      case Own(r, who, _) =>
        var (ok, s') := AskOwn(own, s, who, t);
        AskOwnLevels(own, s, who, t, token);
        MineBound(glob, own, s', asks[1..], granted - {r}, token, t, until);
    }
  }

  lemma WindowBoundToken(glob: Limits, own: Limits, s: Limiters, window: seq<Ask>, token: string, now: real, w: real)
    requires w >= 0.0 && LimitersOk(s) && InOrder(now, window) && Before(window, now + w)
    ensures var (all, mine) := Admitted(glob, own, s, window, {}, token);
            all as real <= glob.burst + glob.refill(w) && mine as real <= own.burst + own.refill(w)
  {
    var until := now + w;
    AllBound(glob, own, s, window, {}, token, now, until);
    MineBound(glob, own, s, window, {}, token, now, until);
    assert until - now == w;
  }

  /** In every window of `w` seconds, whatever happened before and however the requests
      interleave, at most b + w * b / 60 of a token pass its bucket and at most g + w * g / 60
      requests pass both. */
  lemma TokenWindowBound(g: nat, b: nat, glob: Limits, own: Limits, s: Limiters, window: seq<Ask>,
                         token: string, now: real, w: real)
    requires glob == PerMinute(g) && own == PerMinute(b)
    requires w >= 0.0 && LimitersOk(s) && InOrder(now, window) && Before(window, now + w)
    ensures var (all, mine) := Admitted(glob, own, s, window, {}, token);
            all as real <= Allowance(g, w) && mine as real <= Allowance(b, w)
  {
    WindowBoundToken(glob, own, s, window, token, now, w);
    AllowanceIs(g, w);
    AllowanceIs(b, w);
  }

  // ---------------------------------------------------------------- the limiters themselves

  class LimiterEntry {
    var bucket: Bucket
    var lastSeen: real

    constructor (bucket: Bucket)
      ensures this.bucket == bucket
    {
      this.bucket := bucket;
      lastSeen := bucket.last;
    }
  }

  /** The per-IP limiter that runs before authentication, and its cleanup. */
  class IPRateLimiter {
    var limiters: map<string, LimiterEntry>
    ghost var table: Table
    const lim: Limits

    ghost predicate Valid()
      reads this, limiters.Values
    {
      && table.Keys == limiters.Keys
      && (forall ip :: ip in limiters ==> table[ip] == Entry(limiters[ip].bucket, limiters[ip].lastSeen))
      && (forall a, b :: a in limiters && b in limiters && limiters[a] == limiters[b] ==> a == b)
    }

    constructor (connPerMin: nat)
      ensures Valid() && lim == PerMinute(connPerMin) && table == map[]
    {
      lim := PerMinute(connPerMin);
      limiters, table := map[], map[];
    }

    /** `seen` and `at` are the two clock reads. */
    method Allow(ip: string, seen: real, at: real) returns (allowed: bool)
      requires Valid()
      modifies this`limiters, this`table, limiters.Values
      ensures Valid()
      ensures (allowed, table) == AllowIP(lim, old(table), ip, seen, at)
    {
      var entry: LimiterEntry;
      if ip in limiters {
        entry := limiters[ip];
      } else {
        entry := new LimiterEntry(Fresh(lim, at));
        assert forall a :: a in limiters ==> limiters[a] in limiters.Values && limiters[a] != entry;
        limiters := limiters[ip := entry];
      }
      entry.lastSeen := seen;
      allowed := Admits(lim, entry.bucket, at);
      entry.bucket := Take(lim, entry.bucket, at);
      table := table[ip := Entry(entry.bucket, entry.lastSeen)];
    }

    /** One pass of the cleanup goroutine. */
    method Cleanup(now: real)
      requires Valid()
      modifies this`limiters, this`table
      ensures Valid()
      ensures table == Sweep(old(table), now - EVICT_AFTER)
      ensures forall ip :: ip in table <==> ip in old(table) && now - old(table)[ip].lastSeen <= 600.0
    {
      var cutoff := now - EVICT_AFTER;
      var ips := limiters.Keys;
      while ips != {}
        invariant ips <= limiters.Keys <= old(limiters.Keys)
        invariant forall ip :: ip in limiters ==> limiters[ip] == old(limiters)[ip]
        invariant forall ip :: ip in old(limiters) && ip !in ips ==>
                    (ip in limiters <==> old(table)[ip].lastSeen >= cutoff)
        invariant table == old(table)
        decreases ips
      {
        var ip :| ip in ips;
        ips := ips - {ip};
        if limiters[ip].lastSeen < cutoff {
          limiters := limiters - {ip};
        }
      }
      table := Sweep(table, cutoff);
    }
  }

  /** The limiter of tunnel requests. */
  class RateLimiter {
    const globalLimits: Limits
    const tokenLimits: Limits
    var global: Bucket
    var perTok: map<string, Bucket>

    constructor (perTokenPerMin: nat, globalPerMin: nat, now: real)
      ensures globalLimits == PerMinute(globalPerMin) && tokenLimits == PerMinute(perTokenPerMin)
      ensures global == Fresh(globalLimits, now) && perTok == map[]
    {
      globalLimits, tokenLimits := PerMinute(globalPerMin), PerMinute(perTokenPerMin);
      global, perTok := Fresh(PerMinute(globalPerMin), now), map[];
    }

    /** The clock is read by each of the two buckets. */
    method Allow(token: string, t: real, u: real) returns (allowed: bool)
      modifies this
      ensures (allowed, Limiters(global, perTok))
           == AllowToken(globalLimits, tokenLimits, Limiters(old(global), old(perTok)), token, t, u)
    {
      if !Admits(globalLimits, global, t) {
        return false;
      }
      global := Take(globalLimits, global, t);
      var lim := if token in perTok then perTok[token] else Fresh(tokenLimits, u);
      allowed := Admits(tokenLimits, lim, u);
      perTok := perTok[token := Take(tokenLimits, lim, u)];
    }
  }
}
