/**
 The client's two loops: reading heartbeat events until the connection is given up, and
 reconnecting with exponential backoff while remembering the tunnel's name. What the server
 and the network do arrives as a sequence of events.
 (internal/client/reconnect.go)
 */
module Reconnect {
  import opened Wrappers
  import opened Names
  import opened Heartbeat

  // ---------------------------------------------------------------- the heartbeat loop

  datatype Event = Cancel | AckArrives | OtherMessage | ReadFails | Tick(sent: bool)

  datatype End = Cancelled | ReadError | SendError | Dead

  /** The miss counter after the first `n` events. */
  function Misses(events: seq<Event>, n: nat): nat
    requires n <= |events|
  {
    if n == 0 then 0
    else
      match events[n - 1]
      case AckArrives => 0
      case Tick(_) => Misses(events, n - 1) + 1
      case _ => Misses(events, n - 1)
  }

  function Ticks(events: seq<Event>): nat {
    if events == [] then 0
    else Ticks(events[..|events| - 1]) + if events[|events| - 1].Tick? then 1 else 0
  }

  /** It is the number of ticks since the last acknowledgement. */
  lemma {:induction false} MissesSinceAck(events: seq<Event>, n: nat) returns (start: nat)
    requires n <= |events|
    ensures start <= n && (start == 0 || events[start - 1] == AckArrives)
    ensures AckArrives !in events[start..n] && Misses(events, n) == Ticks(events[start..n])
  {
    if n == 0 || events[n - 1] == AckArrives {
      start := n;
    } else {
      start := MissesSinceAck(events, n - 1);
      assert events[start..n][..n - start - 1] == events[start..n - 1];
      assert events[start..n] == events[start..n - 1] + [events[n - 1]];
    }
  }

  /** Whether the n-th event ends the loop, and how. */
  function Ending(events: seq<Event>, n: nat): Option<End>
    requires 0 < n <= |events|
  {
    match events[n - 1]
    case Cancel => Some(Cancelled)
    case ReadFails => Some(ReadError)
    case Tick(false) => Some(SendError)
    case Tick(true) => if Misses(events, n) >= MAX_HEARTBEAT_MISSES then Some(Dead) else None
    case _ => None
  }

  /** An event ends the loop if it cancels it, if the stream or a heartbeat fails, or if it is a
      tick and at least the third since the last acknowledgement; with that reason. */
  lemma EndsIff(events: seq<Event>, n: nat) returns (start: nat)
    requires 0 < n <= |events|
    ensures start <= n && (start == 0 || events[start - 1] == AckArrives) && AckArrives !in events[start..n]
    ensures var e, end := events[n - 1], Ending(events, n);
            && (end == Some(Cancelled) <==> e == Cancel)
            && (end == Some(ReadError) <==> e == ReadFails)
            && (end == Some(SendError) <==> e == Tick(false))
            && (end == Some(Dead) <==> e == Tick(true) && Ticks(events[start..n]) >= 3)
  {
    start := MissesSinceAck(events, n);
  }

  /** The loop stops at the first event that ends it, and only there: the connection is
      declared dead exactly at the third tick since the last acknowledgement. */
  method RunHeartbeat(events: seq<Event>) returns (end: Option<End>, handled: nat)
    ensures handled <= |events|
    ensures forall i :: 0 < i < handled ==> Ending(events, i).None?
    ensures end.None? ==> handled == |events| && (handled > 0 ==> Ending(events, handled).None?)
    ensures end.Some? ==> handled > 0 && Ending(events, handled) == end
  {
    var misses := 0;
    handled := 0;
    while handled < |events|
      invariant handled <= |events|
      invariant misses == Misses(events, handled)
      invariant forall k :: 0 < k <= handled ==> Ending(events, k).None?
    {
      var e := events[handled];
      handled := handled + 1;
      match e
      case Cancel => return Some(Cancelled), handled;
      case ReadFails => return Some(ReadError), handled;
      case AckArrives => misses := 0;
      case OtherMessage =>
      case Tick(sent) =>
        if !sent {
          return Some(SendError), handled;
        }
        misses := misses + 1;
        if misses >= MAX_HEARTBEAT_MISSES {
          return Some(Dead), handled;
        }
    }
    return None, handled;
  }

  // ---------------------------------------------------------------- the reconnect loop

  const BASE_BACKOFF := 1
  const MAX_BACKOFF := 60

  /** How one turn of the loop goes; a tunnel that was served has ended again. */
  datatype Outcome = ConnectFails | RequestFails | Served(url: string)

  /** And whether the loop was cancelled while it waited or served. */
  datatype Attempt = Attempt(outcome: Outcome, cancelled: bool)

  /** How many attempts in a row have failed at the end. */
  function Failures(attempts: seq<Attempt>): nat {
    if attempts == [] || attempts[|attempts| - 1].outcome.Served? then 0
    else Failures(attempts[..|attempts| - 1]) + 1
  }

  /** The name of the last tunnel that was served. */
  function Remembered(initial: string, attempts: seq<Attempt>): string {
    if attempts == [] then initial
    else NameAfter(Remembered(initial, attempts[..|attempts| - 1]), attempts[|attempts| - 1].outcome)
  }

  function NameAfter(name: string, outcome: Outcome): string {
    if outcome.Served? && outcome.url != "" then FirstLabel(StripScheme(outcome.url)) else name
  }

  function Power2(n: nat): nat {
    if n == 0 then 1 else 2 * Power2(n - 1)
  }

  lemma {:induction false} Power2Large(n: nat)
    ensures Power2(n) >= 1
    ensures n >= 6 ==> Power2(n) >= 64
  {
    if n > 0 {
      Power2Large(n - 1);
      if n == 6 {
        assert Power2(6) == 2 * Power2(5) == 4 * Power2(4) == 8 * Power2(3) == 16 * Power2(2) == 32 * Power2(1);
      }
    }
  }

  /** Seconds to wait after a failed attempt that `n` failures came before. */
  function Backoff(n: nat): nat {
    if Power2(n) < MAX_BACKOFF then Power2(n) else MAX_BACKOFF
  }

  lemma BackoffDoubles(n: nat)
    ensures Backoff(0) == BASE_BACKOFF == 1
    ensures Backoff(n + 1) == if 2 * Backoff(n) < 60 then 2 * Backoff(n) else 60
    ensures 1 <= Backoff(n) <= 60 && (n >= 6 ==> Backoff(n) == 60)
  {
    Power2Large(n);
  }

  /** What the loop does about an attempt that `failures` failures came before: how long it
      waits, and which name it asks for if it gets to ask. */
  predicate IsTurn(name: string, failures: nat, outcome: Outcome, wait: nat, asked: Option<string>) {
    && wait == (if outcome.Served? then 0 else Backoff(failures))
    && asked == if outcome.ConnectFails? then None else Some(name)
  }

  predicate Turn(initial: string, attempts: seq<Attempt>, k: nat, wait: nat, asked: Option<string>)
    requires k < |attempts|
  {
    IsTurn(Remembered(initial, attempts[..k]), Failures(attempts[..k]), attempts[k].outcome, wait, asked)
  }

  /** The remembered name is the first label of the last URL that was received, else the one the
      client started with. */
  lemma RememberedIs(initial: string, attempts: seq<Attempt>, a: Attempt)
    ensures Remembered(initial, []) == initial
    ensures var name := Remembered(initial, attempts + [a]);
            if a.outcome.Served? && a.outcome.url != "" then
              var s := if |a.outcome.url| > 8 then a.outcome.url[8..] else a.outcome.url;
              name <= s && '.' !in name && (|name| < |s| ==> s[|name|] == '.')
            else name == Remembered(initial, attempts)
  {
    assert (attempts + [a])[..|attempts|] == attempts;
    if a.outcome.Served? {
      FirstLabelEnds(StripScheme(a.outcome.url));
    }
  }

  lemma OneAttempt(initial: string, attempts: seq<Attempt>, k: nat)
    requires k < |attempts|
    ensures Failures(attempts[..k + 1]) == if attempts[k].outcome.Served? then 0 else Failures(attempts[..k]) + 1
    ensures Remembered(initial, attempts[..k + 1]) == NameAfter(Remembered(initial, attempts[..k]), attempts[k].outcome)
  {
    assert attempts[..k + 1][..k] == attempts[..k];
  }

  class Reconnector {
    var subdomain: string

    constructor (subdomain: string)
      ensures this.subdomain == subdomain
    {
      this.subdomain := subdomain;
    }

    /** One turn of the loop: `next` is the wait after the next failure. */
    method TakeTurn(outcome: Outcome, backoff: nat, ghost failures: nat)
      returns (wait: nat, asked: Option<string>, next: nat)
      requires backoff == Backoff(failures)
      modifies this
      ensures IsTurn(old(subdomain), failures, outcome, wait, asked)
      ensures subdomain == NameAfter(old(subdomain), outcome)
      ensures next == if outcome.Served? then Backoff(0) else Backoff(failures + 1)
    {
      BackoffDoubles(failures);
      match outcome
      case ConnectFails => return backoff, None, MinDuration(backoff * 2, MAX_BACKOFF);
      case RequestFails => return backoff, Some(subdomain), MinDuration(backoff * 2, MAX_BACKOFF);
      case Served(url) =>
        wait, asked, next := 0, Some(subdomain), BASE_BACKOFF;
        if url != "" {
          subdomain := ExtractSubdomainFromURL(url);
        }
    }

    /** For an HTTP tunnel: how long it waits after each attempt, which name each request asks
        for, and which name it remembers in the end. The loop ends when it is cancelled, at
        once or at the first attempt during which that happens. */
    method Run(attempts: seq<Attempt>, cancelled: bool) returns (waits: seq<nat>, asked: seq<Option<string>>)
      modifies this
      ensures |waits| == |asked| <= |attempts|
      ensures cancelled ==> waits == []
      ensures forall k :: 0 <= k < |waits| - 1 ==> !attempts[k].cancelled
      ensures |waits| < |attempts| ==> cancelled || (waits != [] && attempts[|waits| - 1].cancelled)
      ensures forall k :: 0 <= k < |waits| ==>
                && waits[k] == (if attempts[k].outcome.Served? then 0 else Backoff(Failures(attempts[..k])))
                && asked[k] == (if attempts[k].outcome.ConnectFails? then None
                                else Some(Remembered(old(subdomain), attempts[..k])))
      ensures subdomain == Remembered(old(subdomain), attempts[..|waits|])
    {
      waits, asked := [], [];
      if cancelled {
        return;
      }
      var backoff := BASE_BACKOFF;
      while |waits| < |attempts|
        invariant |waits| == |asked| <= |attempts|
        invariant forall k :: 0 <= k < |waits| ==> !attempts[k].cancelled
        invariant backoff == Backoff(Failures(attempts[..|waits|]))
        invariant subdomain == Remembered(old(subdomain), attempts[..|waits|])
        invariant forall k :: 0 <= k < |waits| ==> Turn(old(subdomain), attempts, k, waits[k], asked[k])
      {
        var i := |waits|;
        OneAttempt(old(subdomain), attempts, i);
        var wait, ask;
        wait, ask, backoff := TakeTurn(attempts[i].outcome, backoff, Failures(attempts[..i]));
        waits, asked := waits + [wait], asked + [ask];
        if attempts[i].cancelled {
          return;
        }
      }
    }
  }

  function MinDuration(a: nat, b: nat): nat {
    if a < b then a else b
  }

  /** After a tunnel was served, however many attempts fail, the client keeps asking for the
      very name that was registered. */
  lemma {:induction false} KeepsAskingForName(initial: string, before: seq<Attempt>, sub: string, domain: string,
                                              failed: seq<Attempt>)
    requires ValidSubdomain(sub) && forall a :: a in failed ==> !a.outcome.Served?
    ensures Remembered(initial, before + [Attempt(Served(TunnelURL(sub, domain)), false)] + failed) == sub
  {
    var served := Attempt(Served(TunnelURL(sub, domain)), false);
    var all := before + [served] + failed;
    if failed == [] {
      assert all[|all| - 1] == served;
      ClientRemembersName(sub, domain);
    } else {
      var shorter := failed[..|failed| - 1];
      assert all[..|all| - 1] == before + [served] + shorter;
      KeepsAskingForName(initial, before, sub, domain, shorter);
      assert all[|all| - 1] == failed[|failed| - 1];
    }
  }
}
