/**
 The request log: a ring of the last entries, copied out, turned round and filtered on
 every query. The history is what was added since the start.
 (internal/server/request_log.go, internal/dashboard/handler.go)
 */
module RequestLogs {
  import opened Names
  import opened Analytics

  const MAX_LOG_ENTRIES: nat := 10000

  // ---------------------------------------------------------------- the plain history

  /** The newest entries of a history, as many as the ring holds. */
  function Retained(history: seq<LogEntry>): seq<LogEntry> {
    if |history| <= MAX_LOG_ENTRIES then history else history[|history| - MAX_LOG_ENTRIES..]
  }

  function Reversed(s: seq<LogEntry>): (r: seq<LogEntry>)
    ensures |r| == |s| && forall i :: 0 <= i < |s| ==> r[i] == s[|s| - 1 - i]
  {
    seq(|s|, i requires 0 <= i < |s| => s[|s| - 1 - i])
  }

  /** The entries of one token; of everybody if it is empty. */
  function Filtered(s: seq<LogEntry>, token: string): seq<LogEntry> {
    if token == "" then s
    else if s == [] then []
    else
      var front := Filtered(s[..|s| - 1], token);
      if s[|s| - 1].token == token then front + [s[|s| - 1]] else front
  }

  /** What a query sees: the retained entries of the token, newest first. */
  function View(history: seq<LogEntry>, token: string): seq<LogEntry> {
    Filtered(Reversed(Retained(history)), token)
  }

  function Prefix(s: seq<LogEntry>, limit: int): seq<LogEntry> {
    if limit <= 0 || limit >= |s| then s else s[..limit]
  }

  /** Of more than 10000 entries the newest 10000 are retained, of fewer all. */
  lemma RetainedIs(history: seq<LogEntry>)
    ensures var kept := Retained(history);
            && |kept| == (if |history| < 10000 then |history| else 10000)
            && history[|history| - |kept|..] == kept
  {
  }

  /** A positive limit cuts a longer answer to its length; any other asks for everything. */
  lemma PrefixIs(s: seq<LogEntry>, limit: int)
    ensures Prefix(s, limit) <= s
    ensures |Prefix(s, limit)| == if limit > 0 && limit < |s| then limit else |s|
  {
  }

  lemma {:induction false} FilteredIs(s: seq<LogEntry>, token: string, e: LogEntry)
    requires token != ""
    ensures e in Filtered(s, token) <==> e in s && e.token == token
  {
    if s != [] {
      FilteredIs(s[..|s| - 1], token, e);
      assert s == s[..|s| - 1] + [s[|s| - 1]];
    }
  }

  /** Filtering keeps the order: it is a subsequence, with nothing of the token left out. */
  lemma {:induction false} FilteredSplits(a: seq<LogEntry>, b: seq<LogEntry>, token: string)
    ensures Filtered(a + b, token) == Filtered(a, token) + Filtered(b, token)
  {
    if b == [] {
      assert a + b == a;
    } else {
      var n := |b| - 1;
      assert (a + b)[..|a + b| - 1] == a + b[..n];
      FilteredSplits(a, b[..n], token);
    }
  }

  /** A newly added entry is what a query for its token sees first, and queries for other
      tokens see nothing of it; at the full ring the oldest entry makes room. */
  lemma ViewAfterAdd(history: seq<LogEntry>, e: LogEntry, token: string)
    ensures var kept := if |history| < MAX_LOG_ENTRIES then history
                        else history[|history| - MAX_LOG_ENTRIES + 1..];
            View(history + [e], token)
            == (if token == "" || e.token == token then [e] else []) + Filtered(Reversed(kept), token)
  {
    var kept := if |history| < MAX_LOG_ENTRIES then history else history[|history| - MAX_LOG_ENTRIES + 1..];
    assert Retained(history + [e]) == kept + [e];
    assert Reversed(kept + [e]) == [e] + Reversed(kept);
    FilteredSplits([e], Reversed(kept), token);
    assert [e][..0] == [];
  }

  /** A user's view under the masked spelling of the key: it goes through the filter, and
      holds every retained entry that was logged for the key. */
  lemma UserViewComplete(history: seq<LogEntry>, key: string, e: LogEntry)
    ensures MaskKey(key) != ""
    ensures e in Retained(history) && e.token == MaskToken(key) ==> e in View(history, MaskKey(key))
    ensures e in View(history, MaskKey(key)) ==> e in Retained(history) && e.token == MaskToken(key)
  {
    MaskSelects(key, key);
    var all := Retained(history);
    FilteredIs(Reversed(all), MaskKey(key), e);
    assert e in Reversed(all) <==> e in all by {
      forall i | 0 <= i < |all|
        ensures all[i] in Reversed(all)
      {
        assert Reversed(all)[|all| - 1 - i] == all[i];
      }
    }
  }

  // ---------------------------------------------------------------- the ring

  /** The buffer holds the retained entries: from the start while it fills, and once it has
      wrapped, the older part from `pos` on and the newer part before it. */
  ghost predicate IsRing(buf: seq<LogEntry>, pos: nat, full: bool, history: seq<LogEntry>) {
    && |buf| == MAX_LOG_ENTRIES && pos < MAX_LOG_ENTRIES
    && (!full ==> pos == |history| && buf[..pos] == history)
    && (full ==> |history| >= MAX_LOG_ENTRIES && buf[pos..] + buf[..pos] == Retained(history))
  }

  lemma RingStep(buf: seq<LogEntry>, pos: nat, full: bool, history: seq<LogEntry>, e: LogEntry)
    requires IsRing(buf, pos, full, history)
    ensures var wraps := pos + 1 == MAX_LOG_ENTRIES;
            IsRing(buf[pos := e], if wraps then 0 else pos + 1, full || wraps, history + [e])
  {
    if full {
      WrapStep(buf, pos, history, e, buf[pos := e]);
      Turned(buf[pos := e]);
    } else {
      FillStep(buf, pos, history, e, buf[pos := e]);
    }
  }

  lemma Turned(buf: seq<LogEntry>)
    ensures buf[|buf|..] + buf[..|buf|] == buf[0..] + buf[..0] == buf
  {
  }

  lemma FillStep(before: seq<LogEntry>, pos: nat, history: seq<LogEntry>, e: LogEntry, after: seq<LogEntry>)
    requires |before| == MAX_LOG_ENTRIES && pos < MAX_LOG_ENTRIES
    requires pos == |history| && before[..pos] == history && after == before[pos := e]
    ensures after[..pos + 1] == history + [e]
    ensures pos + 1 == MAX_LOG_ENTRIES ==> after[0..] + after[..0] == Retained(history + [e])
  {
    assert after[..pos + 1] == before[..pos] + [e];
    Turned(after);
  }

  class RequestLog {
    const entries: array<LogEntry>
    var pos: nat
    var full: bool
    ghost var history: seq<LogEntry>

    ghost predicate Valid()
      reads this, entries
    {
      entries.Length == MAX_LOG_ENTRIES && IsRing(entries[..], pos, full, history)
    }

    constructor ()
      ensures Valid() && history == [] && fresh(entries)
    {
      entries := new LogEntry[MAX_LOG_ENTRIES](_ => LogEntry(0, "", "", "", "", "", 0, 0, 0));
      pos, full, history := 0, false, [];
    }

    method Add(e: LogEntry)
      requires Valid()
      modifies this, entries
      ensures Valid() && history == old(history) + [e]
    {
      ghost var before := entries[..];
      entries[pos] := e;
      pos := pos + 1;
      if pos >= MAX_LOG_ENTRIES {
        pos := 0;
        full := true;
      }
      RingStep(before, old(pos), old(full), history, e);
      assert entries[..] == before[old(pos) := e];
      history := history + [e];
    }

    /** Copies the ring in the order of the entries' age, oldest first. */
    method CopyOut() returns (raw: array<LogEntry>)
      requires Valid()
      ensures fresh(raw) && raw[..] == Retained(history)
    {
      var size := if full then MAX_LOG_ENTRIES else pos;
      raw := new LogEntry[size](_ => LogEntry(0, "", "", "", "", "", 0, 0, 0));
      if full {
        // The part from `pos` on survived the longest.
        var n := Copy(raw, 0, entries, pos, MAX_LOG_ENTRIES);
        n := Copy(raw, MAX_LOG_ENTRIES - pos, entries, 0, pos);
        assert raw[..] == raw[..MAX_LOG_ENTRIES - pos] + raw[MAX_LOG_ENTRIES - pos..];
      } else {
        var n := Copy(raw, 0, entries, 0, pos);
        assert raw[..] == raw[0..size];
      }
    }

    /** All retained entries newest first, or those of one token. */
    method Snapshot(token: string) returns (out: seq<LogEntry>)
      requires Valid()
      ensures out == View(history, token)
    {
      var raw := CopyOut();
      ReverseInPlace(raw);
      assert raw[..] == Reversed(Retained(history));
      if token == "" {
        return raw[..];
      }
      out := [];
      for i := 0 to raw.Length
        invariant out == Filtered(raw[..i], token)
      {
        assert raw[..i + 1][..i] == raw[..i];
        if raw[i].token == token {
          out := out + [raw[i]];
        }
      }
      assert raw[..raw.Length] == raw[..];
    }

    method Recent(limit: int, token: string) returns (out: seq<LogEntry>)
      requires Valid()
      ensures out == Prefix(View(history, token), limit)
    {
      var all := Snapshot(token);
      if limit <= 0 || limit >= |all| {
        return all;
      }
      return all[..limit];
    }

    /** The buckets of the entries a query for `token` sees. */
    method Traffic(minutes: int, token: string, now: int) returns (result: seq<TrafficBucket>)
      requires Valid()
      ensures var m := if minutes <= 0 then 30 else minutes;
              && |result| == m
              && SumRequests(result) == CountYounger(View(history, token), now, m)
              && SumBytes(result) == BytesYounger(View(history, token), now, m)
              && forall i :: 0 <= i < m ==>
                   && result[i] == Shown(TallyOf(View(history, token), now, m, m - 1 - i), now, m - 1 - i)
                   && Reports(result[i], View(history, token), now, m - 1 - i)
    {
      var all := Snapshot(token);
      result := TrafficStats(all, minutes, now);
      TrafficConserved(all, now, |result|, result);
    }
  }

  /** One more entry at a full ring: the oldest is overwritten. */
  lemma WrapStep(before: seq<LogEntry>, pos: nat, history: seq<LogEntry>, e: LogEntry, after: seq<LogEntry>)
    requires |before| == MAX_LOG_ENTRIES && pos < MAX_LOG_ENTRIES && |history| >= MAX_LOG_ENTRIES
    requires before[pos..] + before[..pos] == Retained(history)
    requires after == before[pos := e]
    ensures after[pos + 1..] + after[..pos + 1] == Retained(history + [e])
  {
    assert Retained(history + [e]) == Retained(history)[1..] + [e];
    assert (before[pos..] + before[..pos])[1..] == before[pos + 1..] + before[..pos];
    assert after[..pos + 1] == before[..pos] + [e];
    assert after[pos + 1..] == before[pos + 1..];
  }

  /** copy(dst[at:], src[lo:hi]) */
  method Copy(dst: array<LogEntry>, at: nat, src: array<LogEntry>, lo: nat, hi: nat) returns (n: nat)
    requires lo <= hi <= src.Length && at + (hi - lo) <= dst.Length && dst != src
    modifies dst
    ensures n == hi - lo
    ensures dst[at..at + n] == src[lo..hi]
    ensures dst[..at] == old(dst[..at]) && dst[at + n..] == old(dst[at + n..])
  {
    n := 0;
    while lo + n < hi
      invariant 0 <= n <= hi - lo
      invariant forall k :: at <= k < at + n ==> dst[k] == src[lo + (k - at)]
      invariant forall k :: 0 <= k < dst.Length && (k < at || k >= at + n) ==> dst[k] == old(dst[k])
    {
      dst[at + n] := src[lo + n];
      n := n + 1;
    }
  }

  method ReverseInPlace(raw: array<LogEntry>)
    modifies raw
    ensures raw[..] == Reversed(old(raw[..]))
  {
    var i, j := 0, raw.Length - 1;
    while i < j
      invariant 0 <= i <= j + 1 <= raw.Length && i + j == raw.Length - 1
      invariant forall k :: 0 <= k < i || j < k < raw.Length ==> raw[k] == old(raw[raw.Length - 1 - k])
      invariant forall k :: i <= k <= j ==> raw[k] == old(raw[k])
    {
      raw[i], raw[j] := raw[j], raw[i];
      i, j := i + 1, j - 1;
    }
  }
}
