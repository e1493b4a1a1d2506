/**
 What the dashboard computes from a snapshot of the request log: per-minute traffic and
 the most requested paths. Instants and durations are whole nanoseconds.
 (internal/server/request_log.go)
 */
module Analytics {
  datatype LogEntry = LogEntry(
    timestamp: int,
    tunnelID: string,
    subdomain: string,
    token: string,
    verb: string,
    path: string,
    status: int,
    durationMs: int,
    size: int)

  const MINUTE := 60_000_000_000

  // ---------------------------------------------------------------- traffic per minute

  datatype Tally = Tally(reqs: nat, bytes: int, s2xx: nat, s3xx: nat, s4xx: nat, s5xx: nat, totalMs: int)

  const EMPTY := Tally(0, 0, 0, 0, 0, 0, 0)

  /** One more request in a bucket; whatever is below 300 counts as 2xx. */
  function Tallied(t: Tally, e: LogEntry): Tally {
    var u := t.(reqs := t.reqs + 1, bytes := t.bytes + e.size, totalMs := t.totalMs + e.durationMs);
    if e.status >= 500 then u.(s5xx := t.s5xx + 1)
    else if e.status >= 400 then u.(s4xx := t.s4xx + 1)
    else if e.status >= 300 then u.(s3xx := t.s3xx + 1)
    else u.(s2xx := t.s2xx + 1)
  }

  /** Conversion to int truncates toward zero, and negative ages are set to zero. */
  function MinuteIndex(e: LogEntry, now: int): nat {
    if e.timestamp > now then 0 else (now - e.timestamp) / MINUTE
  }

  /** The two `continue`s of the loop let an entry through. */
  predicate Counted(e: LogEntry, now: int, minutes: nat) {
    !(e.timestamp < now - minutes * MINUTE) && MinuteIndex(e, now) < minutes
  }

  /** That is: it is younger than the window, to the nanosecond. */
  lemma CountedIffYounger(e: LogEntry, now: int, minutes: nat)
    requires minutes > 0
    ensures Counted(e, now, minutes) <==> now - e.timestamp < minutes * MINUTE
  {
  }

  /** The tally of one bucket. */
  function TallyOf(all: seq<LogEntry>, now: int, minutes: nat, idx: nat): Tally {
    if all == [] then EMPTY
    else
      var before := TallyOf(all[..|all| - 1], now, minutes, idx);
      var e := all[|all| - 1];
      if Counted(e, now, minutes) && MinuteIndex(e, now) == idx then Tallied(before, e) else before
  }

  function GoDiv(a: int, b: int): int
    requires b > 0
  {
    if a >= 0 then a / b else -(-a / b)
  }

  datatype TrafficBucket = TrafficBucket(
    timestamp: int,
    requests: nat,
    bytesOut: int,
    s2xx: nat,
    s3xx: nat,
    s4xx: nat,
    s5xx: nat,
    avgLatency: int)

  /** The bucket that is shown for a tally; `back` counts minutes into the past. */
  function Shown(t: Tally, now: int, back: nat): TrafficBucket {
    var at := now - back * MINUTE;
    TrafficBucket(at - at % MINUTE, t.reqs, t.bytes, t.s2xx, t.s3xx, t.s4xx, t.s5xx,
                  if t.reqs > 0 then GoDiv(t.totalMs, t.reqs) else 0)
  }

  // ---------------------------------------------------------------- what a bucket says

  /** The entry is at least `back` and less than `back + 1` minutes old; entries from the
      future belong to the current minute. */
  predicate InMinute(e: LogEntry, now: int, back: nat) {
    && (back > 0 ==> now - e.timestamp >= back * 60_000_000_000)
    && now - e.timestamp < (back + 1) * 60_000_000_000
  }

  function Class(status: int): int {
    if status < 300 then 2 else if status >= 500 then 5 else status / 100
  }

  /** The entries of a minute, by their places, and those of them in one class. */
  ghost function Places(all: seq<LogEntry>, now: int, back: nat): set<nat> {
    set k: nat | k < |all| && InMinute(all[k], now, back)
  }

  ghost function OfClass(all: seq<LogEntry>, now: int, back: nat, group: int): set<nat> {
    set k: nat | k < |all| && InMinute(all[k], now, back) && Class(all[k].status) == group
  }

  function BytesIn(all: seq<LogEntry>, now: int, back: nat): int {
    if all == [] then 0
    else BytesIn(all[..|all| - 1], now, back) + if InMinute(all[|all| - 1], now, back) then all[|all| - 1].size else 0
  }

  function MillisIn(all: seq<LogEntry>, now: int, back: nat): int {
    if all == [] then 0
    else
      MillisIn(all[..|all| - 1], now, back)
      + if InMinute(all[|all| - 1], now, back) then all[|all| - 1].durationMs else 0
  }

  /** `mean` is the sum divided by the number, rounded toward zero. */
  predicate IsMean(mean: int, sum: int, n: nat) {
    if n == 0 then mean == 0
    else if sum >= 0 then mean * n <= sum < (mean + 1) * n
    else (mean - 1) * n < sum <= mean * n
  }

  /** The bucket of the minute that was `back` minutes ago: it is dated with the beginning of a
      minute, counts the entries of that age, all of them and by class, and shows their bytes
      and their mean latency. */
  ghost predicate Reports(b: TrafficBucket, all: seq<LogEntry>, now: int, back: nat) {
    && b.timestamp % 60_000_000_000 == 0
    && b.timestamp <= now - back * 60_000_000_000 < b.timestamp + 60_000_000_000
    && b.requests == |Places(all, now, back)|
    && b.s2xx == |OfClass(all, now, back, 2)| && b.s3xx == |OfClass(all, now, back, 3)|
    && b.s4xx == |OfClass(all, now, back, 4)| && b.s5xx == |OfClass(all, now, back, 5)|
    && b.bytesOut == BytesIn(all, now, back)
    && IsMean(b.avgLatency, MillisIn(all, now, back), b.requests)
  }

  lemma MinuteIs(e: LogEntry, now: int, minutes: nat, back: nat)
    requires back < minutes
    ensures Counted(e, now, minutes) && MinuteIndex(e, now) == back <==> InMinute(e, now, back)
  {
    if e.timestamp <= now {
      var age := now - e.timestamp;
      assert age == age / MINUTE * MINUTE + age % MINUTE;
      WholeMinutes(age, age / MINUTE, back);
    }
  }

  lemma WholeMinutes(age: int, q: int, back: nat)
    requires 0 <= age - q * MINUTE < MINUTE
    ensures q == back <==> back * MINUTE <= age < (back + 1) * MINUTE
  {
    if q < back {
      assert q * MINUTE + MINUTE <= back * MINUTE;
    } else if q > back {
      assert (back + 1) * MINUTE <= q * MINUTE;
    }
  }

  lemma OnePlaceMore(all: seq<LogEntry>, now: int, back: nat)
    requires all != []
    ensures |Places(all, now, back)|
            == |Places(all[..|all| - 1], now, back)| + if InMinute(all[|all| - 1], now, back) then 1 else 0
  {
    var front, n := all[..|all| - 1], |all| - 1;
    assert forall k :: 0 <= k < n ==> front[k] == all[k];
    assert Places(all, now, back) == Places(front, now, back) + if InMinute(all[n], now, back) then {n} else {};
  }

  lemma OneOfClassMore(all: seq<LogEntry>, now: int, back: nat, group: int)
    requires all != []
    ensures var e := all[|all| - 1];
            |OfClass(all, now, back, group)|
            == |OfClass(all[..|all| - 1], now, back, group)|
               + if InMinute(e, now, back) && Class(e.status) == group then 1 else 0
  {
    var front, n := all[..|all| - 1], |all| - 1;
    assert forall k :: 0 <= k < n ==> front[k] == all[k];
    assert OfClass(all, now, back, group)
        == OfClass(front, now, back, group)
           + if InMinute(all[n], now, back) && Class(all[n].status) == group then {n} else {};
  }

  lemma {:induction false} TallyCounts(all: seq<LogEntry>, now: int, minutes: nat, back: nat)
    requires back < minutes
    ensures var t := TallyOf(all, now, minutes, back);
            && t.reqs == |Places(all, now, back)|
            && t.s2xx == |OfClass(all, now, back, 2)| && t.s3xx == |OfClass(all, now, back, 3)|
            && t.s4xx == |OfClass(all, now, back, 4)| && t.s5xx == |OfClass(all, now, back, 5)|
            && t.bytes == BytesIn(all, now, back) && t.totalMs == MillisIn(all, now, back)
  {
    if all != [] {
      TallyCounts(all[..|all| - 1], now, minutes, back);
      MinuteIs(all[|all| - 1], now, minutes, back);
      OnePlaceMore(all, now, back);
      OneOfClassMore(all, now, back, 2);
      OneOfClassMore(all, now, back, 3);
      OneOfClassMore(all, now, back, 4);
      OneOfClassMore(all, now, back, 5);
    }
  }

  lemma GoDivIsMean(sum: int, n: nat)
    requires n > 0
    ensures IsMean(GoDiv(sum, n), sum, n)
  {
    var m := if sum >= 0 then sum else -sum;
    assert m == m / n * n + m % n;
    assert (m / n + 1) * n == m / n * n + n;
    if sum < 0 {
      assert (-(m / n)) * n == -(m / n * n);
      assert (-(m / n) - 1) * n == -(m / n * n) - n;
    }
  }

  lemma ShownReports(all: seq<LogEntry>, now: int, minutes: nat, back: nat)
    requires back < minutes
    ensures Reports(Shown(TallyOf(all, now, minutes, back), now, back), all, now, back)
  {
    TallyCounts(all, now, minutes, back);
    var t, at := TallyOf(all, now, minutes, back), now - back * MINUTE;
    StartOfMinute(at);
    if t.reqs > 0 {
      GoDivIsMean(t.totalMs, t.reqs);
    }
  }

  lemma AllReport(all: seq<LogEntry>, now: int, minutes: nat, result: seq<TrafficBucket>)
    requires |result| == minutes
    requires forall i :: 0 <= i < minutes ==>
               result[i] == Shown(TallyOf(all, now, minutes, minutes - 1 - i), now, minutes - 1 - i)
    ensures forall i :: 0 <= i < minutes ==> Reports(result[i], all, now, minutes - 1 - i)
  {
    forall i | 0 <= i < minutes
      ensures Reports(result[i], all, now, minutes - 1 - i)
    {
      ShownReports(all, now, minutes, minutes - 1 - i);
    }
  }

  lemma StartOfMinute(at: int)
    ensures (at - at % MINUTE) % MINUTE == 0 && at - at % MINUTE <= at < at - at % MINUTE + MINUTE
  {
    assert at - at % MINUTE == at / MINUTE * MINUTE;
  }

  /** The first loop of TrafficStats: one pass over the entries. */
  method CollectBuckets(all: seq<LogEntry>, minutes: nat, now: int) returns (buckets: map<nat, Tally>)
    ensures forall idx: nat :: (if idx in buckets then buckets[idx] else EMPTY) == TallyOf(all, now, minutes, idx)
  {
    var cutoff := now - minutes * MINUTE;
    buckets := map[];
    for k := 0 to |all|
      invariant forall idx: nat :: (if idx in buckets then buckets[idx] else EMPTY) == TallyOf(all[..k], now, minutes, idx)
    {
      var e := all[k];
      assert all[..k + 1][..k] == all[..k];
      if e.timestamp < cutoff {
        continue;
      }
      var minuteIdx := if e.timestamp > now then 0 else (now - e.timestamp) / MINUTE;
      if minuteIdx >= minutes {
        continue;
      }
      var b := if minuteIdx in buckets then buckets[minuteIdx] else EMPTY;
      buckets := buckets[minuteIdx := Tallied(b, e)];
    }
    assert all[..|all|] == all;
  }

  /** Buckets run from the oldest minute to the most recent one. */
  method TrafficStats(all: seq<LogEntry>, asked: int, now: int) returns (result: seq<TrafficBucket>)
    ensures var minutes := if asked <= 0 then 30 else asked;
            && |result| == minutes
            && forall i :: 0 <= i < minutes ==>
                 && result[i] == Shown(TallyOf(all, now, minutes, minutes - 1 - i), now, minutes - 1 - i)
                 && Reports(result[i], all, now, minutes - 1 - i)
  {
    var minutes: nat := if asked <= 0 then 30 else asked;
    var buckets := CollectBuckets(all, minutes, now);
    result := [];
    for i := 0 to minutes
      invariant |result| == i
      invariant forall j :: 0 <= j < i ==>
                  result[j] == Shown(TallyOf(all, now, minutes, minutes - 1 - j), now, minutes - 1 - j)
    {
      var back := minutes - 1 - i;
      var b := if back in buckets then buckets[back] else EMPTY;
      result := result + [Shown(b, now, back)];
    }
    AllReport(all, now, minutes, result);
  }

  // ---------------------------------------------------------------- conservation

  function CountYounger(all: seq<LogEntry>, now: int, minutes: nat): nat {
    if all == [] then 0
    else
      CountYounger(all[..|all| - 1], now, minutes)
      + if now - all[|all| - 1].timestamp < minutes * MINUTE then 1 else 0
  }

  function BytesYounger(all: seq<LogEntry>, now: int, minutes: nat): int {
    if all == [] then 0
    else
      BytesYounger(all[..|all| - 1], now, minutes)
      + if now - all[|all| - 1].timestamp < minutes * MINUTE then all[|all| - 1].size else 0
  }

  function SumRequests(bs: seq<TrafficBucket>): nat {
    if bs == [] then 0 else bs[0].requests + SumRequests(bs[1..])
  }

  function SumBytes(bs: seq<TrafficBucket>): int {
    if bs == [] then 0 else bs[0].bytesOut + SumBytes(bs[1..])
  }

  /** The tallies of the buckets below `n`, added up. */
  function TotalReqs(all: seq<LogEntry>, now: int, minutes: nat, n: nat): nat {
    if n == 0 then 0 else TallyOf(all, now, minutes, n - 1).reqs + TotalReqs(all, now, minutes, n - 1)
  }

  function TotalBytes(all: seq<LogEntry>, now: int, minutes: nat, n: nat): int {
    if n == 0 then 0 else TallyOf(all, now, minutes, n - 1).bytes + TotalBytes(all, now, minutes, n - 1)
  }

  /** One entry adds one request and its bytes to one bucket, or nothing to any. */
  lemma {:induction false} TotalsGrow(all: seq<LogEntry>, now: int, minutes: nat, n: nat)
    requires all != []
    ensures var before, e := all[..|all| - 1], all[|all| - 1];
            var hit := Counted(e, now, minutes) && MinuteIndex(e, now) < n;
            && TotalReqs(all, now, minutes, n) == TotalReqs(before, now, minutes, n) + (if hit then 1 else 0)
            && TotalBytes(all, now, minutes, n) == TotalBytes(before, now, minutes, n) + (if hit then e.size else 0)
  {
    if n > 0 {
      TotalsGrow(all, now, minutes, n - 1);
    }
  }

  lemma {:induction false} TotalsConserved(all: seq<LogEntry>, now: int, minutes: nat)
    requires minutes > 0
    ensures TotalReqs(all, now, minutes, minutes) == CountYounger(all, now, minutes)
    ensures TotalBytes(all, now, minutes, minutes) == BytesYounger(all, now, minutes)
  {
    if all == [] {
      TotalsOfNothing(now, minutes, minutes);
    } else {
      TotalsConserved(all[..|all| - 1], now, minutes);
      TotalsGrow(all, now, minutes, minutes);
      CountedIffYounger(all[|all| - 1], now, minutes);
    }
  }

  lemma {:induction false} TotalsOfNothing(now: int, minutes: nat, n: nat)
    ensures TotalReqs([], now, minutes, n) == 0 && TotalBytes([], now, minutes, n) == 0
  {
    if n > 0 {
      TotalsOfNothing(now, minutes, n - 1);
    }
  }

  lemma {:induction false} StatusesSum(all: seq<LogEntry>, now: int, minutes: nat, idx: nat)
    ensures var t := TallyOf(all, now, minutes, idx); t.s2xx + t.s3xx + t.s4xx + t.s5xx == t.reqs
  {
    if all != [] {
      StatusesSum(all[..|all| - 1], now, minutes, idx);
    }
  }

  lemma {:induction false} SumsAreTotals(result: seq<TrafficBucket>, all: seq<LogEntry>, now: int, minutes: nat)
    requires |result| <= minutes
    requires forall i :: 0 <= i < |result| ==>
               result[i] == Shown(TallyOf(all, now, minutes, |result| - 1 - i), now, |result| - 1 - i)
    ensures SumRequests(result) == TotalReqs(all, now, minutes, |result|)
    ensures SumBytes(result) == TotalBytes(all, now, minutes, |result|)
  {
    if result != [] {
      SumsAreTotals(result[1..], all, now, minutes);
    }
  }

  /** Whatever TrafficStats returns, its requests add up to the number of entries younger
      than the window and its bytes to theirs, and the four status counts of every bucket
      add up to its requests. */
  lemma TrafficConserved(all: seq<LogEntry>, now: int, minutes: nat, result: seq<TrafficBucket>)
    requires minutes > 0 && |result| == minutes
    requires forall i :: 0 <= i < minutes ==>
               result[i] == Shown(TallyOf(all, now, minutes, minutes - 1 - i), now, minutes - 1 - i)
    ensures SumRequests(result) == CountYounger(all, now, minutes)
    ensures SumBytes(result) == BytesYounger(all, now, minutes)
    ensures forall i :: 0 <= i < minutes ==>
              result[i].s2xx + result[i].s3xx + result[i].s4xx + result[i].s5xx == result[i].requests
  {
    SumsAreTotals(result, all, now, minutes);
    TotalsConserved(all, now, minutes);
    forall i | 0 <= i < minutes
      ensures result[i].s2xx + result[i].s3xx + result[i].s4xx + result[i].s5xx == result[i].requests
    {
      StatusesSum(all, now, minutes, minutes - 1 - i);
    }
  }

  // ---------------------------------------------------------------- most requested paths

  datatype PathCount = PathCount(path: string, count: nat)

  function Hits(all: seq<LogEntry>, path: string): nat {
    if all == [] then 0
    else Hits(all[..|all| - 1], path) + if all[|all| - 1].path == path then 1 else 0
  }

  ghost predicate Descending(out: seq<PathCount>) {
    forall i, j :: 0 <= i < j < |out| ==> out[i].count >= out[j].count
  }

  ghost predicate DistinctPaths(out: seq<PathCount>) {
    forall i, j :: 0 <= i < j < |out| ==> out[i].path != out[j].path
  }

  /** Some descending order; which one among equal counts is left open, as by sort.Slice. */
  method SortByCount(counts: map<string, nat>) returns (out: seq<PathCount>)
    ensures Descending(out) && DistinctPaths(out) && |out| == |counts|
    ensures forall pc :: pc in out <==> pc.path in counts && pc.count == counts[pc.path]
  {
    out := [];
    var paths := counts.Keys;
    while paths != {}
      invariant paths <= counts.Keys
      invariant Descending(out) && DistinctPaths(out) && |out| + |paths| == |counts|
      invariant forall pc :: pc in out <==> pc.path in counts && pc.path !in paths && pc.count == counts[pc.path]
      decreases paths
    {
      var p :| p in paths;
      paths := paths - {p};
      var pc := PathCount(p, counts[p]);
      assert forall q :: q in out ==> q.path != p;
      var i := 0;
      while i < |out| && out[i].count >= pc.count
        invariant 0 <= i <= |out|
        invariant forall j :: 0 <= j < i ==> out[j].count >= pc.count
      {
        i := i + 1;
      }
      ghost var before := out;
      out := out[..i] + [pc] + out[i..];
      Inserted(before, i, pc, out);
    }
  }

  lemma Inserted(before: seq<PathCount>, i: nat, pc: PathCount, out: seq<PathCount>)
    requires i <= |before| && out == before[..i] + [pc] + before[i..]
    requires Descending(before) && DistinctPaths(before)
    requires forall j :: 0 <= j < i ==> before[j].count >= pc.count
    requires i < |before| ==> before[i].count < pc.count
    requires forall q :: q in before ==> q.path != pc.path
    ensures Descending(out) && DistinctPaths(out)
    ensures forall q :: q in out <==> q in before || q == pc
  {
    InsertedDescending(before, i, pc, out);
    InsertedDistinct(before, i, pc, out);
    forall q
      ensures q in out <==> q in before || q == pc
    {
      assert before == before[..i] + before[i..];
    }
  }

  lemma InsertedDescending(before: seq<PathCount>, i: nat, pc: PathCount, out: seq<PathCount>)
    requires i <= |before| && out == before[..i] + [pc] + before[i..] && Descending(before)
    requires forall j :: 0 <= j < i ==> before[j].count >= pc.count
    requires i < |before| ==> before[i].count < pc.count
    ensures Descending(out)
  {
  }

  lemma InsertedDistinct(before: seq<PathCount>, i: nat, pc: PathCount, out: seq<PathCount>)
    requires i <= |before| && out == before[..i] + [pc] + before[i..] && DistinctPaths(before)
    requires forall q :: q in before ==> q.path != pc.path
    ensures DistinctPaths(out)
  {
  }

  lemma TopOutranksRest(sorted: seq<PathCount>, n: nat, below: PathCount, above: PathCount)
    requires Descending(sorted) && n <= |sorted| && below in sorted && above in sorted[..n]
    requires forall q :: q in sorted[..n] ==> q.path != below.path
    ensures below.count <= above.count
  {
    var i :| 0 <= i < |sorted| && sorted[i] == below;
    var j :| 0 <= j < n && sorted[j] == above;
    assert forall k :: 0 <= k < n ==> sorted[..n][k] == sorted[k] && sorted[k].path != below.path;
  }

  method TopPaths(all: seq<LogEntry>, n: int) returns (out: seq<PathCount>)
    ensures DistinctPaths(out) && Descending(out)
    ensures forall pc :: pc in out ==> pc.count == Hits(all, pc.path) > 0
    ensures n <= 0 ==> forall e :: e in all ==> exists pc :: pc in out && pc.path == e.path
    ensures n > 0 ==> |out| <= n
    // Nothing left out outranks anything returned, and nothing is left out while there is room.
    ensures forall e, pc :: e in all && pc in out && (forall q :: q in out ==> q.path != e.path) ==>
              Hits(all, e.path) <= pc.count && |out| == n
  {
    var counts: map<string, nat> := map[];
    for k := 0 to |all|
      invariant forall p :: (if p in counts then counts[p] else 0) == Hits(all[..k], p)
      invariant forall p :: p in counts ==> counts[p] > 0
    {
      assert all[..k + 1][..k] == all[..k];
      var p := all[k].path;
      counts := counts[p := (if p in counts then counts[p] else 0) + 1];
    }
    assert all[..|all|] == all;
    forall e | e in all
      ensures e.path in counts
    {
      HitsPositive(all, e);
    }
    var sorted := SortByCount(counts);
    forall e | e in all
      ensures PathCount(e.path, counts[e.path]) in sorted
    {
    }
    if 0 < n < |sorted| {
      out := sorted[..n];
      forall e, pc | e in all && pc in out && (forall q :: q in out ==> q.path != e.path)
        ensures Hits(all, e.path) <= pc.count && |out| == n
      {
        TopOutranksRest(sorted, n, PathCount(e.path, counts[e.path]), pc);
      }
    } else {
      out := sorted;
    }
  }

  lemma {:induction false} HitsPositive(all: seq<LogEntry>, e: LogEntry)
    requires e in all
    ensures Hits(all, e.path) > 0
  {
    if e != all[|all| - 1] {
      assert e in all[..|all| - 1];
      HitsPositive(all[..|all| - 1], e);
    }
  }
}
