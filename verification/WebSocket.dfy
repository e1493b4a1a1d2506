/**
 Handing an upgraded connection over from HTTP parsing to raw copying. Both sides were read
 through buffers that may hold bytes beyond the HTTP messages; these must reach the peer
 before the raw copy starts. Reads return as much as they like, writes succeed, and the
 backend's answer is an upgrade and has no body (section 4 of RFC 6455).
 (internal/server/http_proxy.go, internal/server/tcp_proxy.go)
 */
module WebSocket {
  import opened Wrappers
  import opened Codec

  const LF: byte := 10
  const CR: byte := 13
  const BUFFER_SIZE: nat := 4096

  // ---------------------------------------------------------------- where an HTTP head ends

  /** The text ends with an empty line. */
  predicate EndsBlank(s: seq<byte>) {
    var n := |s|;
    && n >= 2 && s[n - 1] == LF
    && (s[n - 2] == LF || (n >= 3 && s[n - 2] == CR && s[n - 3] == LF))
  }

  /** The head of an HTTP message is everything up to its first empty line. */
  ghost predicate IsHead(s: seq<byte>, n: nat) {
    n <= |s| && EndsBlank(s[..n]) && forall k :: 0 <= k < n ==> !EndsBlank(s[..k])
  }

  /** An empty line ends here: a line feed after a line feed, with or without a carriage return
      in between. */
  predicate BlankEndsAt(s: seq<byte>, k: nat)
    requires k <= |s|
  {
    (k >= 2 && s[k - 2..k] == [10, 10]) || (k >= 3 && s[k - 3..k] == [10, 13, 10])
  }

  /** A head is what precedes the first end of an empty line. */
  lemma HeadIs(s: seq<byte>, n: nat)
    ensures IsHead(s, n) <==> n <= |s| && BlankEndsAt(s, n) && forall k :: 0 <= k < n ==> !BlankEndsAt(s, k)
  {
    forall k | 0 <= k <= |s|
      ensures EndsBlank(s[..k]) <==> BlankEndsAt(s, k)
    {
      BlankIs(s[..k]);
      assert k >= 2 ==> s[..k][k - 2..] == s[k - 2..k];
      assert k >= 3 ==> s[..k][k - 3..] == s[k - 3..k];
    }
  }

  lemma BlankIs(s: seq<byte>)
    ensures EndsBlank(s) <==>
              (|s| >= 2 && s[|s| - 2..] == [10, 10]) || (|s| >= 3 && s[|s| - 3..] == [10, 13, 10])
  {
    if |s| >= 2 {
      assert s[|s| - 2..] == [s[|s| - 2], s[|s| - 1]];
    }
    if |s| >= 3 {
      assert s[|s| - 3..] == [s[|s| - 3], s[|s| - 2], s[|s| - 1]];
    }
  }

  lemma BlankLineEndsHead(head: seq<byte>, line: seq<byte>)
    requires head != [] && head[|head| - 1] == LF && line != [] && line[|line| - 1] == LF
    requires forall i :: 0 <= i < |line| - 1 ==> line[i] != LF
    ensures EndsBlank(head + line) <==> line == [LF] || line == [CR, LF]
  {
    var all := head + line;
    assert |line| >= 2 ==> all[|all| - 2] == line[|line| - 2];
    assert |line| >= 3 ==> all[|all| - 3] == line[|line| - 3];
  }

  /** Within a line, and when a line that is not empty ends, the head goes on. */
  lemma HeadGoesOn(head: seq<byte>, line: seq<byte>, k: nat)
    requires forall i :: 0 <= i < |line| - 1 ==> line[i] != LF
    requires |head| < k < |head + line|
    ensures !EndsBlank((head + line)[..k])
  {
    assert (head + line)[k - 1] == line[k - 1 - |head|];
  }

  lemma FirstLineGoesOn(all: seq<byte>, line: seq<byte>, k: nat)
    requires line <= all && k <= |line| && forall i :: 0 <= i < |line| - 1 ==> line[i] != LF
    ensures !EndsBlank(all[..k])
  {
    assert forall i :: 0 <= i < k ==> all[..k][i] == line[i];
  }

  lemma RestHasNoEnd(all: seq<byte>, head: seq<byte>, rest: seq<byte>, n: nat)
    requires all == head + rest && LF !in rest && |head| < n <= |all|
    ensures !EndsBlank(all[..n])
  {
    assert all[n - 1] == rest[n - 1 - |head|];
  }

  // ---------------------------------------------------------------- buffered reading

  class Sink {
    var out: seq<byte>

    method Write(b: seq<byte>)
      modifies this
      ensures out == old(out) + b
    {
      out := out + b;
    }
  }

  /** bufio.Reader */
  class BufferedReader {
    const src: Reader
    var buf: seq<byte>

    constructor (src: Reader)
      ensures this.src == src && buf == []
    {
      this.src, buf := src, [];
    }

    /** What can still be read through the buffer. */
    ghost function Pending(): seq<byte>
      reads this, src
    {
      buf + src.rest
    }

    /** Reads ahead, as far as the source likes. */
    method Fill() returns (more: bool)
      modifies this, src
      ensures Pending() == old(Pending()) && old(buf) <= buf
      ensures more ==> |src.rest| < |old(src.rest)|
      ensures !more ==> src.rest == [] && buf == old(buf)
    {
      var chunk := src.Read(BUFFER_SIZE);
      more := chunk != [];
      buf := buf + chunk;
    }

    /** The next line with its terminator. */
    method ReadLine() returns (line: Option<seq<byte>>)
      modifies this, src
      ensures line.Some? ==>
                && line.value != [] && line.value[|line.value| - 1] == LF
                && (forall i :: 0 <= i < |line.value| - 1 ==> line.value[i] != LF)
                && old(Pending()) == line.value + Pending()
      ensures line.None? ==> LF !in old(Pending())
    {
      var i := 0;
      while true
        invariant i <= |buf| && LF !in buf[..i]
        invariant Pending() == old(Pending())
        decreases |src.rest|, |buf| - i
      {
        if i == |buf| {
          var more := Fill();
          if !more {
            assert buf[..i] == buf == Pending();
            return None;
          }
        } else if buf[i] == LF {
          var l := buf[..i + 1];
          assert l[..i] == buf[..i];
          assert Pending() == l + (buf[i + 1..] + src.rest);
          buf := buf[i + 1..];
          return Some(l);
        } else {
          assert buf[..i + 1] == buf[..i] + [buf[i]];
          i := i + 1;
        }
      }
    }

    /** Some of the bytes in the buffer, at most so many. */
    method TakeUpTo(max: nat) returns (b: seq<byte>)
      requires buf != [] && max > 0
      modifies this
      ensures 0 < |b| <= max && old(buf) == b + buf
    {
      var n := if max < |buf| then max else |buf|;
      b, buf := buf[..n], buf[n..];
    }

    /** Takes the bytes that are in the buffer. */
    method Drain() returns (b: seq<byte>)
      modifies this
      ensures b == old(buf) && buf == []
    {
      b := buf;
      buf := [];
    }

    /** Reads a message head and nothing more; fails only if there is none. */
    method ReadHead() returns (head: Option<seq<byte>>)
      modifies this, src
      ensures head.Some? ==> old(Pending()) == head.value + Pending() && IsHead(old(Pending()), |head.value|)
      ensures head.None? ==> forall n: nat :: !IsHead(old(Pending()), n)
    {
      ghost var all := Pending();
      var line := ReadLine();
      if line.None? {
        forall n | 0 < n <= |all| ensures !EndsBlank(all[..n]) {
          RestHasNoEnd(all, [], all, n);
        }
        return None;
      }
      var h := line.value;
      forall k | 0 <= k <= |h| ensures !EndsBlank(all[..k]) {
        FirstLineGoesOn(all, h, k);
      }
      while true
        invariant h != [] && h[|h| - 1] == LF && all == h + Pending()
        invariant forall k :: 0 <= k <= |h| ==> !EndsBlank(all[..k])
        decreases |Pending()|
      {
        ghost var rest := Pending();
        line := ReadLine();
        if line.None? {
          forall n | |h| < n <= |all| ensures !EndsBlank(all[..n]) {
            RestHasNoEnd(all, h, rest, n);
          }
          return None;
        }
        ghost var before := h;
        h := h + line.value;
        assert all[..|h|] == h;
        BlankLineEndsHead(before, line.value);
        forall k | |before| < k < |h|
          ensures !EndsBlank(all[..k])
        {
          HeadGoesOn(before, line.value, k);
          assert all[..k] == h[..k];
        }
        if line.value == [LF] || line.value == [CR, LF] {
          return Some(h);
        }
      }
    }
  }

  // ---------------------------------------------------------------- the hand-over

  /** What the answer with a given head prints as, and how long its body is. */
  datatype Answer = Answer(text: seq<byte>, bodyLength: nat)

  /** The stream starts with a head of `n` bytes that parses as an answer. */
  ghost predicate IsAnswer(s: seq<byte>, n: nat, answerOf: seq<byte> -> Option<Answer>) {
    IsHead(s, n) && answerOf(s[..n]).Some?
  }

  /** Passing the answer on, with its body, takes nothing from the bytes that follow it,
      however far was read ahead. */
  method PassAnswer(streamIn: Reader, clientOut: Sink, answerOf: seq<byte> -> Option<Answer>) returns (ok: bool)
    modifies streamIn, clientOut
    ensures ok <==> exists n: nat ::
                      && IsAnswer(old(streamIn.rest), n, answerOf)
                      && n + answerOf(old(streamIn.rest)[..n]).value.bodyLength <= |old(streamIn.rest)|
    ensures ok || clientOut.out != old(clientOut.out) ==>
              exists n: nat ::
                && IsAnswer(old(streamIn.rest), n, answerOf)
                && clientOut.out + streamIn.rest
                   == old(clientOut.out) + answerOf(old(streamIn.rest)[..n]).value.text + old(streamIn.rest)[n..]
  {
    ghost var all := streamIn.rest;
    var br := new BufferedReader(streamIn);
    assert br.Pending() == all;
    var head := br.ReadHead();
    if head.None? {
      return false;
    }
    ghost var n := |head.value|;
    assert all[..n] == head.value && all[n..] == br.Pending();
    HeadIsUnique(all, n);
    var answer := answerOf(head.value);
    if answer.None? {
      return false;
    }
    assert IsAnswer(all, n, answerOf);
    clientOut.Write(answer.value.text);
    ghost var sent := clientOut.out;
    ok := PassBody(br, clientOut, answer.value.bodyLength);
    assert clientOut.out + streamIn.rest == sent + all[n..];
    assert ok ==> n + answerOf(all[..n]).value.bodyLength <= |all|;
  }

  /** The body and, if it is all there, what was read ahead behind it. Nothing stays behind in
      the buffer either way. */
  method PassBody(br: BufferedReader, dst: Sink, length: nat) returns (ok: bool)
    modifies br, br.src, dst
    ensures ok <==> length <= |old(br.Pending())|
    ensures br.buf == [] && dst.out + br.src.rest == old(dst.out) + old(br.Pending())
  {
    var left := length;
    while left > 0
      invariant left <= length && length - left <= |old(br.Pending())|
      invariant dst.out + br.Pending() == old(dst.out) + old(br.Pending())
      invariant |br.Pending()| == |old(br.Pending())| - (length - left)
      decreases left, |br.src.rest|
    {
      if br.buf == [] {
        var more := br.Fill();
        if !more {
          assert br.Pending() == [];
          return false;
        }
      } else {
        var b := br.TakeUpTo(left);
        dst.Write(b);
        left := left - |b|;
      }
    }
    ghost var before := dst.out;
    DrainTo(br, dst);
    ok := true;
  }

  /** What was read ahead goes out before what is still to be read. */
  method DrainTo(br: BufferedReader, dst: Sink)
    modifies br, dst
    ensures br.buf == [] && dst.out + br.src.rest == old(dst.out) + old(br.Pending())
  {
    var ahead := br.Drain();
    if |ahead| > 0 {
      dst.Write(ahead);
    }
    assert dst.out == old(dst.out) + ahead;
  }

  /** From the hijack to the start of the raw copy; `request` is what the request prints as.
      What the backend got so far and what is still unread from the client make up the
      request and everything the client sent behind it; likewise in the other direction. */
  method HandOver(bufrw: BufferedReader, clientOut: Sink, streamIn: Reader, streamOut: Sink,
                  request: seq<byte>, answerOf: seq<byte> -> Option<Answer>) returns (ok: bool)
    requires bufrw.src != streamIn && clientOut != streamOut
    modifies bufrw, clientOut, streamIn, streamOut
    ensures bufrw.buf == [] && bufrw.src.rest == old(bufrw.src.rest)
    ensures streamOut.out + bufrw.src.rest == old(streamOut.out) + request + old(bufrw.Pending())
    ensures ok <==> exists n: nat ::
                      && IsAnswer(old(streamIn.rest), n, answerOf)
                      && n + answerOf(old(streamIn.rest)[..n]).value.bodyLength <= |old(streamIn.rest)|
    ensures ok || clientOut.out != old(clientOut.out) ==>
              exists n: nat ::
                && IsAnswer(old(streamIn.rest), n, answerOf)
                && clientOut.out + streamIn.rest
                   == old(clientOut.out) + answerOf(old(streamIn.rest)[..n]).value.text + old(streamIn.rest)[n..]
  {
    streamOut.Write(request);
    DrainTo(bufrw, streamOut);
    ok := PassAnswer(streamIn, clientOut, answerOf);
  }

  lemma HeadIsUnique(s: seq<byte>, n: nat)
    requires IsHead(s, n)
    ensures forall m: nat :: IsHead(s, m) ==> m == n
  {
  }

  /** io.Copy to the end of the source. */
  method Copy(dst: Sink, src: Reader) returns (n: nat)
    modifies dst, src
    ensures dst.out == old(dst.out) + old(src.rest) && src.rest == [] && n == |old(src.rest)|
  {
    n := 0;
    while true
      invariant dst.out + src.rest == old(dst.out) + old(src.rest)
      invariant n == |dst.out| - |old(dst.out)|
      decreases |src.rest|
    {
      var chunk := src.Read(BUFFER_SIZE);
      if chunk == [] {
        return;
      }
      dst.Write(chunk);
      n := n + |chunk|;
    }
  }

  // ---------------------------------------------------------------- both directions at once

  /** One direction: what its source will still send, what its copier holds, what arrived. */
  datatype Lane = Lane(left: seq<byte>, held: seq<byte>, out: seq<byte>, done: bool)

  /** `up` runs from the connection that was accepted to the tunnel, `down` the other way.
      When `down` ends, the accepted connection is closed for both directions; when `up`
      ends, only the sending side of the tunnel's stream is. */
  datatype Relay = Relay(up: Lane, down: Lane)

  datatype Step = UpRead(n: nat) | UpWrite | UpEnds | DownRead(n: nat) | DownWrite | DownEnds

  predicate MayRead(l: Lane, n: nat) {
    !l.done && l.held == [] && 0 < n <= |l.left|
  }

  predicate Enabled(r: Relay, step: Step) {
    match step
    case UpRead(n) => MayRead(r.up, n) && !r.down.done
    case UpWrite => r.up.held != []
    case UpEnds => !r.up.done && r.up.held == [] && (r.up.left == [] || r.down.done)
    case DownRead(n) => MayRead(r.down, n)
    case DownWrite => r.down.held != []
    case DownEnds => !r.down.done && r.down.held == [] && r.down.left == []
  }

  function ReadChunk(l: Lane, n: nat): Lane
    requires n <= |l.left|
  {
    l.(held := l.left[..n], left := l.left[n..])
  }

  function WriteChunk(l: Lane): Lane {
    l.(held := [], out := l.out + l.held)
  }

  function Apply(r: Relay, step: Step): Relay
    requires Enabled(r, step)
  {
    match step
    case UpRead(n) => r.(up := ReadChunk(r.up, n))
    case UpWrite => r.(up := WriteChunk(r.up))
    case UpEnds => r.(up := r.up.(done := true))
    case DownRead(n) => r.(down := ReadChunk(r.down, n))
    case DownWrite => r.(down := WriteChunk(r.down))
    case DownEnds => r.(down := r.down.(done := true))
  }

  ghost predicate IsRun(relays: seq<Relay>, steps: seq<Step>) {
    && |relays| == |steps| + 1
    && relays[0].up.held == [] && !relays[0].up.done
    && relays[0].down.held == [] && !relays[0].down.done
    && forall i {:trigger steps[i]} :: 0 <= i < |steps| ==>
         Enabled(relays[i], steps[i]) && relays[i + 1] == Apply(relays[i], steps[i])
  }

  function Whole(l: Lane): seq<byte> {
    l.out + l.held + l.left
  }

  lemma LaneMoves(l: Lane, n: nat)
    requires n <= |l.left|
    ensures l.held == [] ==> Whole(ReadChunk(l, n)) == Whole(l)
    ensures Whole(WriteChunk(l)) == Whole(l)
  {
    assert l.left[..n] + l.left[n..] == l.left;
    assert l.held == [] ==> l.out + l.left[..n] + l.left[n..] == l.out + [] + l.left;
  }

  /** At every moment of every schedule, and whatever the chunks, what a peer got, what a
      copier holds and what is still to come make up the source, in order. The direction
      towards the accepted connection only ever ends complete; the other one ends complete
      or was cut off because the first had ended. */
  lemma {:induction false} RelayLosesNothing(relays: seq<Relay>, steps: seq<Step>, i: nat)
    requires IsRun(relays, steps) && i < |relays|
    ensures var r := relays[i];
            && Whole(r.up) == Whole(relays[0].up) && Whole(r.down) == Whole(relays[0].down)
            && r.up.out <= Whole(relays[0].up) && r.down.out <= Whole(relays[0].down)
            && (r.down.done ==> r.down.out == Whole(relays[0].down) && r.down.held == [])
            && (r.up.done ==> r.up.held == [] && (r.up.left == [] || r.down.done))
  {
    if i > 0 {
      RelayLosesNothing(relays, steps, i - 1);
      var r, step := relays[i - 1], steps[i - 1];
      LaneMoves(r.up, if step.UpRead? then step.n else 0);
      LaneMoves(r.down, if step.DownRead? then step.n else 0);
      assert relays[i] == Apply(r, step);
    }
  }

  /** Once the accepted connection is closed nothing more is read from it. */
  lemma {:induction false} LeftStays(relays: seq<Relay>, steps: seq<Step>, k: nat, i: nat)
    requires IsRun(relays, steps) && k <= i < |relays| && relays[k].down.done
    ensures relays[i].up.left == relays[k].up.left && relays[i].down.done
    decreases i - k
  {
    if k < i {
      LeftStays(relays, steps, k, i - 1);
      assert relays[i] == Apply(relays[i - 1], steps[i - 1]);
    }
  }

  lemma {:induction false} DownEnded(relays: seq<Relay>, steps: seq<Step>, i: nat) returns (k: nat)
    requires IsRun(relays, steps) && i < |relays| && relays[i].down.done
    ensures k < i && steps[k].DownEnds?
  {
    assert i > 0;
    if relays[i - 1].down.done {
      k := DownEnded(relays, steps, i - 1);
    } else {
      k := i - 1;
      assert relays[i] == Apply(relays[k], steps[k]);
    }
  }

  /** A direction ends once, and nothing is read or written in it any more. */
  lemma {:induction false} EndsOnce(relays: seq<Relay>, steps: seq<Step>, i: nat, j: nat)
    requires IsRun(relays, steps) && i < j < |steps|
    ensures steps[i].UpEnds? ==> relays[j].up == relays[i + 1].up && !steps[j].UpRead? && !steps[j].UpWrite? && !steps[j].UpEnds?
    ensures steps[i].DownEnds? ==>
              relays[j].down == relays[i + 1].down && !steps[j].DownRead? && !steps[j].DownWrite? && !steps[j].DownEnds?
    decreases j
  {
    assert Enabled(relays[i], steps[i]) && relays[i + 1] == Apply(relays[i], steps[i]);
    assert Enabled(relays[j], steps[j]);
    if i + 1 < j {
      EndsOnce(relays, steps, i, j - 1);
      assert Enabled(relays[j - 1], steps[j - 1]) && relays[j] == Apply(relays[j - 1], steps[j - 1]);
    }
  }

  /** The tunnel's side ended while the other side still had bytes to come. */
  ghost predicate CutOff(relays: seq<Relay>, steps: seq<Step>, i: nat)
    requires |relays| == |steps| + 1 && i <= |steps|
  {
    exists k {:trigger steps[k]} :: 0 <= k < i && steps[k].DownEnds? && relays[k].up.left != []
  }

  /** Exactly when bytes are lost: a direction into the tunnel that has ended is incomplete if
      and only if the other direction ended while bytes of it were still to come. */
  lemma IncompleteIffCutOff(relays: seq<Relay>, steps: seq<Step>, i: nat)
    requires IsRun(relays, steps) && i < |relays| && relays[i].up.done
    ensures relays[i].up.out != Whole(relays[0].up) <==> CutOff(relays, steps, i)
  {
    RelayLosesNothing(relays, steps, i);
    var up := relays[i].up;
    assert up.out + up.held + up.left == up.out + up.left;
    assert up.out == Whole(relays[0].up) <==> up.left == [];
    if up.left != [] {
      var k := DownEnded(relays, steps, i);
      assert relays[k + 1] == Apply(relays[k], steps[k]);
      LeftStays(relays, steps, k + 1, i);
    }
    if CutOff(relays, steps, i) {
      var k :| 0 <= k < i && steps[k].DownEnds? && relays[k].up.left != [];
      assert relays[k + 1] == Apply(relays[k], steps[k]);
      LeftStays(relays, steps, k + 1, i);
    }
  }

  /** The cut is real, whatever is still to come when the tunnel's side ends. */
  lemma UpMayBeCut(toCome: seq<byte>) returns (relays: seq<Relay>, steps: seq<Step>)
    requires toCome != []
    ensures IsRun(relays, steps) && relays[|steps|].up.done
    ensures Whole(relays[0].up) == toCome && relays[|steps|].up.out == []
  {
    var start := Relay(Lane(toCome, [], [], false), Lane([], [], [], false));
    var mid := start.(down := Lane([], [], [], true));
    var end := mid.(up := Lane(toCome, [], [], true));
    relays, steps := [start, mid, end], [DownEnds, UpEnds];
    assert Whole(start.up) == toCome;
  }

  // ---------------------------------------------------------------- from the hijack to the end

  /** proxyBidirectional: the two copiers take turns as the scheduler likes, until both have
      ended. What they do is a run of the relay. */
  method ProxyBidirectional(clientIn: Reader, clientOut: Sink, streamIn: Reader, streamOut: Sink)
    returns (ghost relays: seq<Relay>, ghost steps: seq<Step>)
    requires clientIn != streamIn && clientOut != streamOut
    modifies clientIn, clientOut, streamIn, streamOut
    ensures IsRun(relays, steps)
    ensures relays[0] == Relay(Lane(old(clientIn.rest), [], old(streamOut.out), false),
                               Lane(old(streamIn.rest), [], old(clientOut.out), false))
    ensures var r := relays[|steps|];
            && r.up.done && r.up.left == clientIn.rest && r.up.out == streamOut.out
            && r.down.done && r.down.left == streamIn.rest && r.down.out == clientOut.out
  {
    var upHeld: seq<byte>, downHeld: seq<byte>, upDone, downDone := [], [], false, false;
    ghost var now := Relay(Lane(clientIn.rest, [], streamOut.out, false), Lane(streamIn.rest, [], clientOut.out, false));
    relays, steps := [now], [];
    while !upDone || !downDone
      invariant IsRun(relays, steps) && relays[|steps|] == now
      invariant relays[0] == Relay(Lane(old(clientIn.rest), [], old(streamOut.out), false),
                                   Lane(old(streamIn.rest), [], old(clientOut.out), false))
      invariant now == Relay(Lane(clientIn.rest, upHeld, streamOut.out, upDone),
                             Lane(streamIn.rest, downHeld, clientOut.out, downDone))
      invariant (upDone ==> upHeld == []) && (downDone ==> downHeld == [])
      decreases |clientIn.rest| + |streamIn.rest|, |upHeld| + |downHeld|,
                (if upDone then 0 else 1) + if downDone then 0 else 1
    {
      ghost var step: Step;
      if {
      case !upDone && upHeld == [] && !downDone =>
        upHeld := clientIn.Read(BUFFER_SIZE);
        assert now.up.left[..|upHeld|] == upHeld && now.up.left[|upHeld|..] == clientIn.rest;
        upDone := upHeld == [];
        step := if upDone then UpEnds else UpRead(|upHeld|);
      case !upDone && upHeld == [] && downDone =>
        upDone := true;
        step := UpEnds;
      case upHeld != [] =>
        streamOut.Write(upHeld);
        upHeld := [];
        step := UpWrite;
      case !downDone && downHeld == [] =>
        downHeld := streamIn.Read(BUFFER_SIZE);
        assert now.down.left[..|downHeld|] == downHeld && now.down.left[|downHeld|..] == streamIn.rest;
        downDone := downHeld == [];
        step := if downDone then DownEnds else DownRead(|downHeld|);
      case downHeld != [] =>
        clientOut.Write(downHeld);
        downHeld := [];
        step := DownWrite;
      }
      now := Apply(now, step);
      relays, steps := relays + [now], steps + [step];
    }
  }

  /** An upgraded connection from the hijack to its end. The client has got the answer and
      everything the backend sent behind it; the backend has got the request and everything
      the client sent behind it, except if and only if the backend's side ended first. */
  method ProxyWebSocket(bufrw: BufferedReader, clientOut: Sink, streamIn: Reader, streamOut: Sink,
                        request: seq<byte>, answerOf: seq<byte> -> Option<Answer>)
    returns (ok: bool, ghost relays: seq<Relay>, ghost steps: seq<Step>)
    requires bufrw.src != streamIn && clientOut != streamOut
    modifies bufrw, bufrw.src, clientOut, streamIn, streamOut
    ensures ok <==> exists n: nat ::
                      && IsAnswer(old(streamIn.rest), n, answerOf)
                      && n + answerOf(old(streamIn.rest)[..n]).value.bodyLength <= |old(streamIn.rest)|
    ensures ok ==>
              && IsRun(relays, steps)
              && (exists n: nat ::
                    && IsAnswer(old(streamIn.rest), n, answerOf)
                    && clientOut.out
                       == old(clientOut.out) + answerOf(old(streamIn.rest)[..n]).value.text + old(streamIn.rest)[n..])
              && streamOut.out <= old(streamOut.out) + request + old(bufrw.Pending())
              && (streamOut.out != old(streamOut.out) + request + old(bufrw.Pending()) <==>
                    CutOff(relays, steps, |steps|))
  {
    relays, steps := [], [];
    ok := HandOver(bufrw, clientOut, streamIn, streamOut, request, answerOf);
    if ok {
      relays, steps := ProxyBidirectional(bufrw.src, clientOut, streamIn, streamOut);
      RelayLosesNothing(relays, steps, |steps|);
      IncompleteIffCutOff(relays, steps, |steps|);
      HeldNothing(relays[0].up);
      HeldNothing(relays[0].down);
    }
  }

  lemma HeldNothing(l: Lane)
    requires l.held == []
    ensures Whole(l) == l.out + l.left
  {
  }
}
