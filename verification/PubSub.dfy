/**
 Live request logs: the log fans each new entry out to its subscribers' channels, and the
 dashboard adapter forwards every subscription to a channel of its own. Steps are channel
 operations and critical sections; any number of goroutines may add, subscribe and
 unsubscribe at once, also repeatedly for the same channel. A send on a closed channel or a
 second close would panic; the state records whether that has happened.
 (internal/server/request_log.go, internal/server/request_log_adapter.go)
 */
module PubSub {
  import opened Analytics

  const CHANNEL_SIZE := 64

  datatype Chan = Chan(buf: seq<LogEntry>, open: bool)

  /** One Add: the entry is in the ring, then it is offered to the subscribers under the
      read lock. */
  datatype Adder = Stored(e: LogEntry) | Offering(e: LogEntry, remaining: set<nat>)

  /** The goroutine that forwards a subscription. */
  datatype Forwarder = Receiving | Holding(e: LogEntry) | Finishing | Exited

  /** An Unsubscribe that found its channel: before and after it left the subscriber set. */
  datatype Leave = Removing | ClosingSource

  /** Subscriptions are numbered; each has a source and, once the adapter made it, a
      destination channel. */
  datatype State = State(
    history: seq<LogEntry>,
    adders: map<nat, Adder>,
    subs: set<nat>,
    src: map<nat, Chan>,
    dst: map<nat, Chan>,
    srcOf: set<nat>,
    forwarders: map<nat, Forwarder>,
    leaving: map<nat, Leave>,
    received: map<nat, seq<LogEntry>>,
    panicked: bool)

  datatype Step =
    | Store(a: nat, e: LogEntry)
    | StartOffering(a: nat)
    | Offer(a: nat, k: nat)
    | EndOffering(a: nat)
    | MakeSource(k: nat)
    | MakeDestination(k: nat)
    | StartForwarding(k: nat)
    | Receive(k: nat)
    | Forward(k: nat)
    | Finish(k: nat)
    | Consume(k: nat)
    | TakeSource(k: nat)
    | RemoveSource(k: nat)
    | CloseSource(k: nat)

  /** Nobody holds the read lock of the subscriber set. */
  predicate SubsFree(s: State) {
    forall a :: a in s.adders ==> s.adders[a].Stored?
  }

  predicate Enabled(s: State, step: Step) {
    match step
    case Store(a, _) => a !in s.adders
    case StartOffering(a) => a in s.adders && s.adders[a].Stored?
    case Offer(a, k) => a in s.adders && s.adders[a].Offering? && k in s.adders[a].remaining
    case EndOffering(a) => a in s.adders && s.adders[a].Offering? && s.adders[a].remaining == {}
    case MakeSource(k) => SubsFree(s) && k !in s.src
    case MakeDestination(k) => k in s.src && k !in s.dst
    case StartForwarding(k) => k in s.dst && k !in s.forwarders
    case Receive(k) =>
      && k in s.forwarders && s.forwarders[k].Receiving? && k in s.src
      && (s.src[k].buf != [] || !s.src[k].open)
    case Forward(k) => k in s.forwarders && s.forwarders[k].Holding? && k in s.dst
    case Finish(k) => k in s.forwarders && s.forwarders[k].Finishing? && k in s.dst
    case Consume(k) => k in s.dst && s.dst[k].buf != []
    case TakeSource(k) => k in s.forwarders
    case RemoveSource(k) => SubsFree(s) && k in s.leaving && s.leaving[k].Removing?
    case CloseSource(k) => k in s.leaving && s.leaving[k].ClosingSource? && k in s.src
  }

  /** select { case ch <- e: default: } */
  function TrySend(ch: Chan, e: LogEntry): Chan {
    if |ch.buf| < CHANNEL_SIZE then ch.(buf := ch.buf + [e]) else ch
  }

  function ReceivedBy(s: State, k: nat): seq<LogEntry> {
    if k in s.received then s.received[k] else []
  }

  function Apply(s: State, step: Step): State
    requires Enabled(s, step)
  {
    match step
    case Store(a, e) => s.(history := s.history + [e], adders := s.adders[a := Stored(e)])
    case StartOffering(a) => s.(adders := s.adders[a := Offering(s.adders[a].e, s.subs)])
    case Offer(a, k) =>
      var Offering(e, remaining) := s.adders[a];
      var s' := s.(adders := s.adders[a := Offering(e, remaining - {k})]);
      if k !in s.src || !s.src[k].open then s'.(panicked := true)
      else s'.(src := s.src[k := TrySend(s.src[k], e)])
    case EndOffering(a) => s.(adders := s.adders - {a})
    case MakeSource(k) => s.(src := s.src[k := Chan([], true)], subs := s.subs + {k})
    case MakeDestination(k) => s.(dst := s.dst[k := Chan([], true)], srcOf := s.srcOf + {k})
    case StartForwarding(k) => s.(forwarders := s.forwarders[k := Receiving])
    case Receive(k) =>
      if s.src[k].buf == [] then s.(forwarders := s.forwarders[k := Finishing])
      else
        s.(src := s.src[k := s.src[k].(buf := s.src[k].buf[1..])],
           forwarders := s.forwarders[k := Holding(s.src[k].buf[0])])
    case Forward(k) =>
      var s' := s.(forwarders := s.forwarders[k := Receiving]);
      if !s.dst[k].open then s'.(panicked := true)
      else s'.(dst := s.dst[k := TrySend(s.dst[k], s.forwarders[k].e)])
    case Finish(k) =>
      s.(dst := s.dst[k := s.dst[k].(open := false)],
         forwarders := s.forwarders[k := Exited],
         panicked := s.panicked || !s.dst[k].open)
    case Consume(k) =>
      s.(dst := s.dst[k := s.dst[k].(buf := s.dst[k].buf[1..])],
         received := s.received[k := ReceivedBy(s, k) + [s.dst[k].buf[0]]])
    case TakeSource(k) =>
      if k in s.srcOf then s.(srcOf := s.srcOf - {k}, leaving := s.leaving[k := Removing]) else s
    case RemoveSource(k) => s.(subs := s.subs - {k}, leaving := s.leaving[k := ClosingSource])
    case CloseSource(k) =>
      s.(src := s.src[k := s.src[k].(open := false)],
         leaving := s.leaving - {k},
         panicked := s.panicked || !s.src[k].open)
  }

  predicate Start(s: State) {
    s == State([], map[], {}, map[], map[], {}, map[], map[], map[], false)
  }

  ghost predicate IsRun(states: seq<State>, steps: seq<Step>) {
    && |states| == |steps| + 1
    && Start(states[0])
    && forall i {:trigger steps[i]} :: 0 <= i < |steps| ==>
         Enabled(states[i], steps[i]) && states[i + 1] == Apply(states[i], steps[i])
  }

  // ---------------------------------------------------------------- channel discipline

  /** Who may still use the channels of a subscription, and that these are open. */
  ghost predicate Disciplined(s: State) {
    && !s.panicked
    && (forall a :: a in s.adders && s.adders[a].Offering? ==> s.adders[a].remaining <= s.subs)
    && (forall k :: k in s.subs ==> k in s.src && s.src[k].open)
    && (forall k :: k in s.srcOf ==> k in s.subs && k !in s.leaving && k in s.dst)
    && (forall k :: k in s.leaving ==>
          && k in s.src && s.src[k].open && k !in s.srcOf && k in s.dst
          && (s.leaving[k].Removing? <==> k in s.subs))
    && (forall k :: k in s.dst ==> k in s.src)
    && (forall k :: k in s.src && k !in s.dst ==> k in s.subs)
    && (forall k :: k in s.forwarders ==> k in s.dst && (s.dst[k].open <==> !s.forwarders[k].Exited?))
    && (forall k :: k in s.dst && k !in s.forwarders ==> s.dst[k].open)
  }

  predicate Adds(step: Step) {
    step.Store? || step.StartOffering? || step.Offer? || step.EndOffering?
  }

  predicate Forwards(step: Step) {
    step.Receive? || step.Forward? || step.Finish? || step.Consume?
  }

  predicate Leaves(step: Step) {
    step.TakeSource? || step.RemoveSource? || step.CloseSource?
  }

  lemma DisciplineStep(s: State, step: Step)
    requires Disciplined(s) && Enabled(s, step)
    ensures Disciplined(Apply(s, step))
  {
    if Adds(step) {
      DisciplineAdds(s, step);
    } else if step.Receive? {
      DisciplineReceive(s, step.k);
    } else if step.Forward? {
      DisciplineForward(s, step.k);
    } else if step.Finish? || step.Consume? {
      DisciplineDelivers(s, step);
    } else if Leaves(step) {
      DisciplineLeaves(s, step);
    } else {
      DisciplineMakes(s, step);
    }
  }

  lemma DisciplineAdds(s: State, step: Step)
    requires Disciplined(s) && Enabled(s, step) && Adds(step)
    ensures Disciplined(Apply(s, step))
  {
  }

  lemma DisciplineReceive(s: State, k: nat)
    requires Disciplined(s) && Enabled(s, Receive(k))
    ensures Disciplined(Apply(s, Receive(k)))
  {
  }

  lemma DisciplineForward(s: State, k: nat)
    requires Disciplined(s) && Enabled(s, Forward(k))
    ensures Disciplined(Apply(s, Forward(k)))
  {
  }

  lemma DisciplineDelivers(s: State, step: Step)
    requires Disciplined(s) && Enabled(s, step) && (step.Finish? || step.Consume?)
    ensures Disciplined(Apply(s, step))
  {
  }

  lemma DisciplineLeaves(s: State, step: Step)
    requires Disciplined(s) && Enabled(s, step) && Leaves(step)
    ensures Disciplined(Apply(s, step))
  {
  }

  lemma DisciplineMakes(s: State, step: Step)
    requires Disciplined(s) && Enabled(s, step) && !Adds(step) && !Forwards(step) && !Leaves(step)
    ensures Disciplined(Apply(s, step))
  {
  }

  /** The step sends on a channel that is closed or missing, or closes one that is closed. */
  predicate Misuses(s: State, step: Step) {
    match step
    case Offer(_, k) => k !in s.src || !s.src[k].open
    case Forward(k) => k !in s.dst || !s.dst[k].open
    case Finish(k) => k !in s.dst || !s.dst[k].open
    case CloseSource(k) => k !in s.src || !s.src[k].open
    case _ => false
  }

  /** That is what makes the server panic, and nothing else does. */
  lemma PanicsIff(s: State, step: Step)
    requires Enabled(s, step)
    ensures Apply(s, step).panicked <==> s.panicked || Misuses(s, step)
  {
  }

  /** In no run, whatever is interleaved, does anyone send on a closed channel or close a
      channel twice. */
  lemma {:induction false} NeverPanics(states: seq<State>, steps: seq<Step>, i: nat)
    requires IsRun(states, steps) && i < |states|
    ensures Disciplined(states[i]) && !states[i].panicked
  {
    if i > 0 {
      NeverPanics(states, steps, i - 1);
      DisciplineStep(states[i - 1], steps[i - 1]);
    }
  }

  /** Every step of every run uses channels that are open. */
  lemma NeverMisused(states: seq<State>, steps: seq<Step>, i: nat)
    requires IsRun(states, steps) && i < |steps|
    ensures !Misuses(states[i], steps[i])
  {
    NeverPanics(states, steps, i);
    UsesOpenChannels(states[i], steps[i]);
  }

  lemma UsesOpenChannels(s: State, step: Step)
    requires Disciplined(s) && Enabled(s, step)
    ensures !Misuses(s, step)
  {
  }

  predicate SourceClosed(s: State, k: nat) {
    k in s.src && !s.src[k].open
  }

  predicate ForwarderExited(s: State, k: nat) {
    k in s.forwarders && s.forwarders[k].Exited?
  }

  lemma ClosedStep(s: State, step: Step, k: nat)
    requires Enabled(s, step)
    ensures SourceClosed(s, k) ==> SourceClosed(Apply(s, step), k)
    ensures ForwarderExited(s, k) ==> ForwarderExited(Apply(s, step), k)
  {
  }

  lemma {:induction false} StaysClosed(states: seq<State>, steps: seq<Step>, i: nat, j: nat, k: nat)
    requires IsRun(states, steps) && i <= j < |states|
    ensures SourceClosed(states[i], k) ==> SourceClosed(states[j], k)
    ensures ForwarderExited(states[i], k) ==> ForwarderExited(states[j], k)
    decreases j - i
  {
    if i < j {
      StaysClosed(states, steps, i, j - 1, k);
      ClosedStep(states[j - 1], steps[j - 1], k);
    }
  }

  /** Each source and each destination is closed by at most one step of a run, however often
      Unsubscribe is called. */
  lemma ClosedOnce(states: seq<State>, steps: seq<Step>, i: nat, j: nat)
    requires IsRun(states, steps) && i < j < |steps|
    requires steps[i].CloseSource? || steps[i].Finish?
    ensures steps[j] != steps[i]
  {
    NeverPanics(states, steps, j);
    StaysClosed(states, steps, i + 1, j, steps[i].k);
  }

  // ---------------------------------------------------------------- what a subscriber gets

  /** `a` is what is left of `b` when some of its elements are struck out. */
  predicate IsSubsequence(a: seq<LogEntry>, b: seq<LogEntry>) {
    || a == []
    || (b != []
        && (|| (a[|a| - 1] == b[|b| - 1] && IsSubsequence(a[..|a| - 1], b[..|b| - 1]))
            || IsSubsequence(a, b[..|b| - 1])))
  }

  lemma SubsequenceExtends(a: seq<LogEntry>, b: seq<LogEntry>, e: LogEntry)
    requires IsSubsequence(a, b)
    ensures IsSubsequence(a, b + [e]) && IsSubsequence(a + [e], b + [e])
  {
    assert (b + [e])[..|b|] == b && (a + [e])[..|a|] == a;
  }

  lemma {:induction false} SubsequenceDrops(a: seq<LogEntry>, e: LogEntry, c: seq<LogEntry>, b: seq<LogEntry>)
    requires IsSubsequence(a + [e] + c, b)
    ensures IsSubsequence(a + c, b)
    decreases |b|
  {
    var whole := a + [e] + c;
    if a + c != [] {
      var front := b[..|b| - 1];
      if IsSubsequence(whole, front) {
        SubsequenceDrops(a, e, c, front);
      } else if c == [] {
        assert whole[..|whole| - 1] == a && a + c == a;
      } else {
        var d := c[..|c| - 1];
        assert whole[..|whole| - 1] == a + [e] + d;
        SubsequenceDrops(a, e, d, front);
        assert (a + c)[..|a + c| - 1] == a + d;
      }
    }
  }

  lemma {:induction false} SubsequencePrefix(a: seq<LogEntry>, c: seq<LogEntry>, b: seq<LogEntry>)
    requires IsSubsequence(a + c, b)
    ensures IsSubsequence(a, b)
  {
    if c == [] {
      assert a + c == a;
    } else {
      var d := c[..|c| - 1];
      assert a + c == a + d + [c[|c| - 1]] + [];
      SubsequenceDrops(a + d, c[|c| - 1], [], b);
      assert a + d + [] == a + d;
      SubsequencePrefix(a, d, b);
    }
  }

  function InHand(s: State, k: nat): seq<LogEntry> {
    if k in s.forwarders && s.forwarders[k].Holding? then [s.forwarders[k].e] else []
  }

  function DstBuf(s: State, k: nat): seq<LogEntry> {
    if k in s.dst then s.dst[k].buf else []
  }

  function SrcBuf(s: State, k: nat): seq<LogEntry> {
    if k in s.src then s.src[k].buf else []
  }

  /** Everything a subscriber has got or will get, in the order in which it arrives. */
  function Pipeline(s: State, k: nat): seq<LogEntry> {
    ReceivedBy(s, k) + DstBuf(s, k) + InHand(s, k) + SrcBuf(s, k)
  }

  /** Adds do not overlap: an entry is stored only when the previous one has been offered. */
  ghost predicate SequentialAdds(states: seq<State>, steps: seq<Step>)
    requires IsRun(states, steps)
  {
    forall i {:trigger steps[i]} :: 0 <= i < |steps| && steps[i].Store? ==> states[i].adders == map[]
  }

  /** The newest entry has not been offered to `k` yet. */
  ghost predicate AwaitsOffer(s: State, k: nat) {
    exists a :: a in s.adders && (s.adders[a].Stored? || k in s.adders[a].remaining)
  }

  ghost predicate OneAdder(s: State) {
    && (forall a, b :: a in s.adders && b in s.adders ==> a == b)
    && (forall a :: a in s.adders ==> s.history != [] && s.history[|s.history| - 1] == s.adders[a].e)
  }

  ghost predicate InOrder(s: State, k: nat) {
    if AwaitsOffer(s, k) then s.history != [] && IsSubsequence(Pipeline(s, k), s.history[..|s.history| - 1])
    else IsSubsequence(Pipeline(s, k), s.history)
  }

  lemma OneAdderStep(s: State, step: Step)
    requires OneAdder(s) && Enabled(s, step) && (step.Store? ==> s.adders == map[])
    ensures OneAdder(Apply(s, step))
  {
    if !Adds(step) {
      AddersFrame(s, step);
    }
  }

  lemma AddersFrame(s: State, step: Step)
    requires Enabled(s, step) && !Adds(step)
    ensures Apply(s, step).adders == s.adders && Apply(s, step).history == s.history
  {
  }

  lemma InOrderStep(s: State, step: Step, k: nat)
    requires Disciplined(s) && OneAdder(s) && InOrder(s, k) && Enabled(s, step) && (step.Store? ==> s.adders == map[])
    ensures InOrder(Apply(s, step), k)
  {
    var s' := Apply(s, step);
    if Adds(step) {
      InOrderAdds(s, step, k);
    } else {
      AddersFrame(s, step);
      assert AwaitsOffer(s', k) <==> AwaitsOffer(s, k);
      PipelineMoves(s, step, k, if AwaitsOffer(s, k) then s.history[..|s.history| - 1] else s.history);
    }
  }

  lemma InOrderAdds(s: State, step: Step, k: nat)
    requires Disciplined(s) && OneAdder(s) && InOrder(s, k) && Enabled(s, step) && Adds(step)
    requires step.Store? ==> s.adders == map[]
    ensures InOrder(Apply(s, step), k)
  {
    var s', p, h := Apply(s, step), Pipeline(s, k), s.history;
    if step.Offer? {
      InOrderOffer(s, step.a, step.k, k);
    } else {
      assert Pipeline(s', k) == p;
      match step
      case Store(a, e) =>
        assert s'.adders[a].Stored?;
        assert (h + [e])[..|h + [e]| - 1] == h;
      case StartOffering(a) =>
        assert s.adders[a].Stored?;
        LastOffered(p, h);
      case EndOffering(a) =>
        assert !AwaitsOffer(s, k);
    }
  }

  lemma InOrderOffer(s: State, a: nat, to: nat, k: nat)
    requires Disciplined(s) && OneAdder(s) && InOrder(s, k) && Enabled(s, Offer(a, to))
    ensures InOrder(Apply(s, Offer(a, to)), k)
  {
    OfferAwaits(s, a, to, k);
    var s', p, h := Apply(s, Offer(a, to)), Pipeline(s, k), s.history;
    if to == k {
      NewestOffered(p, h, s.adders[a].e);
      OfferedPipeline(s, a, k);
    } else {
      OfferElsewhere(s, a, to, k);
      assert Pipeline(s', k) == p;
    }
  }

  lemma NewestOffered(p: seq<LogEntry>, h: seq<LogEntry>, e: LogEntry)
    requires h != [] && h[|h| - 1] == e && IsSubsequence(p, h[..|h| - 1])
    ensures IsSubsequence(p, h) && IsSubsequence(p + [e], h)
  {
    SubsequenceExtends(p, h[..|h| - 1], e);
    assert h[..|h| - 1] + [e] == h;
  }

  lemma OfferElsewhere(s: State, a: nat, to: nat, k: nat)
    requires Enabled(s, Offer(a, to)) && to != k
    ensures SameStages(s, Apply(s, Offer(a, to)), k)
  {
  }

  lemma OfferAwaits(s: State, a: nat, to: nat, k: nat)
    requires Disciplined(s) && OneAdder(s) && Enabled(s, Offer(a, to))
    ensures var s' := Apply(s, Offer(a, to));
            && s'.history == s.history
            && (to == k ==> AwaitsOffer(s, k) && !AwaitsOffer(s', k))
            && (to != k ==> (AwaitsOffer(s', k) <==> AwaitsOffer(s, k)))
  {
    var s' := Apply(s, Offer(a, to));
    assert s'.adders == s.adders[a := Offering(s.adders[a].e, s.adders[a].remaining - {to})];
    assert AwaitsOffer(s, k) <==> k in s.adders[a].remaining;
    assert AwaitsOffer(s', k) <==> k in s'.adders[a].remaining;
  }

  lemma OfferedPipeline(s: State, a: nat, k: nat)
    requires Disciplined(s) && Enabled(s, Offer(a, k))
    ensures var s', p := Apply(s, Offer(a, k)), Pipeline(s, k);
            Pipeline(s', k) == p || Pipeline(s', k) == p + [s.adders[a].e]
  {
    var s' := Apply(s, Offer(a, k));
    assert k in s.src && s.src[k].open;
    assert SrcBuf(s', k) == SrcBuf(s, k) || SrcBuf(s', k) == SrcBuf(s, k) + [s.adders[a].e];
  }

  lemma LastOffered(p: seq<LogEntry>, h: seq<LogEntry>)
    requires h != [] && IsSubsequence(p, h[..|h| - 1])
    ensures IsSubsequence(p, h)
  {
  }

  /** Every other step moves the pipeline along, or strikes out the entry a forwarder holds. */
  lemma PipelineMoves(s: State, step: Step, k: nat, h: seq<LogEntry>)
    requires Disciplined(s) && Enabled(s, step) && !Adds(step) && IsSubsequence(Pipeline(s, k), h)
    ensures IsSubsequence(Pipeline(Apply(s, step), k), h)
  {
    var s' := Apply(s, step);
    if Forwards(step) && step.k == k {
      PipelineForwards(s, step, h);
    } else if Forwards(step) {
      PipelineElsewhere(s, step, k);
    } else {
      PipelineAside(s, step, k);
    }
  }

  lemma PipelineElsewhere(s: State, step: Step, k: nat)
    requires Enabled(s, step) && Forwards(step) && step.k != k
    ensures Pipeline(Apply(s, step), k) == Pipeline(s, k)
  {
    if step.Receive? {
      ReceiveElsewhere(s, step.k, k);
    } else if step.Forward? {
      ForwardElsewhere(s, step.k, k);
    } else {
      DeliversElsewhere(s, step, k);
    }
  }

  ghost predicate SameStages(s: State, s': State, k: nat) {
    && ReceivedBy(s', k) == ReceivedBy(s, k) && DstBuf(s', k) == DstBuf(s, k)
    && InHand(s', k) == InHand(s, k) && SrcBuf(s', k) == SrcBuf(s, k)
  }

  lemma ReceiveElsewhere(s: State, at: nat, k: nat)
    requires Enabled(s, Receive(at)) && at != k
    ensures SameStages(s, Apply(s, Receive(at)), k)
  {
  }

  lemma ForwardElsewhere(s: State, at: nat, k: nat)
    requires Enabled(s, Forward(at)) && at != k
    ensures SameStages(s, Apply(s, Forward(at)), k)
  {
  }

  lemma DeliversElsewhere(s: State, step: Step, k: nat)
    requires Enabled(s, step) && (step.Finish? || step.Consume?) && step.k != k
    ensures SameStages(s, Apply(s, step), k)
  {
  }

  lemma PipelineAside(s: State, step: Step, k: nat)
    requires Disciplined(s) && Enabled(s, step) && !Adds(step) && !Forwards(step)
    ensures Pipeline(Apply(s, step), k) == Pipeline(s, k)
  {
    var s' := Apply(s, step);
    assert DstBuf(s', k) == DstBuf(s, k) && InHand(s', k) == InHand(s, k) && SrcBuf(s', k) == SrcBuf(s, k);
  }

  lemma PipelineForwards(s: State, step: Step, h: seq<LogEntry>)
    requires Disciplined(s) && Enabled(s, step) && Forwards(step) && IsSubsequence(Pipeline(s, step.k), h)
    ensures IsSubsequence(Pipeline(Apply(s, step), step.k), h)
  {
    if step.Forward? {
      PipelineForward(s, step.k);
      var e, before := s.forwarders[step.k].e, ReceivedBy(s, step.k) + DstBuf(s, step.k);
      SubsequenceDrops(before, e, SrcBuf(s, step.k), h);
    } else {
      PipelineSame(s, step);
    }
  }

  lemma PipelineForward(s: State, k: nat)
    requires Disciplined(s) && Enabled(s, Forward(k))
    ensures var s', before := Apply(s, Forward(k)), ReceivedBy(s, k) + DstBuf(s, k);
            && Pipeline(s, k) == before + [s.forwarders[k].e] + SrcBuf(s, k)
            && (Pipeline(s', k) == Pipeline(s, k) || Pipeline(s', k) == before + SrcBuf(s, k))
  {
    var s', e := Apply(s, Forward(k)), s.forwarders[k].e;
    assert DstBuf(s', k) == DstBuf(s, k) || DstBuf(s', k) == DstBuf(s, k) + [e];
    assert SrcBuf(s', k) == SrcBuf(s, k) && InHand(s', k) == [] && ReceivedBy(s', k) == ReceivedBy(s, k);
  }

  lemma PipelineSame(s: State, step: Step)
    requires Disciplined(s) && Enabled(s, step) && Forwards(step) && !step.Forward?
    ensures Pipeline(Apply(s, step), step.k) == Pipeline(s, step.k)
  {
    var s', k := Apply(s, step), step.k;
    if step.Receive? {
      assert InHand(s, k) + SrcBuf(s, k) == InHand(s', k) + SrcBuf(s', k);
    } else if step.Consume? {
      assert ReceivedBy(s', k) + DstBuf(s', k) == ReceivedBy(s, k) + DstBuf(s, k);
    }
  }

  lemma {:induction false} InOrderAlways(states: seq<State>, steps: seq<Step>, i: nat, k: nat)
    requires IsRun(states, steps) && SequentialAdds(states, steps) && i < |states|
    ensures Disciplined(states[i]) && OneAdder(states[i]) && InOrder(states[i], k)
  {
    if i > 0 {
      InOrderAlways(states, steps, i - 1, k);
      NeverPanics(states, steps, i);
      OneAdderStep(states[i - 1], steps[i - 1]);
      InOrderStep(states[i - 1], steps[i - 1], k);
    }
  }

  /** With sequential Adds every subscriber has received, at every moment, a subsequence of
      the entries added: some may be missing, none is repeated, reordered or invented. */
  lemma ReceivesSubsequence(states: seq<State>, steps: seq<Step>, i: nat, k: nat)
    requires IsRun(states, steps) && SequentialAdds(states, steps) && i < |states|
    ensures IsSubsequence(ReceivedBy(states[i], k), states[i].history)
  {
    InOrderAlways(states, steps, i, k);
    var s := states[i];
    var rest := DstBuf(s, k) + InHand(s, k) + SrcBuf(s, k);
    assert Pipeline(s, k) == ReceivedBy(s, k) + rest;
    if AwaitsOffer(s, k) {
      SubsequencePrefix(ReceivedBy(s, k), rest, s.history[..|s.history| - 1]);
      LastOffered(ReceivedBy(s, k), s.history);
    } else {
      SubsequencePrefix(ReceivedBy(s, k), rest, s.history);
    }
  }

  // ---------------------------------------------------------------- nothing is lost but by overflow

  /** The entry that this step offers to `k`. */
  function OfferedBy(s: State, step: Step, k: nat): seq<LogEntry> {
    if step.Offer? && step.k == k && step.a in s.adders then [s.adders[step.a].e] else []
  }

  /** This step drops an entry for `k`, because a channel of it is full. */
  predicate Overflows(s: State, step: Step, k: nat) {
    || (step.Offer? && step.k == k && |SrcBuf(s, k)| >= CHANNEL_SIZE)
    || (step.Forward? && step.k == k && |DstBuf(s, k)| >= CHANNEL_SIZE)
  }

  lemma PipelineExact(s: State, step: Step, k: nat)
    requires Disciplined(s) && Enabled(s, step) && !Overflows(s, step, k)
    ensures Pipeline(Apply(s, step), k) == Pipeline(s, k) + OfferedBy(s, step, k)
  {
    var s', p := Apply(s, step), Pipeline(s, k);
    assert p + [] == p;
    if step.Offer? && step.k == k {
      OfferEnters(s, step.a, k);
    } else if step.Offer? {
      OfferElsewhere(s, step.a, step.k, k);
    } else if Adds(step) {
      AddsAside(s, step, k);
    } else if !Forwards(step) {
      PipelineAside(s, step, k);
    } else if step.k != k {
      PipelineElsewhere(s, step, k);
    } else if step.Forward? {
      ForwardEnters(s, k);
    } else {
      PipelineSame(s, step);
    }
  }

  lemma OfferEnters(s: State, a: nat, k: nat)
    requires Disciplined(s) && Enabled(s, Offer(a, k)) && |SrcBuf(s, k)| < CHANNEL_SIZE
    ensures Pipeline(Apply(s, Offer(a, k)), k) == Pipeline(s, k) + [s.adders[a].e]
  {
    var s' := Apply(s, Offer(a, k));
    assert k in s.src && s.src[k].open;
    assert SrcBuf(s', k) == SrcBuf(s, k) + [s.adders[a].e];
  }

  lemma AddsAside(s: State, step: Step, k: nat)
    requires Enabled(s, step) && Adds(step) && !step.Offer?
    ensures Pipeline(Apply(s, step), k) == Pipeline(s, k)
  {
  }

  lemma ForwardEnters(s: State, k: nat)
    requires Disciplined(s) && Enabled(s, Forward(k)) && |DstBuf(s, k)| < CHANNEL_SIZE
    ensures Pipeline(Apply(s, Forward(k)), k) == Pipeline(s, k)
  {
    var s', e := Apply(s, Forward(k)), s.forwarders[k].e;
    assert DstBuf(s', k) == DstBuf(s, k) + [e];
    assert SrcBuf(s', k) == SrcBuf(s, k) && InHand(s', k) == [] && ReceivedBy(s', k) == ReceivedBy(s, k);
  }

  /** The entries offered to `k` between two moments of a run, in order. */
  function OfferedTo(states: seq<State>, steps: seq<Step>, i: nat, j: nat, k: nat): seq<LogEntry>
    requires i <= j <= |steps| && |states| == |steps| + 1
  {
    if i == j then [] else OfferedTo(states, steps, i, j - 1, k) + OfferedBy(states[j - 1], steps[j - 1], k)
  }

  lemma GrowsBy(s: State, step: Step, k: nat, base: seq<LogEntry>, offered: seq<LogEntry>)
    requires Disciplined(s) && Enabled(s, step) && !Overflows(s, step, k) && Pipeline(s, k) == base + offered
    ensures Pipeline(Apply(s, step), k) == base + (offered + OfferedBy(s, step, k))
  {
    PipelineExact(s, step, k);
  }

  /** With adds in any interleaving: while no channel of a subscription overflows, what its
      subscriber has got or will get grows by exactly the entries offered to it, in order. */
  lemma {:induction false} NothingLostWithoutOverflow(states: seq<State>, steps: seq<Step>, i: nat, j: nat, k: nat)
    requires IsRun(states, steps) && i <= j < |states|
    requires forall m {:trigger steps[m]} :: i <= m < j ==> !Overflows(states[m], steps[m], k)
    ensures Pipeline(states[j], k) == Pipeline(states[i], k) + OfferedTo(states, steps, i, j, k)
    decreases j - i
  {
    if i < j {
      var before, step := states[j - 1], steps[j - 1];
      assert !Overflows(before, step, k);
      NothingLostWithoutOverflow(states, steps, i, j - 1, k);
      NeverPanics(states, steps, j - 1);
      GrowsBy(before, step, k, Pipeline(states[i], k), OfferedTo(states, steps, i, j - 1, k));
    }
  }

  // ---------------------------------------------------------------- everybody is offered everything

  /** The adder of step `i` has its entry in hand until step `j`, when it is done. */
  ghost predicate FansOut(states: seq<State>, steps: seq<Step>, i: nat, j: nat, a: nat) {
    && i < j < |steps| && |states| == |steps| + 1
    && steps[i] == StartOffering(a) && steps[j] == EndOffering(a)
    && forall m {:trigger steps[m]} :: i < m < j ==> steps[m] != EndOffering(a)
  }

  lemma OfferingStep(s: State, step: Step, a: nat)
    requires Enabled(s, step) && a in s.adders && s.adders[a].Offering? && step != EndOffering(a)
    ensures var s' := Apply(s, step);
            && a in s'.adders && s'.adders[a].Offering? && s'.adders[a].e == s.adders[a].e
            && (step.Offer? && step.a == a ==>
                  step.k in s.adders[a].remaining && s'.adders[a].remaining == s.adders[a].remaining - {step.k})
            && (!(step.Offer? && step.a == a) ==> s'.adders[a].remaining == s.adders[a].remaining)
  {
    if !Adds(step) {
      AddersFrame(s, step);
    }
  }

  /** Between its start and its end, an adder still has to offer its entry to exactly the
      subscribers of the start to which it has not offered it. */
  lemma {:induction false} StillToOffer(states: seq<State>, steps: seq<Step>, i: nat, j: nat, a: nat, m: nat, k: nat)
    requires IsRun(states, steps) && FansOut(states, steps, i, j, a) && i < m <= j
    ensures a in states[m].adders && states[m].adders[a].Offering?
    ensures a in states[i].adders && states[m].adders[a].e == states[i].adders[a].e
    ensures k in states[m].adders[a].remaining <==>
              k in states[i].subs && forall n {:trigger steps[n]} :: i < n < m ==> steps[n] != Offer(a, k)
    decreases m - i
  {
    assert Enabled(states[m - 1], steps[m - 1]) && states[m] == Apply(states[m - 1], steps[m - 1]);
    if m > i + 1 {
      StillToOffer(states, steps, i, j, a, m - 1, k);
      OfferingStep(states[m - 1], steps[m - 1], a);
    }
  }

  lemma OfferIsOwed(states: seq<State>, steps: seq<Step>, i: nat, j: nat, a: nat, k: nat, m: nat)
    requires IsRun(states, steps) && FansOut(states, steps, i, j, a) && i < m < j && steps[m] == Offer(a, k)
    ensures a in states[i].adders && k in states[i].subs
    ensures OfferedBy(states[m], steps[m], k) == [states[i].adders[a].e]
    ensures forall n {:trigger steps[n]} :: i < n < m ==> steps[n] != Offer(a, k)
  {
    StillToOffer(states, steps, i, j, a, m, k);
    assert Enabled(states[m], steps[m]);
  }

  /** Each subscriber of the moment at which the fan-out starts is offered the entry exactly once
      before it ends, and nobody else is offered it. */
  lemma OfferedExactlyOnce(states: seq<State>, steps: seq<Step>, i: nat, j: nat, a: nat, k: nat)
    requires IsRun(states, steps) && FansOut(states, steps, i, j, a)
    ensures k in states[i].subs <==> exists m {:trigger steps[m]} :: i < m < j && steps[m] == Offer(a, k)
    ensures forall m, n {:trigger steps[m], steps[n]} ::
              i < m < j && i < n < j && steps[m] == Offer(a, k) && steps[n] == Offer(a, k) ==> m == n
  {
    StillToOffer(states, steps, i, j, a, j, k);
    assert Enabled(states[j], steps[j]);
    forall m {:trigger steps[m]} | i < m < j && steps[m] == Offer(a, k)
      ensures k in states[i].subs && forall n {:trigger steps[n]} :: i < n < m ==> steps[n] != Offer(a, k)
    {
      OfferIsOwed(states, steps, i, j, a, k, m);
    }
  }

  lemma {:induction false} OfferedToSplits(states: seq<State>, steps: seq<Step>, i: nat, m: nat, j: nat, k: nat)
    requires i <= m <= j <= |steps| && |states| == |steps| + 1
    ensures OfferedTo(states, steps, i, j, k) == OfferedTo(states, steps, i, m, k) + OfferedTo(states, steps, m, j, k)
    decreases j
  {
    if m < j {
      OfferedToSplits(states, steps, i, m, j - 1, k);
    }
  }

  lemma OfferedAround(states: seq<State>, steps: seq<Step>, i: nat, m: nat, j: nat, k: nat, e: LogEntry)
    requires i <= m < j <= |steps| && |states| == |steps| + 1 && OfferedBy(states[m], steps[m], k) == [e]
    ensures OfferedTo(states, steps, i, j, k)
            == OfferedTo(states, steps, i, m, k) + [e] + OfferedTo(states, steps, m + 1, j, k)
  {
    OfferedToSplits(states, steps, i, m + 1, j, k);
  }

  lemma Appended(whole: seq<LogEntry>, base: seq<LogEntry>, before: seq<LogEntry>, e: LogEntry, after: seq<LogEntry>)
    requires whole == base + (before + [e] + after)
    ensures whole == base + before + [e] + after
  {
  }

  lemma TheOffer(states: seq<State>, steps: seq<Step>, i: nat, j: nat, a: nat, k: nat) returns (m: nat)
    requires IsRun(states, steps) && FansOut(states, steps, i, j, a) && k in states[i].subs
    ensures i < m < j && steps[m] == Offer(a, k)
    ensures a in states[i].adders && OfferedBy(states[m], steps[m], k) == [states[i].adders[a].e]
    ensures forall n {:trigger steps[n]} :: i < n < j && n != m ==> steps[n] != Offer(a, k)
  {
    OfferedExactlyOnce(states, steps, i, j, a, k);
    m :| i < m < j && steps[m] == Offer(a, k);
    OfferIsOwed(states, steps, i, j, a, k, m);
  }

  /** So while nothing overflows, a fan-out puts its entry into the pipeline of every subscriber
      once, among what other adders offer meanwhile. */
  lemma EntryArrivesOnce(states: seq<State>, steps: seq<Step>, i: nat, j: nat, a: nat, k: nat) returns (m: nat)
    requires IsRun(states, steps) && FansOut(states, steps, i, j, a) && k in states[i].subs
    requires forall n {:trigger steps[n]} :: i <= n < j ==> !Overflows(states[n], steps[n], k)
    ensures i < m < j && a in states[i].adders
    ensures Pipeline(states[j], k)
            == Pipeline(states[i], k) + OfferedTo(states, steps, i, m, k) + [states[i].adders[a].e]
               + OfferedTo(states, steps, m + 1, j, k)
    ensures forall n {:trigger steps[n]} :: i < n < j ==> (steps[n] == Offer(a, k) <==> n == m)
  {
    m := TheOffer(states, steps, i, j, a, k);
    OfferedAround(states, steps, i, m, j, k, states[i].adders[a].e);
    NothingLostWithoutOverflow(states, steps, i, j, k);
    Appended(Pipeline(states[j], k), Pipeline(states[i], k), OfferedTo(states, steps, i, m, k), states[i].adders[a].e,
             OfferedTo(states, steps, m + 1, j, k));
  }

  // ---------------------------------------------------------------- channels

  ghost predicate Bounded(s: State) {
    && (forall k :: k in s.src ==> |s.src[k].buf| <= 64)
    && (forall k :: k in s.dst ==> |s.dst[k].buf| <= 64)
  }

  lemma BoundedStep(s: State, step: Step)
    requires Bounded(s) && Enabled(s, step)
    ensures Bounded(Apply(s, step))
  {
    if Adds(step) {
      BoundedAdds(s, step);
    } else if Forwards(step) {
      BoundedForwards(s, step);
    } else {
      BoundedRest(s, step);
    }
  }

  lemma BoundedAdds(s: State, step: Step)
    requires Bounded(s) && Enabled(s, step) && Adds(step)
    ensures Bounded(Apply(s, step))
  {
  }

  lemma BoundedForwards(s: State, step: Step)
    requires Bounded(s) && Enabled(s, step) && Forwards(step)
    ensures Bounded(Apply(s, step))
  {
  }

  lemma BoundedRest(s: State, step: Step)
    requires Bounded(s) && Enabled(s, step) && !Adds(step) && !Forwards(step)
    ensures Bounded(Apply(s, step))
  {
  }

  lemma {:induction false} BoundedAlways(states: seq<State>, steps: seq<Step>, i: nat)
    requires IsRun(states, steps) && i < |states|
    ensures Bounded(states[i])
  {
    if i > 0 {
      BoundedAlways(states, steps, i - 1);
      BoundedStep(states[i - 1], steps[i - 1]);
    }
  }

  /** No channel ever holds more than 64 entries, and an entry is dropped only at one that does. */
  lemma DropsOnlyWhenFull(states: seq<State>, steps: seq<Step>, i: nat, k: nat)
    requires IsRun(states, steps) && i < |steps|
    ensures |SrcBuf(states[i], k)| <= 64 && |DstBuf(states[i], k)| <= 64
    ensures Pipeline(states[i + 1], k) != Pipeline(states[i], k) + OfferedBy(states[i], steps[i], k) ==>
              || (steps[i].Offer? && |SrcBuf(states[i], k)| == 64)
              || (steps[i].Forward? && |DstBuf(states[i], k)| == 64)
  {
    BoundedAlways(states, steps, i);
    NeverPanics(states, steps, i);
    assert states[i + 1] == Apply(states[i], steps[i]);
    if !Overflows(states[i], steps[i], k) {
      PipelineExact(states[i], steps[i], k);
    }
  }

  // ---------------------------------------------------------------- everything can get through

  /** A longer run. */
  ghost predicate Extends(states: seq<State>, steps: seq<Step>, states': seq<State>, steps': seq<Step>) {
    IsRun(states', steps') && states <= states' && steps <= steps'
  }

  lemma OneMore(states: seq<State>, steps: seq<Step>, step: Step) returns (states': seq<State>, steps': seq<Step>)
    requires IsRun(states, steps) && Enabled(states[|steps|], step)
    ensures Extends(states, steps, states', steps')
    ensures states'[|steps'|] == Apply(states[|steps|], step)
  {
    states', steps' := states + [Apply(states[|steps|], step)], steps + [step];
  }

  /** Whoever has stopped receiving found the source closed and empty, and so it stays. */
  ghost predicate Emptied(s: State) {
    forall k :: k in s.forwarders && (s.forwarders[k].Finishing? || s.forwarders[k].Exited?) ==>
      k in s.src && !s.src[k].open && s.src[k].buf == []
  }

  lemma EmptiedStep(s: State, step: Step)
    requires Disciplined(s) && Emptied(s) && Enabled(s, step)
    ensures Emptied(Apply(s, step))
  {
    if Adds(step) {
      EmptiedAdds(s, step);
    } else if Forwards(step) {
      EmptiedForwards(s, step);
    } else {
      EmptiedRest(s, step);
    }
  }

  lemma EmptiedAdds(s: State, step: Step)
    requires Disciplined(s) && Emptied(s) && Enabled(s, step) && Adds(step)
    ensures Emptied(Apply(s, step))
  {
    UsesOpenChannels(s, step);
  }

  lemma EmptiedForwards(s: State, step: Step)
    requires Emptied(s) && Enabled(s, step) && Forwards(step)
    ensures Emptied(Apply(s, step))
  {
    if step.Receive? {
      EmptiedReceive(s, step.k);
    } else {
      SourcesStay(s, step);
    }
  }

  lemma EmptiedReceive(s: State, k: nat)
    requires Emptied(s) && Enabled(s, Receive(k))
    ensures Emptied(Apply(s, Receive(k)))
  {
  }

  lemma SourcesStay(s: State, step: Step)
    requires Enabled(s, step) && Forwards(step) && !step.Receive?
    ensures Apply(s, step).src == s.src
    ensures forall k :: k in Apply(s, step).forwarders ==>
              k in s.forwarders
              && (Apply(s, step).forwarders[k] == s.forwarders[k] || Apply(s, step).forwarders[k].Receiving?
                  || s.forwarders[k].Finishing?)
  {
  }

  lemma EmptiedRest(s: State, step: Step)
    requires Disciplined(s) && Emptied(s) && Enabled(s, step) && !Adds(step) && !Forwards(step)
    ensures Emptied(Apply(s, step))
  {
  }

  lemma {:induction false} EmptiedAlways(states: seq<State>, steps: seq<Step>, i: nat)
    requires IsRun(states, steps) && i < |states|
    ensures Emptied(states[i])
  {
    if i > 0 {
      EmptiedAlways(states, steps, i - 1);
      NeverPanics(states, steps, i - 1);
      EmptiedStep(states[i - 1], steps[i - 1]);
    }
  }

  /** What `k` still has to read can be consumed. */
  lemma {:induction false} DstMayEmpty(states: seq<State>, steps: seq<Step>, k: nat)
    returns (states': seq<State>, steps': seq<Step>)
    requires IsRun(states, steps) && k in states[|steps|].dst
    ensures Extends(states, steps, states', steps')
    ensures var s, s' := states[|steps|], states'[|steps'|];
            && k in s'.dst && s'.dst[k] == s.dst[k].(buf := [])
            && s' == s.(dst := s'.dst, received := s'.received)
            && Pipeline(s', k) == Pipeline(s, k)
    decreases |states[|steps|].dst[k].buf|
  {
    states', steps' := states, steps;
    var s := states[|steps|];
    if s.dst[k].buf != [] {
      NeverPanics(states, steps, |steps|);
      PipelineSame(s, Consume(k));
      states', steps' := OneMore(states, steps, Consume(k));
      states', steps' := DstMayEmpty(states', steps', k);
    }
  }

  /** A subscription with its forwarder, seen from outside: nothing but its channels has moved. */
  ghost predicate Drains(s: State, s': State, k: nat) {
    && s'.subs == s.subs && s'.srcOf == s.srcOf && s'.leaving == s.leaving && s'.adders == s.adders
    && k in s.src && k in s'.src && s'.src[k].open == s.src[k].open && k in s'.dst && k in s'.forwarders
    && Pipeline(s', k) == Pipeline(s, k)
  }

  lemma ForwardDrains(s: State, k: nat)
    requires Disciplined(s) && Enabled(s, Forward(k)) && DstBuf(s, k) == []
    ensures var s' := Apply(s, Forward(k));
            Drains(s, s', k) && s'.forwarders[k].Receiving? && SrcBuf(s', k) == SrcBuf(s, k)
  {
    ForwardEnters(s, k);
  }

  lemma ReceiveDrains(s: State, k: nat)
    requires Disciplined(s) && k in s.forwarders && s.forwarders[k].Receiving? && SrcBuf(s, k) != []
    ensures Enabled(s, Receive(k))
    ensures var s' := Apply(s, Receive(k));
            Drains(s, s', k) && s'.forwarders[k].Holding? && |SrcBuf(s', k)| == |SrcBuf(s, k)| - 1
  {
    PipelineSame(s, Receive(k));
  }

  lemma OnlyReceived(s: State, k: nat)
    requires DstBuf(s, k) == [] && InHand(s, k) == [] && SrcBuf(s, k) == []
    ensures ReceivedBy(s, k) == Pipeline(s, k)
  {
  }

  lemma HandDrains(states: seq<State>, steps: seq<Step>, k: nat) returns (states': seq<State>, steps': seq<Step>)
    requires IsRun(states, steps) && k in states[|steps|].dst && k in states[|steps|].forwarders
    ensures Extends(states, steps, states', steps')
    ensures var s, s' := states[|steps|], states'[|steps'|];
            Drains(s, s', k) && !s'.forwarders[k].Holding? && SrcBuf(s', k) == SrcBuf(s, k)
            && (s.forwarders[k].Holding? || DstBuf(s', k) == [])
            && (!s.forwarders[k].Holding? ==> s'.forwarders[k] == s.forwarders[k])
  {
    NeverPanics(states, steps, |steps|);
    states', steps' := DstMayEmpty(states, steps, k);
    if states'[|steps'|].forwarders[k].Holding? {
      NeverPanics(states', steps', |steps'|);
      ForwardDrains(states'[|steps'|], k);
      states', steps' := OneMore(states', steps', Forward(k));
    }
  }

  lemma DrainsOn(s: State, s1: State, s2: State, k: nat)
    requires Drains(s, s1, k) && Drains(s1, s2, k)
    ensures Drains(s, s2, k)
  {
  }

  lemma StageDrains(states: seq<State>, steps: seq<Step>, k: nat) returns (states': seq<State>, steps': seq<Step>)
    requires IsRun(states, steps) && k in states[|steps|].dst && k in states[|steps|].forwarders
    ensures Extends(states, steps, states', steps')
    ensures var s, s' := states[|steps|], states'[|steps'|];
            Drains(s, s', k) && InHand(s', k) == [] && DstBuf(s', k) == [] && SrcBuf(s', k) == SrcBuf(s, k)
  {
    states', steps' := HandDrains(states, steps, k);
    var mid := states'[|steps'|];
    states', steps' := HandDrains(states', steps', k);
    DrainsOn(states[|steps|], mid, states'[|steps'|], k);
  }

  /** One more entry is read from the source. */
  lemma EntryDrains(states: seq<State>, steps: seq<Step>, k: nat) returns (states': seq<State>, steps': seq<Step>)
    requires IsRun(states, steps) && k in states[|steps|].dst && k in states[|steps|].forwarders
    requires InHand(states[|steps|], k) == [] && SrcBuf(states[|steps|], k) != []
    ensures Extends(states, steps, states', steps')
    ensures var s, s' := states[|steps|], states'[|steps'|];
            Drains(s, s', k) && |SrcBuf(s', k)| == |SrcBuf(s, k)| - 1
  {
    NeverPanics(states, steps, |steps|);
    EmptiedAlways(states, steps, |steps|);
    ReceiveDrains(states[|steps|], k);
    states', steps' := OneMore(states, steps, Receive(k));
  }

  /** Everything that was offered to a subscriber and not dropped can reach it. */
  lemma {:induction false} PipelineMayEmpty(states: seq<State>, steps: seq<Step>, k: nat)
    returns (states': seq<State>, steps': seq<Step>)
    requires IsRun(states, steps) && k in states[|steps|].dst && k in states[|steps|].forwarders
    ensures Extends(states, steps, states', steps')
    ensures var s, s' := states[|steps|], states'[|steps'|];
            Drains(s, s', k) && ReceivedBy(s', k) == Pipeline(s, k) && InHand(s', k) == [] && SrcBuf(s', k) == []
    decreases |SrcBuf(states[|steps|], k)|
  {
    var s := states[|steps|];
    states', steps' := StageDrains(states, steps, k);
    var s1 := states'[|steps'|];
    if SrcBuf(s1, k) == [] {
      OnlyReceived(s1, k);
    } else {
      states', steps' := EntryDrains(states', steps', k);
      var s2 := states'[|steps'|];
      DrainsOn(s, s1, s2, k);
      states', steps' := PipelineMayEmpty(states', steps', k);
      DrainsOn(s, s2, states'[|steps'|], k);
    }
  }

  /** The three steps of an Unsubscribe that finds its channel. */
  lemma SourceMayClose(states: seq<State>, steps: seq<Step>, k: nat) returns (states': seq<State>, steps': seq<Step>)
    requires IsRun(states, steps) && SubsFree(states[|steps|])
    requires k in states[|steps|].srcOf && k in states[|steps|].forwarders
    ensures Extends(states, steps, states', steps')
    ensures var s, s' := states[|steps|], states'[|steps'|];
            && k !in s'.subs && k in s'.src && !s'.src[k].open && k in s'.dst && k in s'.forwarders
            && Pipeline(s', k) == Pipeline(s, k)
  {
    NeverPanics(states, steps, |steps|);
    states', steps' := OneMore(states, steps, TakeSource(k));
    states', steps' := OneMore(states', steps', RemoveSource(k));
    states', steps' := OneMore(states', steps', CloseSource(k));
  }

  lemma ForwarderMayExit(states: seq<State>, steps: seq<Step>, k: nat) returns (states': seq<State>, steps': seq<Step>)
    requires IsRun(states, steps) && k in states[|steps|].src && k in states[|steps|].dst && k in states[|steps|].forwarders
    requires !states[|steps|].src[k].open && SrcBuf(states[|steps|], k) == [] && InHand(states[|steps|], k) == []
    ensures Extends(states, steps, states', steps')
    ensures var s, s' := states[|steps|], states'[|steps'|];
            && ForwarderExited(s', k) && k in s'.dst && !s'.dst[k].open
            && s'.subs == s.subs && ReceivedBy(s', k) == ReceivedBy(s, k)
  {
    states', steps' := states, steps;
    if states'[|steps'|].forwarders[k].Receiving? {
      states', steps' := OneMore(states', steps', Receive(k));
    }
    if states'[|steps'|].forwarders[k].Finishing? {
      states', steps' := OneMore(states', steps', Finish(k));
    }
    NeverPanics(states', steps', |steps'|);
  }

  /** Unless an entry is just being offered, a subscription can end: its subscriber gets what was
      not dropped, its forwarder exits, and its channels are closed. */
  lemma SubscriptionMayEnd(states: seq<State>, steps: seq<Step>, k: nat) returns (states': seq<State>, steps': seq<Step>)
    requires IsRun(states, steps) && SubsFree(states[|steps|])
    requires k in states[|steps|].srcOf && k in states[|steps|].forwarders
    ensures Extends(states, steps, states', steps')
    ensures var s, s' := states[|steps|], states'[|steps'|];
            && k !in s'.subs && ForwarderExited(s', k) && k in s'.dst && !s'.dst[k].open
            && ReceivedBy(s', k) == Pipeline(s, k)
  {
    states', steps' := SourceMayClose(states, steps, k);
    states', steps' := PipelineMayEmpty(states', steps', k);
    states', steps' := ForwarderMayExit(states', steps', k);
  }

  /** A new subscription: source, destination and forwarder; it is a subscriber at once. */
  lemma SubscriptionMayBegin(states: seq<State>, steps: seq<Step>, k: nat)
    returns (states': seq<State>, steps': seq<Step>)
    requires IsRun(states, steps) && SubsFree(states[|steps|]) && k !in states[|steps|].src
    ensures Extends(states, steps, states', steps')
    ensures var s, s' := states[|steps|], states'[|steps'|];
            && s'.subs == s.subs + {k} && k in s'.srcOf && k in s'.forwarders && s'.forwarders[k].Receiving?
            && SrcBuf(s', k) == [] && DstBuf(s', k) == []
  {
    NeverPanics(states, steps, |steps|);
    states', steps' := OneMore(states, steps, MakeSource(k));
    states', steps' := OneMore(states', steps', MakeDestination(k));
    states', steps' := OneMore(states', steps', StartForwarding(k));
  }

  /** An adder can always offer its entry to everybody it still owes it, and finish. */
  lemma {:induction false} FanOutMayEnd(states: seq<State>, steps: seq<Step>, a: nat)
    returns (states': seq<State>, steps': seq<Step>)
    requires IsRun(states, steps) && a in states[|steps|].adders && states[|steps|].adders[a].Offering?
    ensures Extends(states, steps, states', steps')
    ensures states'[|steps'|].adders == states[|steps|].adders - {a}
    decreases |states[|steps|].adders[a].remaining|
  {
    var s := states[|steps|];
    if s.adders[a].remaining == {} {
      states', steps' := OneMore(states, steps, EndOffering(a));
    } else {
      var k :| k in s.adders[a].remaining;
      states', steps' := OneMore(states, steps, Offer(a, k));
      states', steps' := FanOutMayEnd(states', steps', a);
    }
  }
}
