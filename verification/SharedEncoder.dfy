/**
 Many goroutines sharing one encoder. The lock is taken for a whole message; the writer
 below may take the header and the payload in pieces of any size, and the other goroutines
 run in between. Writes are assumed to succeed.
 (internal/protocol/codec.go)
 */
module SharedEncoder {
  import opened Wrappers
  import opened Codec

  type Sender = nat

  /** The goroutine that holds the lock and how many bytes of its frame are out. */
  datatype Holder = Holder(who: Sender, message: Message, written: nat)

  datatype State = State(
    out: seq<byte>,
    sent: seq<(Sender, Message)>,              // finished messages, in the order of the lock
    holder: Option<Holder>,
    queues: map<Sender, seq<Message>>)         // what each goroutine still has to send

  datatype Step =
    | Lock(who: Sender)
    | WritePart(n: nat)
    | Unlock

  /** A write call stays within the header or within the payload. */
  predicate Enabled(s: State, step: Step) {
    match step
    case Lock(who) => s.holder.None? && who in s.queues && s.queues[who] != []
    case WritePart(n) =>
      && s.holder.Some? && n > 0
      && var h := s.holder.value;
         if h.written < HEADER_SIZE then h.written + n <= HEADER_SIZE
         else h.written + n <= |Frame(h.message)|
    case Unlock => s.holder.Some? && s.holder.value.written == |Frame(s.holder.value.message)|
  }

  function Apply(s: State, step: Step): State
    requires Enabled(s, step)
  {
    match step
    case Lock(who) =>
      s.(holder := Some(Holder(who, s.queues[who][0], 0)), queues := s.queues[who := s.queues[who][1..]])
    case WritePart(n) =>
      var h := s.holder.value;
      s.(out := s.out + Frame(h.message)[h.written..h.written + n],
         holder := Some(h.(written := h.written + n)))
    case Unlock =>
      s.(sent := s.sent + [(s.holder.value.who, s.holder.value.message)], holder := None)
  }

  ghost predicate IsRun(programs: map<Sender, seq<Message>>, states: seq<State>, steps: seq<Step>) {
    && |states| == |steps| + 1
    && states[0] == State([], [], None, programs)
    && (forall who :: who in programs ==> AllFit(programs[who]))
    && forall i {:trigger steps[i]} :: 0 <= i < |steps| ==>
         Enabled(states[i], steps[i]) && states[i + 1] == Apply(states[i], steps[i])
  }

  function Messages(log: seq<(Sender, Message)>): seq<Message> {
    if log == [] then [] else [log[0].1] + Messages(log[1..])
  }

  /** The messages of one goroutine, in the order in which they went out. */
  function SentBy(log: seq<(Sender, Message)>, who: Sender): seq<Message> {
    if log == [] then []
    else (if log[0].0 == who then [log[0].1] else []) + SentBy(log[1..], who)
  }

  lemma {:induction false} LogGrows(log: seq<(Sender, Message)>, entry: (Sender, Message), who: Sender)
    ensures Messages(log + [entry]) == Messages(log) + [entry.1]
    ensures SentBy(log + [entry], who) == SentBy(log, who) + if entry.0 == who then [entry.1] else []
  {
    if log == [] {
      assert log + [entry] == [entry] && [entry][1..] == [];
    } else {
      assert (log + [entry])[1..] == log[1..] + [entry];
      LogGrows(log[1..], entry, who);
    }
  }

  /** The part of the lock holder's frame that is out. */
  function Partial(s: State): seq<byte> {
    match s.holder
    case None => []
    case Some(h) => if h.written <= |Frame(h.message)| then Frame(h.message)[..h.written] else []
  }

  function InHand(s: State, who: Sender): seq<Message> {
    if s.holder.Some? && s.holder.value.who == who then [s.holder.value.message] else []
  }

  ghost predicate Inv(programs: map<Sender, seq<Message>>, s: State) {
    && s.out == Frames(Messages(s.sent)) + Partial(s)
    && s.queues.Keys == programs.Keys
    && (s.holder.Some? ==> s.holder.value.who in programs && s.holder.value.written <= |Frame(s.holder.value.message)|)
    && (forall i :: 0 <= i < |s.sent| ==> s.sent[i].0 in programs)
    && (forall who :: who in programs ==> SentBy(s.sent, who) + InHand(s, who) + s.queues[who] == programs[who])
  }

  lemma InvStep(programs: map<Sender, seq<Message>>, s: State, step: Step)
    requires Inv(programs, s) && Enabled(s, step)
    ensures Inv(programs, Apply(s, step))
  {
    match step
    case Lock(who) => InvLock(programs, s, who);
    case WritePart(n) => InvWrite(programs, s, n);
    case Unlock => InvUnlock(programs, s);
  }

  lemma PrefixGrows(f: seq<byte>, i: nat, j: nat)
    requires i <= j <= |f|
    ensures f[..i] + f[i..j] == f[..j]
  {
  }

  lemma InvWrite(programs: map<Sender, seq<Message>>, s: State, n: nat)
    requires Inv(programs, s) && Enabled(s, WritePart(n))
    ensures Inv(programs, Apply(s, WritePart(n)))
  {
    var s', h := Apply(s, WritePart(n)), s.holder.value;
    PrefixGrows(Frame(h.message), h.written, h.written + n);
    assert Partial(s') == Frame(h.message)[..h.written + n];
    assert forall who :: InHand(s', who) == InHand(s, who);
  }

  lemma InvLock(programs: map<Sender, seq<Message>>, s: State, who: Sender)
    requires Inv(programs, s) && Enabled(s, Lock(who))
    ensures Inv(programs, Apply(s, Lock(who)))
  {
    var s' := Apply(s, Lock(who));
    assert s.out + [] == s.out;
    forall other | other in programs
      ensures SentBy(s'.sent, other) + InHand(s', other) + s'.queues[other] == programs[other]
    {
      var before := SentBy(s.sent, other);
      assert before + InHand(s, other) == before;
      if other == who {
        assert [s.queues[who][0]] + s.queues[who][1..] == s.queues[who];
        assert before + InHand(s', who) + s'.queues[who] == before + (InHand(s', who) + s'.queues[who]);
      }
    }
  }

  lemma InvUnlock(programs: map<Sender, seq<Message>>, s: State)
    requires Inv(programs, s) && Enabled(s, Unlock)
    ensures Inv(programs, Apply(s, Unlock))
  {
    var s', h := Apply(s, Unlock), s.holder.value;
    LogGrows(s.sent, (h.who, h.message), h.who);
    FramesConcat(Messages(s.sent), [h.message]);
    assert Frames([h.message]) == Frame(h.message) + Frames([]) == Frame(h.message);
    assert Partial(s) == Frame(h.message);
    forall who | who in programs
      ensures SentBy(s'.sent, who) + InHand(s', who) + s'.queues[who] == programs[who]
    {
      LogGrows(s.sent, (h.who, h.message), who);
      assert SentBy(s'.sent, who) == SentBy(s.sent, who) + InHand(s, who);
      assert SentBy(s'.sent, who) + [] == SentBy(s'.sent, who);
    }
  }

  lemma {:induction false} InvAlways(programs: map<Sender, seq<Message>>, states: seq<State>, steps: seq<Step>, i: nat)
    requires IsRun(programs, states, steps) && i < |states|
    ensures Inv(programs, states[i])
  {
    if i > 0 {
      InvAlways(programs, states, steps, i - 1);
      InvStep(programs, states[i - 1], steps[i - 1]);
    }
  }

  lemma {:induction false} SentFits(log: seq<(Sender, Message)>, programs: map<Sender, seq<Message>>)
    requires forall i :: 0 <= i < |log| ==> log[i].0 in programs && AllFit(SentBy(log, log[i].0))
    ensures AllFit(Messages(log))
  {
    if log != [] {
      assert SentBy(log, log[0].0)[0] == log[0].1;
      forall i | 0 <= i < |log[1..]|
        ensures log[1..][i].0 in programs && AllFit(SentBy(log[1..], log[1..][i].0))
      {
        var who := log[1..][i].0;
        assert who == log[i + 1].0;
        var head := if log[0].0 == who then [log[0].1] else [];
        assert SentBy(log, who) == head + SentBy(log[1..], who);
        forall k | 0 <= k < |SentBy(log[1..], who)|
          ensures |SentBy(log[1..], who)[k].payload| <= MAX_MESSAGE_SIZE
        {
          assert SentBy(log, who)[|head| + k] == SentBy(log[1..], who)[k];
        }
      }
      SentFits(log[1..], programs);
    }
  }

  lemma AllFitPart(a: seq<Message>, b: seq<Message>, c: seq<Message>)
    requires AllFit(a + b + c)
    ensures AllFit(a) && AllFit(b)
  {
    assert forall i :: 0 <= i < |a| ==> a[i] == (a + b + c)[i];
    assert forall i :: 0 <= i < |b| ==> b[i] == (a + b + c)[|a| + i];
  }

  // ---------------------------------------------------------------- main results

  /** At every moment of every schedule, the output is the frames of the finished messages
      and then part of the lock holder's frame. A decoder therefore gets exactly the finished
      messages, in the order of the lock, and waits inside the holder's frame. */
  lemma DecoderSeesWholeMessages(programs: map<Sender, seq<Message>>, states: seq<State>, steps: seq<Step>, i: nat)
    requires IsRun(programs, states, steps) && i < |states|
    ensures var s := states[i];
            && s.out == Frames(Messages(s.sent)) + Partial(s)
            && (s.holder.Some? ==>
                  var h := s.holder.value;
                  h.written <= |Frame(h.message)| && Partial(s) == Frame(h.message)[..h.written])
            && ((s.holder.Some? ==> s.holder.value.written < |Frame(s.holder.value.message)|) ==>
                  DecodeAll(s.out) == (Messages(s.sent), Partial(s)))
  {
    InvAlways(programs, states, steps, i);
    var s := states[i];
    forall k | 0 <= k < |s.sent|
      ensures AllFit(SentBy(s.sent, s.sent[k].0))
    {
      var who := s.sent[k].0;
      AllFitPart(SentBy(s.sent, who), InHand(s, who), s.queues[who]);
    }
    SentFits(s.sent, programs);
    if s.holder.None? {
      DecodeAllInverts(Messages(s.sent), []);
    } else if s.holder.value.written < |Frame(s.holder.value.message)| {
      var h := s.holder.value;
      AllFitPart(SentBy(s.sent, h.who), InHand(s, h.who), s.queues[h.who]);
      assert InHand(s, h.who)[0] == h.message;
      StrictPrefixRejected(h.message, h.written);
      DecodeAllInverts(Messages(s.sent), Partial(s));
    }
  }

  /** When everybody is done, the decoder has received a serialisation of all programs: each
      goroutine's messages, each exactly once and in its own order. */
  lemma EveryMessageOnce(programs: map<Sender, seq<Message>>, states: seq<State>, steps: seq<Step>, i: nat)
    requires IsRun(programs, states, steps) && i < |states|
    requires states[i].holder.None? && forall who :: who in states[i].queues ==> states[i].queues[who] == []
    ensures DecodeAll(states[i].out) == (Messages(states[i].sent), [])
    ensures forall who :: who in programs ==> SentBy(states[i].sent, who) == programs[who]
    ensures forall k :: 0 <= k < |states[i].sent| ==> states[i].sent[k].0 in programs
  {
    DecoderSeesWholeMessages(programs, states, steps, i);
    InvAlways(programs, states, steps, i);
    forall who | who in programs
      ensures SentBy(states[i].sent, who) == programs[who]
    {
      assert SentBy(states[i].sent, who) + [] + [] == SentBy(states[i].sent, who);
    }
  }

  // ---------------------------------------------------------------- nobody waits for ever

  /** A longer run of the same programs. */
  ghost predicate Extends(programs: map<Sender, seq<Message>>, states: seq<State>, steps: seq<Step>,
                          states': seq<State>, steps': seq<Step>)
  {
    IsRun(programs, states', steps') && states <= states' && steps <= steps'
  }

  lemma OneMore(programs: map<Sender, seq<Message>>, states: seq<State>, steps: seq<Step>, step: Step)
    returns (states': seq<State>, steps': seq<Step>)
    requires IsRun(programs, states, steps) && Enabled(states[|steps|], step)
    ensures Extends(programs, states, steps, states', steps')
    ensures states'[|steps'|] == Apply(states[|steps|], step)
  {
    states', steps' := states + [Apply(states[|steps|], step)], steps + [step];
  }

  /** The holder of the lock can write what is left of its frame, at most two parts, and leave. */
  lemma HolderMayLeave(programs: map<Sender, seq<Message>>, states: seq<State>, steps: seq<Step>)
    returns (states': seq<State>, steps': seq<Step>)
    requires IsRun(programs, states, steps)
    ensures Extends(programs, states, steps, states', steps')
    ensures states'[|steps'|].holder.None? && states'[|steps'|].queues == states[|steps|].queues
  {
    states', steps' := states, steps;
    if states'[|steps'|].holder.Some? {
      InvAlways(programs, states, steps, |steps|);
      var m := states'[|steps'|].holder.value.message;
      if states'[|steps'|].holder.value.written < 6 {
        states', steps' := OneMore(programs, states', steps', WritePart(6 - states'[|steps'|].holder.value.written));
      }
      if states'[|steps'|].holder.value.written < |Frame(m)| {
        states', steps' := OneMore(programs, states', steps', WritePart(|Frame(m)| - states'[|steps'|].holder.value.written));
      }
      states', steps' := OneMore(programs, states', steps', Unlock);
    }
  }

  lemma {:induction false} QueueMayEmpty(programs: map<Sender, seq<Message>>, states: seq<State>, steps: seq<Step>, who: Sender)
    returns (states': seq<State>, steps': seq<Step>)
    requires IsRun(programs, states, steps) && states[|steps|].holder.None? && who in states[|steps|].queues
    ensures Extends(programs, states, steps, states', steps')
    ensures states'[|steps'|].holder.None? && states'[|steps'|].queues == states[|steps|].queues[who := []]
    decreases |states[|steps|].queues[who]|
  {
    states', steps' := states, steps;
    if states[|steps|].queues[who] != [] {
      states', steps' := OneMore(programs, states', steps', Lock(who));
      states', steps' := HolderMayLeave(programs, states', steps');
      states', steps' := QueueMayEmpty(programs, states', steps', who);
    }
  }

  ghost function Waiting(s: State): set<Sender> {
    set who | who in s.queues && s.queues[who] != []
  }

  /** From every moment of every schedule there is a way on in which everybody sends everything. */
  lemma {:induction false} EverybodyMayFinish(programs: map<Sender, seq<Message>>, states: seq<State>, steps: seq<Step>)
    returns (states': seq<State>, steps': seq<Step>)
    requires IsRun(programs, states, steps)
    ensures Extends(programs, states, steps, states', steps')
    ensures states'[|steps'|].holder.None?
    ensures forall who :: who in states'[|steps'|].queues ==> states'[|steps'|].queues[who] == []
    decreases |Waiting(states[|steps|])|
  {
    states', steps' := HolderMayLeave(programs, states, steps);
    if who :| who in Waiting(states'[|steps'|]) {
      var before := states'[|steps'|];
      states', steps' := QueueMayEmpty(programs, states', steps', who);
      assert Waiting(states'[|steps'|]) == Waiting(before) - {who};
      states', steps' := EverybodyMayFinish(programs, states', steps');
    } else {
      assert Waiting(states'[|steps'|]) == {};
      assert forall other :: other in states'[|steps'|].queues && states'[|steps'|].queues[other] != [] ==>
               other in Waiting(states'[|steps'|]);
    }
  }
}
