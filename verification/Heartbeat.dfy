/**
 The heartbeat of a client against the idle timer of the server, in real time (seconds).
 The control stream keeps its order in both directions. A tick of the client and the timer of
 the server are acted on at most `lag` seconds after they are due; everything else takes as
 long as it takes.
 (internal/client/reconnect.go, internal/server/server.go)
 */
module Heartbeat {
  const HEARTBEAT_INTERVAL := 30.0
  const MAX_HEARTBEAT_MISSES := 3
  const IDLE_TIMEOUT := 90.0

  /** What the server sends, and when it did: an acknowledgement or a request log. */
  datatype Reply = Ack(sent: real) | Log(sent: real)

  datatype State = State(
    now: real,
    clientUp: bool,
    misses: nat,
    nextTick: real,
    lastAck: real,          // when the misses were last zeroed
    up: seq<real>,          // heartbeats on their way, by the time they were sent
    down: seq<Reply>,
    serverUp: bool,
    lastReset: real)        // when the idle timer was last reset

  datatype Step =
    | Delay(to: real)
    | ClientTick
    | ServerReceive
    | ServerLog
    | ClientReceive
    | IdleTimeout

  predicate Enabled(lag: real, s: State, step: Step) {
    match step
    case Delay(to) =>
      && s.now <= to
      && (s.clientUp ==> to <= s.nextTick + lag)
      && (s.serverUp ==> to <= s.lastReset + IDLE_TIMEOUT + lag)
    case ClientTick => s.clientUp && s.now >= s.nextTick
    case ServerReceive => s.serverUp && s.up != []
    case ServerLog => s.serverUp
    case ClientReceive => s.clientUp && s.down != []
    case IdleTimeout => s.serverUp && s.now >= s.lastReset + IDLE_TIMEOUT
  }

  function Apply(s: State, step: Step): State
    requires step.ServerReceive? ==> s.up != []
    requires step.ClientReceive? ==> s.down != []
  {
    match step
    case Delay(to) => s.(now := to)
    case ClientTick =>
      s.(up := s.up + [s.now], misses := s.misses + 1, nextTick := s.nextTick + HEARTBEAT_INTERVAL,
         clientUp := s.misses + 1 < MAX_HEARTBEAT_MISSES)
    case ServerReceive => s.(up := s.up[1..], lastReset := s.now, down := s.down + [Ack(s.now)])
    case ServerLog => s.(down := s.down + [Log(s.now)])
    case ClientReceive =>
      var s' := s.(down := s.down[1..]);
      if s.down[0].Ack? then s'.(misses := 0, lastAck := s.now) else s'
    case IdleTimeout => s.(serverUp := false)
  }

  /** The heartbeat starts when the answer to the tunnel request has arrived; reading that
      request reset the server's timer, less than 30 seconds ago. */
  predicate Start(s: State) {
    && s.clientUp && s.serverUp && s.misses == 0 && s.up == [] && s.down == []
    && s.nextTick == s.now + HEARTBEAT_INTERVAL && s.lastAck == s.now
    && s.lastReset <= s.now < s.lastReset + 30.0
  }

  ghost predicate IsRun(lag: real, states: seq<State>, steps: seq<Step>) {
    && 0.0 <= lag < HEARTBEAT_INTERVAL
    && |states| == |steps| + 1
    && Start(states[0])
    && forall i {:trigger steps[i]} :: 0 <= i < |steps| ==>
         Enabled(lag, states[i], steps[i]) && states[i + 1] == Apply(states[i], steps[i])
  }

  /** Nothing on its way is `bound` seconds old. */
  ghost predicate Fresh(s: State, bound: real) {
    && (forall i :: 0 <= i < |s.up| ==> s.now < s.up[i] + bound)
    && (forall i :: 0 <= i < |s.down| ==> s.now < s.down[i].sent + bound)
  }

  /** Every message is delivered and processed in less than `bound` seconds. */
  ghost predicate Timely(states: seq<State>, bound: real) {
    forall i :: 0 <= i < |states| ==> Fresh(states[i], bound)
  }

  // ---------------------------------------------------------------- prompt delivery keeps both ends up

  function LastTick(s: State): real {
    s.nextTick - HEARTBEAT_INTERVAL
  }

  ghost predicate AckComing(s: State, latest: real) {
    exists i :: 0 <= i < |s.down| && s.down[i].Ack? && s.down[i].sent <= latest
  }

  ghost predicate Healthy(lag: real, s: State) {
    && s.clientUp && s.serverUp
    && LastTick(s) <= s.now <= s.nextTick + lag
    && (s.up == [] || (|s.up| == 1 && s.up[0] <= LastTick(s) + lag))
    && s.misses <= 2
    && (s.misses == 1 ==> s.up != [] || AckComing(s, s.now))
    && (s.misses == 2 ==> AckComing(s, LastTick(s) + lag))
    && s.lastReset > LastTick(s) - 60.0
    && (s.up == [] ==> s.lastReset > LastTick(s) - 30.0)
  }

  lemma HealthyHasTime(lag: real, s: State)
    requires 0.0 <= lag < 30.0 && Healthy(lag, s) && Fresh(s, 30.0 - lag)
    ensures s.now < s.lastReset + IDLE_TIMEOUT
    ensures s.now >= s.nextTick ==> s.up == [] && s.misses < 2
  {
    if s.up != [] {
      assert s.now < s.up[0] + (30.0 - lag);
    }
  }

  lemma HealthyStep(lag: real, s: State, step: Step)
    requires 0.0 <= lag < 30.0 && Healthy(lag, s) && Fresh(s, 30.0 - lag) && Enabled(lag, s, step)
    ensures Healthy(lag, Apply(s, step))
  {
    HealthyHasTime(lag, s);
    var s' := Apply(s, step);
    match step
    case Delay(_) =>
      RepliesKept(s, s', LastTick(s) + lag);
      RepliesKept(s, s', s.now);
    case ClientTick =>
      RepliesKept(s, s', s.now);
    case ServerReceive =>
      assert s'.down[|s.down|] == Ack(s.now);
      RepliesKept(s, s', LastTick(s) + lag);
    case ServerLog =>
      RepliesKept(s, s', LastTick(s) + lag);
      RepliesKept(s, s', s.now);
    case ClientReceive =>
      if s.down[0].Log? {
        RestKept(s, s', LastTick(s) + lag);
        RestKept(s, s', s.now);
      }
    case IdleTimeout =>
  }

  lemma RepliesKept(s: State, s': State, latest: real)
    requires s.down <= s'.down
    ensures AckComing(s, latest) ==> AckComing(s', latest)
  {
    if AckComing(s, latest) {
      var i :| 0 <= i < |s.down| && s.down[i].Ack? && s.down[i].sent <= latest;
      assert s'.down[i] == s.down[i];
    }
  }

  lemma RestKept(s: State, s': State, latest: real)
    requires s.down != [] && s.down[0].Log? && s'.down == s.down[1..]
    ensures AckComing(s, latest) ==> AckComing(s', latest)
  {
    if AckComing(s, latest) {
      var i :| 0 <= i < |s.down| && s.down[i].Ack? && s.down[i].sent <= latest;
      assert s'.down[i - 1] == s.down[i];
    }
  }

  lemma {:induction false} HealthyAlways(lag: real, states: seq<State>, steps: seq<Step>, i: nat)
    requires IsRun(lag, states, steps) && Timely(states, 30.0 - lag) && i < |states|
    ensures Healthy(lag, states[i])
  {
    if i > 0 {
      HealthyAlways(lag, states, steps, i - 1);
      HealthyStep(lag, states[i - 1], steps[i - 1]);
    }
  }

  /** If every message is processed in under 30 seconds less the lag of the timers, the client
      never counts three misses and the server's idle timer never comes due. */
  lemma PromptDeliveryKeepsSession(lag: real, states: seq<State>, steps: seq<Step>, i: nat)
    requires IsRun(lag, states, steps) && Timely(states, 30.0 - lag) && i < |states|
    ensures states[i].clientUp && states[i].misses < MAX_HEARTBEAT_MISSES
    ensures states[i].serverUp && states[i].now < states[i].lastReset + IDLE_TIMEOUT
    ensures i < |steps| ==> steps[i] != IdleTimeout
  {
    HealthyAlways(lag, states, steps, i);
    HealthyHasTime(lag, states[i]);
  }

  /** With timers that are punctual the bound cannot be raised, however little: with any larger
      one there is a run in which the client gives up although nothing is lost. */
  lemma ThirtySecondsAreTooMany(bound: real)
    requires bound > 30.0
    ensures exists states: seq<State>, steps: seq<Step> :: IsRun(0.0, states, steps) && Timely(states, bound) && !states[|states| - 1].clientUp
  {
    var start := State(0.0, true, 0, 30.0, 0.0, [], [], true, 0.0);
    var states, steps := [start], [];
    assert IsRun(0.0, states, steps) && Timely(states, bound);
    states, steps := OneMore(states, steps, Delay(30.0), bound);
    states, steps := OneMore(states, steps, ClientTick, bound);
    states, steps := OneMore(states, steps, Delay(60.0), bound);
    states, steps := OneMore(states, steps, ServerReceive, bound);
    states, steps := OneMore(states, steps, ClientTick, bound);
    states, steps := OneMore(states, steps, Delay(90.0), bound);
    states, steps := OneMore(states, steps, ClientTick, bound);
    assert !states[|states| - 1].clientUp;
  }

  lemma OneMore(states: seq<State>, steps: seq<Step>, step: Step, bound: real)
    returns (states': seq<State>, steps': seq<Step>)
    requires IsRun(0.0, states, steps) && Timely(states, bound)
    requires Enabled(0.0, states[|states| - 1], step) && Fresh(Apply(states[|states| - 1], step), bound)
    ensures IsRun(0.0, states', steps') && Timely(states', bound)
    ensures states'[|states'| - 1] == Apply(states[|states| - 1], step)
  {
    states', steps' := states + [Apply(states[|states| - 1], step)], steps + [step];
  }

  // ---------------------------------------------------------------- silence is noticed, in every run

  ghost predicate Watchful(lag: real, s: State) {
    && (s.clientUp ==>
          && s.misses < MAX_HEARTBEAT_MISSES
          && s.now <= s.nextTick + lag
          && s.nextTick <= s.lastAck + HEARTBEAT_INTERVAL * (s.misses as real + 1.0))
    && (s.serverUp ==> s.now <= s.lastReset + IDLE_TIMEOUT + lag)
    && s.lastAck <= s.now
  }

  lemma WatchfulStep(lag: real, s: State, step: Step)
    requires lag >= 0.0 && Watchful(lag, s) && s.nextTick <= s.now + HEARTBEAT_INTERVAL && Enabled(lag, s, step)
    ensures Watchful(lag, Apply(s, step)) && Apply(s, step).nextTick <= Apply(s, step).now + HEARTBEAT_INTERVAL
  {
  }

  lemma {:induction false} WatchfulAlways(lag: real, states: seq<State>, steps: seq<Step>, i: nat)
    requires IsRun(lag, states, steps) && i < |states|
    ensures Watchful(lag, states[i]) && states[i].nextTick <= states[i].now + HEARTBEAT_INTERVAL
  {
    if i > 0 {
      WatchfulAlways(lag, states, steps, i - 1);
      WatchfulStep(lag, states[i - 1], steps[i - 1]);
    }
  }

  /** Whatever happens on the way, neither side outlives 90 seconds, and the lag of its timer,
      without hearing from the other: a client that is up had an acknowledgement, or its start, within that time,
      and a server that is up read a message. */
  lemma SilenceIsNoticed(lag: real, states: seq<State>, steps: seq<Step>, i: nat)
    requires IsRun(lag, states, steps) && i < |states|
    ensures states[i].clientUp ==> states[i].now <= states[i].lastAck + 90.0 + lag
    ensures states[i].serverUp ==> states[i].now <= states[i].lastReset + 90.0 + lag
  {
    WatchfulAlways(lag, states, steps, i);
  }

  lemma OneStep(lag: real, states: seq<State>, steps: seq<Step>, step: Step)
    returns (states': seq<State>, steps': seq<Step>)
    requires IsRun(lag, states, steps) && Enabled(lag, states[|steps|], step)
    ensures IsRun(lag, states', steps') && |steps'| == |steps| + 1 && states'[0] == states[0]
    ensures states'[|steps'|] == Apply(states[|steps|], step)
  {
    states', steps' := states + [Apply(states[|steps|], step)], steps + [step];
  }

  /** For every lag the bounds are met: there is a run at whose end the client, up, has had no
      acknowledgement and the server, up, no message for exactly that long. Both may give up
      then, and no more time can pass before they do. */
  lemma SilenceBoundIsTight(lag: real) returns (states: seq<State>, steps: seq<Step>)
    requires 0.0 <= lag < 30.0
    ensures IsRun(lag, states, steps)
    ensures var s := states[|steps|];
            && s.clientUp && s.now == s.lastAck + 90.0 + lag
            && s.serverUp && s.now == s.lastReset + 90.0 + lag
            && Enabled(lag, s, ClientTick) && !Apply(s, ClientTick).clientUp
            && Enabled(lag, s, IdleTimeout) && !Apply(s, IdleTimeout).serverUp
            && forall to :: to > s.now ==> !Enabled(lag, s, Delay(to))
  {
    states, steps := [State(0.0, true, 0, 30.0, 0.0, [], [], true, 0.0)], [];
    states, steps := OneStep(lag, states, steps, Delay(30.0));
    states, steps := OneStep(lag, states, steps, ClientTick);
    states, steps := OneStep(lag, states, steps, Delay(60.0));
    states, steps := OneStep(lag, states, steps, ClientTick);
    states, steps := OneStep(lag, states, steps, Delay(90.0 + lag));
  }

  lemma EndedStep(lag: real, s: State, step: Step)
    requires Enabled(lag, s, step)
    ensures !s.serverUp ==> !Apply(s, step).serverUp && !step.ServerReceive? && !step.ServerLog? && !step.IdleTimeout?
    ensures !s.clientUp ==> !Apply(s, step).clientUp && !step.ClientTick? && !step.ClientReceive?
  {
  }

  /** A side that has given up does nothing any more. */
  lemma {:induction false} EndedStaysEnded(lag: real, states: seq<State>, steps: seq<Step>, i: nat, j: nat)
    requires IsRun(lag, states, steps) && i < j < |states|
    requires steps[i].IdleTimeout? || !states[i + 1].clientUp
    ensures steps[i].IdleTimeout? ==>
              && !states[j].serverUp
              && (j < |steps| ==> !steps[j].ServerReceive? && !steps[j].ServerLog? && !steps[j].IdleTimeout?)
    ensures !states[i + 1].clientUp ==>
              !states[j].clientUp && (j < |steps| ==> !steps[j].ClientTick? && !steps[j].ClientReceive?)
    decreases j
  {
    assert states[i + 1] == Apply(states[i], steps[i]);
    if i + 1 < j {
      EndedStaysEnded(lag, states, steps, i, j - 1);
      EndedStep(lag, states[j - 1], steps[j - 1]);
    }
    if j < |steps| {
      EndedStep(lag, states[j], steps[j]);
    }
  }

  // ---------------------------------------------------------------- nothing is lost on the control stream

  function SentAt(s: State, step: Step): seq<Reply> {
    match step
    case ServerReceive => [Ack(s.now)]
    case ServerLog => [Log(s.now)]
    case _ => []
  }

  function ReadAt(s: State, step: Step): seq<Reply> {
    if step.ClientReceive? && s.down != [] then [s.down[0]] else []
  }

  function BeatAt(s: State, step: Step): seq<real> {
    if step.ClientTick? then [s.now] else []
  }

  function HeardAt(s: State, step: Step): seq<real> {
    if step.ServerReceive? && s.up != [] then [s.up[0]] else []
  }

  lemma RepliesStep(lag: real, s: State, step: Step)
    requires Enabled(lag, s, step)
    ensures ReadAt(s, step) + Apply(s, step).down == s.down + SentAt(s, step)
  {
    if step.ClientReceive? {
      assert [s.down[0]] + s.down[1..] == s.down;
    }
  }

  lemma BeatsStep(lag: real, s: State, step: Step)
    requires Enabled(lag, s, step)
    ensures HeardAt(s, step) + Apply(s, step).up == s.up + BeatAt(s, step)
  {
    if step.ServerReceive? {
      assert [s.up[0]] + s.up[1..] == s.up;
    }
  }

  /** The front of a queue goes to the reader, what is sent to its end. */
  lemma QueueMoves<T>(sent: seq<T>, got: seq<T>, queue: seq<T>, out: seq<T>, queue': seq<T>, more: seq<T>)
    requires sent == got + queue && out + queue' == queue + more
    ensures sent + more == (got + out) + queue'
  {
    assert (got + out) + queue' == got + (out + queue');
    assert sent + more == got + (queue + more);
  }

  /** What happened in the first `n` steps, as `at` sees it. */
  function Chronicle<T>(states: seq<State>, steps: seq<Step>, n: nat, at: (State, Step) -> seq<T>): seq<T>
    requires n <= |steps| <= |states|
  {
    if n == 0 then [] else Chronicle(states, steps, n - 1, at) + at(states[n - 1], steps[n - 1])
  }

  /** At every moment the client has read a prefix of what the server sent and the rest is on its
      way, in order; likewise the heartbeats, one for each tick. */
  lemma {:induction false} StreamsKeepOrder(lag: real, states: seq<State>, steps: seq<Step>, n: nat)
    requires IsRun(lag, states, steps) && n <= |steps|
    ensures Chronicle(states, steps, n, SentAt) == Chronicle(states, steps, n, ReadAt) + states[n].down
    ensures Chronicle(states, steps, n, BeatAt) == Chronicle(states, steps, n, HeardAt) + states[n].up
  {
    if n > 0 {
      var s, step := states[n - 1], steps[n - 1];
      StreamsKeepOrder(lag, states, steps, n - 1);
      assert Enabled(lag, s, step) && states[n] == Apply(s, step);
      RepliesStep(lag, s, step);
      BeatsStep(lag, s, step);
      QueueMoves(Chronicle(states, steps, n - 1, SentAt), Chronicle(states, steps, n - 1, ReadAt),
                 s.down, ReadAt(s, step), states[n].down, SentAt(s, step));
      QueueMoves(Chronicle(states, steps, n - 1, BeatAt), Chronicle(states, steps, n - 1, HeardAt),
                 s.up, HeardAt(s, step), states[n].up, BeatAt(s, step));
    }
  }

  function TicksBetween(steps: seq<Step>, i: nat, j: nat): nat
    requires i <= j <= |steps|
  {
    if i == j then 0 else TicksBetween(steps, i, j - 1) + if steps[j - 1].ClientTick? then 1 else 0
  }

  /** While no acknowledgement comes every tick is a miss, and the third one ends the session. */
  lemma {:induction false} ThirdTickEnds(lag: real, states: seq<State>, steps: seq<Step>, i: nat, j: nat)
    requires IsRun(lag, states, steps) && i <= j < |states|
    requires forall k :: i <= k < j && steps[k].ClientReceive? ==> states[k].down[0].Log?
    ensures states[j].misses == states[i].misses + TicksBetween(steps, i, j)
    ensures TicksBetween(steps, i, j) >= MAX_HEARTBEAT_MISSES ==> !states[j].clientUp
    decreases j - i
  {
    WatchfulAlways(lag, states, steps, j);
    if i < j {
      ThirdTickEnds(lag, states, steps, i, j - 1);
      assert states[j] == Apply(states[j - 1], steps[j - 1]);
    }
  }
}
