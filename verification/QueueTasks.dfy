/** The two ends of the queue as their code runs them: a source's `send`, and a sink's receive loop. */
module QueueTasks {
  import opened Prelude
  import opened Queue

  datatype SendResult = Sent | Saturated(queued: int, watermark: nat) | Invalid

  /** The broadcast channel with everyone attached to it. */
  class Channel {
    const cfg: Config
    var state: State

    constructor (cfg: Config)
      requires cfg.Valid()
      ensures this.cfg == cfg && state == Init(cfg)
    {
      this.cfg, state := cfg, Init(cfg);
    }

    /** What other tasks do while this one is not looking. */
    method Others(steps: seq<Step>)
      requires cfg.Valid() && Possible(cfg, state, steps)
      modifies this
      ensures state == After(cfg, old(state), steps)
    {
      state := After(cfg, state, steps);
    }
  }

  /** The steps of everyone but the source `k`. */
  predicate NotOf(k: nat, steps: seq<Step>) {
    forall step :: step in steps ==>
      && (step.Check? || step.Refuse? || step.Enqueue? || step.Abandon? ==> step.k != k)
  }

  lemma {:induction false} OthersLeaveSource(cfg: Config, s: State, k: nat, steps: seq<Step>)
    requires cfg.Valid() && Possible(cfg, s, steps) && NotOf(k, steps) && k < |s.sources|
    ensures |After(cfg, s, steps).sources| == |s.sources| && After(cfg, s, steps).sources[k] == s.sources[k]
    decreases |steps|
  {
    hide Depth, Watermark, Ring;
    if steps != [] {
      OthersLeaveSource(cfg, Do(cfg, s, steps[0]), k, steps[1..]);
    }
  }

  lemma {:induction false} PossibleThen(cfg: Config, s: State, a: seq<Step>, b: seq<Step>)
    requires cfg.Valid() && Possible(cfg, s, a) && Possible(cfg, After(cfg, s, a), b)
    ensures Possible(cfg, s, a + b) && After(cfg, s, a + b) == After(cfg, After(cfg, s, a), b)
    decreases |a|
  {
    hide Enabled, Do;
    if a == [] {
      assert a + b == b;
    } else {
      PossibleThen(cfg, Do(cfg, s, a[0]), a[1..], b);
      assert (a + b)[1..] == a[1..] + b;
    }
  }

  lemma One(cfg: Config, s: State, step: Step)
    requires cfg.Valid() && Enabled(cfg, s, step)
    ensures Possible(cfg, s, [step]) && After(cfg, s, [step]) == Do(cfg, s, step)
  {
    assert [step][1..] == [];
  }

  /** The terminal pipe of a source; `slot` is its number among the backpressured ones. */
  class Processor {
    const slot: nat
    const highWatermark: Option<nat>

    constructor (slot: nat, queueCapacity: Option<nat>)
      ensures this.slot == slot
      ensures highWatermark == if queueCapacity.Some? then Some(Watermark(queueCapacity.value)) else None
    {
      this.slot := slot;
      this.highWatermark := match queueCapacity case Some(cap) => Some(Watermark(cap)) case None => None;
    }

    /**
     * Refuses without touching the queue exactly when the depth has reached the watermark; otherwise takes
     * the steps check, (whatever others do meanwhile), enqueue. A message that is no CDEvent is not enqueued.
     */
    method Send(ch: Channel, message: Option<Message>, meanwhile: seq<Step>) returns (r: SendResult)
      requires ch.cfg.Valid()
      requires highWatermark.Some? ==>
                 && highWatermark.value == Watermark(ch.cfg.capacity)
                 && slot < |ch.state.sources| && ch.state.sources[slot].Ready?
      requires var s := if highWatermark.Some?
                        then ch.state.(sources := ch.state.sources[slot := Checked(Wanted(message))]) else ch.state;
               Possible(ch.cfg, s, meanwhile) && (highWatermark.Some? ==> NotOf(slot, meanwhile))
      modifies ch
      ensures r.Saturated? <==>
                highWatermark.Some?
                && exists i :: 0 <= i < |old(ch.state).sinks|
                     && |old(ch.state).sent| - |old(ch.state).sinks[i].fate| >= highWatermark.value
      ensures r.Saturated? ==> r.queued == Depth(ch.cfg, old(ch.state)) && r.watermark == highWatermark.value
      ensures r.Saturated? ==> ch.state == old(ch.state)
      ensures !r.Saturated? ==> (r.Sent? <==> message.Some?)
      ensures !r.Saturated? ==>
                var steps := Taken(slot, highWatermark.Some?, message, meanwhile);
                Possible(ch.cfg, old(ch.state), steps) && ch.state == After(ch.cfg, old(ch.state), steps)
      ensures r.Sent? ==> |ch.state.sent| > 0 && ch.state.sent[|ch.state.sent| - 1] == message.value
    {
      ghost var s0 := ch.state;
      if highWatermark.Some? {
        WatermarkFits(ch.cfg.capacity);
        DepthReaches(ch.cfg, ch.state, highWatermark.value);
        var queued := Depth(ch.cfg, ch.state);
        if queued >= highWatermark.value {
          return Saturated(queued, highWatermark.value);
        }
        ch.state := ch.state.(sources := ch.state.sources[slot := Checked(Wanted(message))]);
        hide Depth, Watermark, Ring;
        One(ch.cfg, s0, Check(slot, Wanted(message)));
        OthersLeaveSource(ch.cfg, ch.state, slot, meanwhile);
        PossibleThen(ch.cfg, s0, [Check(slot, Wanted(message))], meanwhile);
      }
      ghost var before := (if highWatermark.Some? then [Check(slot, Wanted(message))] else []) + meanwhile;
      assert Possible(ch.cfg, s0, before) && After(ch.cfg, s0, before) == After(ch.cfg, ch.state, meanwhile) by {
        if highWatermark.None? { assert before == meanwhile; }
      }
      ch.Others(meanwhile);
      ghost var s1 := ch.state;
      hide After, Possible;
      if message.None? {
        if highWatermark.Some? {
          ch.state := ch.state.(sources := ch.state.sources[slot := Ready]);
          One(ch.cfg, s1, Abandon(slot));
          PossibleThen(ch.cfg, s0, before, [Abandon(slot)]);
        } else {
          assert before + [] == before;
        }
        return Invalid;
      }
      ch.state := ch.state.(sent := ch.state.sent + [message.value]);
      if highWatermark.Some? {
        ch.state := ch.state.(sources := ch.state.sources[slot := Ready]);
        One(ch.cfg, s1, Enqueue(slot));
        PossibleThen(ch.cfg, s0, before, [Enqueue(slot)]);
      } else {
        One(ch.cfg, s1, Push(message.value));
        PossibleThen(ch.cfg, s0, before, [Push(message.value)]);
      }
      return Sent;
    }
  }

  function Wanted(message: Option<Message>): Message { if message.Some? then message.value else "" }

  /** The steps one unrefused `send` amounts to. */
  function Taken(slot: nat, checks: bool, message: Option<Message>, meanwhile: seq<Step>): seq<Step> {
    (if checks then [Check(slot, Wanted(message))] else []) + meanwhile
    + if message.None? then (if checks then [Abandon(slot)] else [])
      else if checks then [Enqueue(slot)] else [Push(message.value)]
  }

  // ---------------------------------------------------------------- a sink's task

  /** What others do before each of the sink's receptions, until the channel is closed. */
  predicate RoundsPossible(cfg: Config, s: State, i: nat, rounds: seq<seq<Step>>)
    requires cfg.Valid()
    decreases |rounds|
  {
    rounds == []
    || (Possible(cfg, s, rounds[0]) && Receive(i) !in rounds[0]
        && RoundsPossible(cfg, Received(cfg, After(cfg, s, rounds[0]), i), i, rounds[1..]))
  }

  function Received(cfg: Config, s: State, i: nat): State
    requires cfg.Valid()
  {
    if Enabled(cfg, s, Receive(i)) then Do(cfg, s, Receive(i)) else s
  }

  lemma {:induction false} OthersLeaveSink(cfg: Config, s: State, i: nat, steps: seq<Step>)
    requires cfg.Valid() && Possible(cfg, s, steps) && Receive(i) !in steps && i < |s.sinks|
    ensures |After(cfg, s, steps).sinks| == |s.sinks| && After(cfg, s, steps).sinks[i] == s.sinks[i]
    decreases |steps|
  {
    hide Depth, Watermark, Ring;
    if steps != [] {
      OthersLeaveSink(cfg, Do(cfg, s, steps[0]), i, steps[1..]);
    }
  }

  method Recv(ch: Channel, i: nat) returns (got: Option<Message>)
    requires ch.cfg.Valid() && i < |ch.state.sinks| && Backlog(ch.state, i) > 0
    modifies ch
    ensures ch.state == Do(ch.cfg, old(ch.state), Receive(i))
    ensures got.None? <==> |old(ch.state).sent| - |old(ch.state).sinks[i].fate| > Ring(ch.cfg.capacity)
    ensures got.Some? ==> got.value == old(ch.state).sent[|old(ch.state).sinks[i].fate|]
    ensures ch.state.sinks[i].received == old(ch.state).sinks[i].received + (if got.Some? then [got.value] else [])
  {
    got := if Lags(ch.cfg, ch.state, i) then None else Some(ch.state.sent[ch.state.sinks[i].Cursor()]);
    ch.state := ch.state.(sinks := ch.state.sinks[i := ReceiveAt(ch.cfg, ch.state, i)]);
  }

  /** The steps that are not receptions of the sink `i`. */
  function OfOthers(i: nat, steps: seq<Step>): seq<Step> {
    if steps == [] then []
    else
      var last := steps[|steps| - 1];
      OfOthers(i, steps[..|steps| - 1]) + if last == Receive(i) then [] else [last]
  }

  function Joined(rounds: seq<seq<Step>>): seq<Step> {
    if rounds == [] then [] else Joined(rounds[..|rounds| - 1]) + rounds[|rounds| - 1]
  }

  lemma OthersSnoc(i: nat, steps: seq<Step>, step: Step)
    ensures OfOthers(i, steps + [step]) == OfOthers(i, steps) + if step == Receive(i) then [] else [step]
  {
    assert (steps + [step])[..|steps|] == steps;
  }

  lemma {:induction false} OthersJoin(i: nat, steps: seq<Step>, round: seq<Step>)
    requires Receive(i) !in round
    ensures OfOthers(i, steps + round) == OfOthers(i, steps) + round
    decreases |round|
  {
    if round == [] {
      assert steps + round == steps;
    } else {
      hide OfOthers;
      var init, last := round[..|round| - 1], round[|round| - 1];
      assert last in round && round == init + [last];
      OthersJoin(i, steps, init);
      OthersSnoc(i, steps + init, last);
      assert steps + round == steps + init + [last];
      assert OfOthers(i, steps) + init + [last] == OfOthers(i, steps) + round;
    }
  }

  lemma NoSteps(cfg: Config, s: State)
    requires cfg.Valid()
    ensures Possible(cfg, s, []) && After(cfg, s, []) == s
  {
  }

  lemma OneReception(cfg: Config, s0: State, steps: seq<Step>, i: nat)
    requires cfg.Valid() && Possible(cfg, s0, steps) && Enabled(cfg, After(cfg, s0, steps), Receive(i))
    ensures Possible(cfg, s0, steps + [Receive(i)])
    ensures After(cfg, s0, steps + [Receive(i)]) == Do(cfg, After(cfg, s0, steps), Receive(i))
    ensures OfOthers(i, steps + [Receive(i)]) == OfOthers(i, steps)
  {
    hide Enabled, Do;
    PossibleSnoc(cfg, s0, steps, Receive(i));
    assert (steps + [Receive(i)])[..|steps|] == steps;
  }

  /**
   * The receive loop of one sink: every message it obtains goes to the sink's `send`, in order; a lag is only
   * reported; once the channel is closed and drained the sink is flushed, so that each message sent was
   * delivered before the flush or skipped. The channel goes through what the others do in their rounds and
   * the receptions of this sink, and nothing else.
   */
  method RunSink(ch: Channel, i: nat, rounds: seq<seq<Step>>)
    returns (delivered: seq<Message>, flushed: bool, ghost steps: seq<Step>)
    requires ch.cfg.Valid() && Sound(ch.cfg, ch.state) && i < |ch.state.sinks|
    requires ch.state.sinks[i].received == [] && RoundsPossible(ch.cfg, ch.state, i, rounds)
    modifies ch
    ensures Possible(ch.cfg, old(ch.state), steps) && ch.state == After(ch.cfg, old(ch.state), steps)
    ensures OfOthers(i, steps) == Joined(rounds)
    ensures flushed && Sound(ch.cfg, ch.state) && i < |ch.state.sinks| && Backlog(ch.state, i) == 0
    ensures var k := ch.state.sinks[i];
            |k.fate| == |ch.state.sent| && delivered == Picked(ch.state.sent, k.fate)
            && |delivered| + k.skipped == |ch.state.sent|
  {
    hide Sound, Possible, After, Enabled, Do, SinkSound, ReceiveAt;
    ghost var s0 := ch.state;
    delivered, flushed, steps := [], false, [];
    NoSteps(ch.cfg, s0);
    var round := 0;
    while round < |rounds|
      invariant 0 <= round <= |rounds| && OfOthers(i, steps) == Joined(rounds[..round])
      invariant Possible(ch.cfg, s0, steps) && ch.state == After(ch.cfg, s0, steps)
      invariant Sound(ch.cfg, ch.state) && i < |ch.state.sinks|
      invariant RoundsPossible(ch.cfg, ch.state, i, rounds[round..])
      invariant delivered == ch.state.sinks[i].received
    {
      assert rounds[round..][0] == rounds[round] && rounds[round..][1..] == rounds[round + 1..];
      OthersLeaveSink(ch.cfg, ch.state, i, rounds[round]);
      RunKeeps(ch.cfg, ch.state, rounds[round]);
      PossibleThen(ch.cfg, s0, steps, rounds[round]);
      OthersJoin(i, steps, rounds[round]);
      assert rounds[..round + 1] == rounds[..round] + [rounds[round]];
      ch.Others(rounds[round]);
      steps := steps + rounds[round];
      ReceiveEnabled(ch.cfg, ch.state, i);
      if Backlog(ch.state, i) > 0 {
        StepKeeps(ch.cfg, ch.state, Receive(i));
        OneReception(ch.cfg, s0, steps, i);
        var got := Recv(ch, i);
        steps := steps + [Receive(i)];
        if got.Some? { delivered := delivered + [got.value]; }
      }
      round := round + 1;
    }
    assert rounds[..|rounds|] == rounds;
    ReceiveEnabled(ch.cfg, ch.state, i);
    while Backlog(ch.state, i) > 0
      invariant Possible(ch.cfg, s0, steps) && ch.state == After(ch.cfg, s0, steps)
      invariant OfOthers(i, steps) == Joined(rounds)
      invariant Sound(ch.cfg, ch.state) && i < |ch.state.sinks| && Backlog(ch.state, i) >= 0
      invariant delivered == ch.state.sinks[i].received
      decreases Backlog(ch.state, i)
    {
      ReceiveEnabled(ch.cfg, ch.state, i);
      StepKeeps(ch.cfg, ch.state, Receive(i));
      OneReception(ch.cfg, s0, steps, i);
      var got := Recv(ch, i);
      steps := steps + [Receive(i)];
      if got.Some? { delivered := delivered + [got.value]; }
    }
    SinkDone(ch.cfg, ch.state, i);
    flushed := true;
  }

  lemma ReceiveEnabled(cfg: Config, s: State, i: nat)
    requires cfg.Valid() && i < |s.sinks| && Sound(cfg, s)
    ensures Enabled(cfg, s, Receive(i)) <==> Backlog(s, i) > 0
    ensures Backlog(s, i) >= 0
    ensures Backlog(s, i) > 0 ==>
              var s' := Do(cfg, s, Receive(i));
              |s'.sinks| == |s.sinks| && 0 <= Backlog(s', i) < Backlog(s, i)
  {
    assert SinkSound(s.sent, s.sinks[i]);
  }

  lemma SinkDone(cfg: Config, s: State, i: nat)
    requires cfg.Valid() && i < |s.sinks| && Sound(cfg, s) && Backlog(s, i) == 0
    ensures var k := s.sinks[i];
            |k.fate| == |s.sent| && k.received == Picked(s.sent, k.fate) && |k.received| + k.skipped == |s.sent|
  {
    assert SinkSound(s.sent, s.sinks[i]);
    PickedCount(s.sent, s.sinks[i].fate);
  }
}
