/**
 * The queue between sources and sinks: a broadcast ring that overwrites its oldest message, one cursor for
 * each sink, and sources that check the depth before they enqueue without holding a lock in between.
 */
module Queue {
  import opened Prelude

  type Message = string

  // ---------------------------------------------------------------- capacity and watermark

  /** Events above this depth are refused: four fifths of the capacity, at least one. */
  function Watermark(capacity: nat): (w: nat)
    ensures 1 <= w && (capacity >= 1 ==> w <= capacity)
    ensures capacity >= 2 ==> w < capacity
    ensures 4 * capacity < 5 * (w + 1) && (w == 1 || 5 * w <= 4 * capacity)
  {
    Max(capacity * 4 / 5, 1)
  }

  function Pow2(n: nat): (p: nat)
    ensures p >= 1
  {
    if n == 0 then 1 else 2 * Pow2(n - 1)
  }

  /** The smallest power of two from `Pow2(n)` on that holds `capacity` messages. */
  function RingFrom(capacity: nat, n: nat): (r: nat)
    requires n == 0 || Pow2(n) < 2 * capacity
    ensures capacity <= r && (exists m :: n <= m && r == Pow2(m)) && (r == 1 || r < 2 * capacity)
    decreases 2 * capacity - Pow2(n)
  {
    if Pow2(n) >= capacity then Pow2(n) else RingFrom(capacity, n + 1)
  }

  /** The broadcast channel rounds its capacity up to a power of two. */
  function Ring(capacity: nat): (r: nat)
    requires capacity >= 1
    ensures capacity <= r < 2 * capacity && exists m :: r == Pow2(m)
  {
    RingFrom(capacity, 0)
  }

  // ---------------------------------------------------------------- states and steps

  /** `Checked` has passed the depth check and not yet enqueued. */
  datatype Source = Ready | Checked(message: Message)

  /** `fate` tells for each message up to the cursor whether the sink received it or had it overwritten. */
  datatype Sink = Sink(received: seq<Message>, skipped: nat, fate: seq<bool>) {
    function Cursor(): nat { |fate| }
  }

  datatype State = State(sent: seq<Message>, sources: seq<Source>, sinks: seq<Sink>)

  datatype Config = Config(capacity: nat, backpressured: nat, sinks: nat) {
    predicate Valid() { capacity >= 1 && sinks >= 1 }
  }

  function Backlog(s: State, i: nat): int
    requires i < |s.sinks|
  {
    |s.sent| - s.sinks[i].Cursor()
  }

  /** The longest backlog among the first `n` sinks. */
  function MaxBacklog(s: State, n: nat): (b: int)
    requires n <= |s.sinks|
    ensures forall i :: 0 <= i < n ==> Backlog(s, i) <= b
    ensures b == 0 || exists i :: 0 <= i < n && Backlog(s, i) == b
    ensures b >= 0
  {
    if n == 0 then 0 else Max(MaxBacklog(s, n - 1), Backlog(s, n - 1))
  }

  /** `Sender::len`: messages some sink has still to see and that are still in the ring. */
  function Depth(cfg: Config, s: State): int
    requires cfg.Valid()
  {
    Min(MaxBacklog(s, |s.sinks|), Ring(cfg.capacity))
  }

  datatype Step =
    | Check(k: nat, message: Message)   // a backpressured source finds room
    | Refuse(k: nat)                    // a backpressured source finds the queue saturated
    | Enqueue(k: nat)                   // the source that found room sends
    | Abandon(k: nat)                   // its event turns out not to be a valid CDEvent
    | Push(message: Message)            // a pull source sends without a check
    | Receive(i: nat)                   // sink i takes one message, or learns that it lags

  predicate Enabled(cfg: Config, s: State, step: Step)
    requires cfg.Valid()
  {
    match step
    case Check(k, _) => k < |s.sources| && s.sources[k].Ready? && Depth(cfg, s) < Watermark(cfg.capacity)
    case Refuse(k) => k < |s.sources| && s.sources[k].Ready? && Depth(cfg, s) >= Watermark(cfg.capacity)
    case Enqueue(k) => k < |s.sources| && s.sources[k].Checked?
    case Abandon(k) => k < |s.sources| && s.sources[k].Checked?
    case Push(_) => true
    case Receive(i) => i < |s.sinks| && Backlog(s, i) > 0
  }

  predicate Lags(cfg: Config, s: State, i: nat)
    requires cfg.Valid() && i < |s.sinks|
  {
    Backlog(s, i) > Ring(cfg.capacity)
  }

  /** Up to `from` messages are gone when a sink lags; otherwise the next one is delivered. */
  function ReceiveAt(cfg: Config, s: State, i: nat): Sink
    requires cfg.Valid() && i < |s.sinks| && Backlog(s, i) > 0
  {
    var sink := s.sinks[i];
    if Lags(cfg, s, i) then
      var gone := Backlog(s, i) - Ring(cfg.capacity);
      sink.(skipped := sink.skipped + gone, fate := sink.fate + seq(gone, _ => false))
    else
      sink.(received := sink.received + [s.sent[sink.Cursor()]], fate := sink.fate + [true])
  }

  function Do(cfg: Config, s: State, step: Step): State
    requires cfg.Valid() && Enabled(cfg, s, step)
  {
    match step
    case Check(k, m) => s.(sources := s.sources[k := Checked(m)])
    case Refuse(_) => s
    case Enqueue(k) => s.(sent := s.sent + [s.sources[k].message], sources := s.sources[k := Ready])
    case Abandon(k) => s.(sources := s.sources[k := Ready])
    case Push(m) => s.(sent := s.sent + [m])
    case Receive(i) => s.(sinks := s.sinks[i := ReceiveAt(cfg, s, i)])
  }

  predicate Possible(cfg: Config, s: State, steps: seq<Step>)
    requires cfg.Valid()
    decreases |steps|
  {
    steps == [] || (Enabled(cfg, s, steps[0]) && Possible(cfg, Do(cfg, s, steps[0]), steps[1..]))
  }

  function After(cfg: Config, s: State, steps: seq<Step>): State
    requires cfg.Valid() && Possible(cfg, s, steps)
    decreases |steps|
  {
    if steps == [] then s else After(cfg, Do(cfg, s, steps[0]), steps[1..])
  }

  /** Sinks subscribe before any source starts. */
  function Init(cfg: Config): State {
    State([], seq(cfg.backpressured, _ => Ready), seq(cfg.sinks, _ => Sink([], 0, [])))
  }

  ghost predicate Reachable(cfg: Config, s: State)
    requires cfg.Valid()
  {
    exists steps :: Possible(cfg, Init(cfg), steps) && s == After(cfg, Init(cfg), steps)
  }

  predicate NoPull(steps: seq<Step>) { forall step :: step in steps ==> !step.Push? }

  ghost predicate ReachableWithoutPull(cfg: Config, s: State)
    requires cfg.Valid()
  {
    exists steps :: Possible(cfg, Init(cfg), steps) && NoPull(steps) && s == After(cfg, Init(cfg), steps)
  }

  lemma {:induction false} PossibleSnoc(cfg: Config, s: State, steps: seq<Step>, last: Step)
    requires cfg.Valid() && Possible(cfg, s, steps) && Enabled(cfg, After(cfg, s, steps), last)
    ensures Possible(cfg, s, steps + [last])
    ensures After(cfg, s, steps + [last]) == Do(cfg, After(cfg, s, steps), last)
    decreases |steps|
  {
    hide Enabled, Do;
    if steps == [] {
      assert [last][1..] == [];
      assert [] + [last] == [last];
    } else {
      PossibleSnoc(cfg, Do(cfg, s, steps[0]), steps[1..], last);
      assert (steps + [last])[1..] == steps[1..] + [last];
    }
  }

  // ---------------------------------------------------------------- what each sink gets

  /** The messages whose fate is true. */
  function Picked(ms: seq<Message>, fate: seq<bool>): seq<Message>
    requires |fate| <= |ms|
    decreases |fate|
  {
    if fate == [] then []
    else
      var n := |fate| - 1;
      Picked(ms, fate[..n]) + if fate[n] then [ms[n]] else []
  }

  function Lost(fate: seq<bool>): nat {
    if fate == [] then 0 else Lost(fate[..|fate| - 1]) + if fate[|fate| - 1] then 0 else 1
  }

  ghost predicate SinkSound(sent: seq<Message>, k: Sink) {
    && k.Cursor() <= |sent|
    && k.received == Picked(sent, k.fate)
    && k.skipped == Lost(k.fate)
  }

  ghost predicate Sound(cfg: Config, s: State) {
    && |s.sources| == cfg.backpressured && |s.sinks| == cfg.sinks
    && forall i :: 0 <= i < |s.sinks| ==> SinkSound(s.sent, s.sinks[i])
  }

  lemma {:induction false} PickedExtends(ms: seq<Message>, m: Message, fate: seq<bool>)
    requires |fate| <= |ms|
    ensures Picked(ms + [m], fate) == Picked(ms, fate)
    decreases |fate|
  {
    if fate != [] {
      PickedExtends(ms, m, fate[..|fate| - 1]);
    }
  }

  lemma {:induction false} SkipSome(ms: seq<Message>, fate: seq<bool>, n: nat)
    requires |fate| + n <= |ms|
    ensures Picked(ms, fate + seq(n, _ => false)) == Picked(ms, fate)
    ensures Lost(fate + seq(n, _ => false)) == Lost(fate) + n
  {
    var all := fate + seq(n, _ => false);
    if n == 0 {
      assert all == fate;
    } else {
      assert all[..|all| - 1] == fate + seq(n - 1, _ => false);
      SkipSome(ms, fate, n - 1);
    }
  }

  lemma ReceiveKeeps(cfg: Config, s: State, i: nat)
    requires cfg.Valid() && i < |s.sinks| && Backlog(s, i) > 0 && SinkSound(s.sent, s.sinks[i])
    ensures SinkSound(s.sent, ReceiveAt(cfg, s, i))
  {
    hide Picked, Lost, Ring, Watermark;
    var sink := s.sinks[i];
    if Lags(cfg, s, i) {
      SkipSome(s.sent, sink.fate, Backlog(s, i) - Ring(cfg.capacity));
    } else {
      PickOne(s.sent, sink.fate);
    }
  }

  lemma PickOne(ms: seq<Message>, fate: seq<bool>)
    requires |fate| < |ms|
    ensures Picked(ms, fate + [true]) == Picked(ms, fate) + [ms[|fate|]] && Lost(fate + [true]) == Lost(fate)
  {
    assert (fate + [true])[..|fate|] == fate;
  }

  lemma SentKeeps(s: State, m: Message)
    requires forall i :: 0 <= i < |s.sinks| ==> SinkSound(s.sent, s.sinks[i])
    ensures forall i :: 0 <= i < |s.sinks| ==> SinkSound(s.sent + [m], s.sinks[i])
  {
    forall i | 0 <= i < |s.sinks|
      ensures SinkSound(s.sent + [m], s.sinks[i])
    {
      assert SinkSound(s.sent, s.sinks[i]);
      PickedExtends(s.sent, m, s.sinks[i].fate);
    }
  }

  lemma StepKeeps(cfg: Config, s: State, step: Step)
    requires cfg.Valid() && Sound(cfg, s) && Enabled(cfg, s, step)
    ensures Sound(cfg, Do(cfg, s, step))
  {
    hide SinkSound, ReceiveAt, Depth, Watermark;
    if step.Enqueue? {
      SentKeeps(s, s.sources[step.k].message);
    } else if step.Push? {
      SentKeeps(s, step.message);
    } else if step.Receive? {
      ReceiveKeeps(cfg, s, step.i);
    }
  }

  lemma {:induction false} RunKeeps(cfg: Config, s: State, steps: seq<Step>)
    requires cfg.Valid() && Sound(cfg, s) && Possible(cfg, s, steps)
    ensures Sound(cfg, After(cfg, s, steps))
    decreases |steps|
  {
    hide Sound, Enabled, Do;
    if steps != [] {
      StepKeeps(cfg, s, steps[0]);
      RunKeeps(cfg, Do(cfg, s, steps[0]), steps[1..]);
    }
  }

  lemma {:induction false} PickedCount(ms: seq<Message>, fate: seq<bool>)
    requires |fate| <= |ms|
    ensures |Picked(ms, fate)| + Lost(fate) == |fate|
    decreases |fate|
  {
    if fate != [] {
      PickedCount(ms, fate[..|fate| - 1]);
    }
  }

  /**
   * Whatever the sources do, each sink gets the sent messages in order and without repetition, minus exactly
   * those counted as lagged: up to its cursor, received plus skipped is sent.
   */
  lemma EverySinkAccounts(cfg: Config, s: State, i: nat)
    requires cfg.Valid() && Reachable(cfg, s) && i < |s.sinks|
    ensures var k := s.sinks[i];
            && |k.fate| <= |s.sent| && k.received == Picked(s.sent, k.fate)
            && |k.received| + k.skipped == |k.fate|
  {
    var steps :| Possible(cfg, Init(cfg), steps) && s == After(cfg, Init(cfg), steps);
    RunKeeps(cfg, Init(cfg), steps);
    assert SinkSound(s.sent, s.sinks[i]);
    PickedCount(s.sent, s.sinks[i].fate);
  }

  /**
   * One reception. While the messages behind the cursor fit in the ring the next one is delivered; a sink
   * further behind gets nothing and moves on to the oldest message still in the ring: it skips exactly the
   * messages that as many later ones as the ring holds have overwritten.
   */
  lemma ReceptionExactly(cfg: Config, s: State, i: nat)
    requires cfg.Valid() && Enabled(cfg, s, Receive(i))
    ensures var s' := Do(cfg, s, Receive(i));
            var k, k', n := s.sinks[i], s'.sinks[i], |s.sent|;
            && s' == s.(sinks := s.sinks[i := k']) && k.fate <= k'.fate
            && (n - |k.fate| <= Ring(cfg.capacity) ==>
                  k'.received == k.received + [s.sent[|k.fate|]] && k'.skipped == k.skipped
                  && k'.fate == k.fate + [true])
            && (n - |k.fate| > Ring(cfg.capacity) ==>
                  && k'.received == k.received && k'.skipped == k.skipped + |k'.fate| - |k.fate|
                  && |k'.fate| == n - Ring(cfg.capacity)
                  && forall p :: |k.fate| <= p < |k'.fate| ==> !k'.fate[p] && n - p > Ring(cfg.capacity))
  {
    hide Ring;
  }

  // ---------------------------------------------------------------- backpressure

  function Pending(sources: seq<Source>): nat {
    if sources == [] then 0
    else Pending(sources[..|sources| - 1]) + if sources[|sources| - 1].Checked? then 1 else 0
  }

  lemma {:induction false} PendingUpdate(sources: seq<Source>, k: nat, to: Source)
    requires k < |sources|
    ensures Pending(sources[k := to]) ==
              Pending(sources) - (if sources[k].Checked? then 1 else 0) + if to.Checked? then 1 else 0
    ensures Pending(sources) <= |sources|
  {
    var n := |sources| - 1;
    if k < n {
      PendingUpdate(sources[..n], k, to);
      assert sources[k := to][..n] == sources[..n][k := to];
    } else {
      assert sources[k := to][..n] == sources[..n];
      PendingBound(sources);
    }
  }

  lemma {:induction false} PendingBound(sources: seq<Source>)
    ensures Pending(sources) <= |sources|
  {
    if sources != [] { PendingBound(sources[..|sources| - 1]); }
  }

  /** Messages waiting for a sink or on their way into the queue never exceed the watermark by a source each. */
  ghost predicate Held(cfg: Config, s: State) {
    && |s.sources| == cfg.backpressured
    && forall i :: 0 <= i < |s.sinks| ==>
         Backlog(s, i) + Pending(s.sources) <= Watermark(cfg.capacity) - 1 + cfg.backpressured
  }

  lemma HoldsBack(cfg: Config, s: State, step: Step)
    requires cfg.Valid() && Held(cfg, s) && Enabled(cfg, s, step) && !step.Push?
    ensures Held(cfg, Do(cfg, s, step))
  {
    hide Watermark, Ring, Pending;
    if step.Check? {
      PendingUpdate(s.sources, step.k, Checked(step.message));
      PendingBound(s.sources[step.k := Checked(step.message)]);
      assert MaxBacklog(s, |s.sinks|) < Watermark(cfg.capacity) by { WatermarkFits(cfg.capacity); }
    } else if step.Enqueue? || step.Abandon? {
      PendingUpdate(s.sources, step.k, Ready);
    } else if step.Receive? {
      ReceiveAdvances(cfg, s, step.i);
    }
    var s' := Do(cfg, s, step);
    forall i | 0 <= i < |s'.sinks|
      ensures Backlog(s', i) + Pending(s'.sources) <= Watermark(cfg.capacity) - 1 + cfg.backpressured
    {
      assert Backlog(s, i) + Pending(s.sources) <= Watermark(cfg.capacity) - 1 + cfg.backpressured;
    }
  }

  lemma WatermarkFits(capacity: nat)
    requires capacity >= 1
    ensures Watermark(capacity) <= Ring(capacity)
  {
  }

  /**
   * A source is refused exactly if some sink has the watermark or more messages between its cursor and the
   * end of what was sent; once every sink has caught up every source that asks is let through.
   */
  lemma RefusesExactlyWhen(cfg: Config, s: State, k: nat, m: Message)
    requires cfg.Valid() && k < |s.sources| && s.sources[k].Ready?
    ensures Enabled(cfg, s, Refuse(k)) <==>
              exists i :: 0 <= i < |s.sinks| && |s.sent| - |s.sinks[i].fate| >= Watermark(cfg.capacity)
    ensures Enabled(cfg, s, Check(k, m)) <==>
              forall i :: 0 <= i < |s.sinks| ==> |s.sent| - |s.sinks[i].fate| < Watermark(cfg.capacity)
    ensures (forall i :: 0 <= i < |s.sinks| ==> |s.sinks[i].fate| == |s.sent|) ==> Enabled(cfg, s, Check(k, m))
  {
    WatermarkFits(cfg.capacity);
    DepthReaches(cfg, s, Watermark(cfg.capacity));
  }

  lemma DepthReaches(cfg: Config, s: State, w: nat)
    requires cfg.Valid() && 1 <= w <= Ring(cfg.capacity)
    ensures Depth(cfg, s) >= w <==> exists i :: 0 <= i < |s.sinks| && |s.sent| - |s.sinks[i].fate| >= w
  {
    hide Ring;
    if i :| 0 <= i < |s.sinks| && |s.sent| - |s.sinks[i].fate| >= w {
      assert Backlog(s, i) >= w;
    }
  }

  lemma ReceiveAdvances(cfg: Config, s: State, i: nat)
    requires cfg.Valid() && i < |s.sinks| && Backlog(s, i) > 0
    ensures ReceiveAt(cfg, s, i).Cursor() > s.sinks[i].Cursor()
  {
  }

  lemma {:induction false} RunHoldsBack(cfg: Config, s: State, steps: seq<Step>)
    requires cfg.Valid() && Held(cfg, s) && Possible(cfg, s, steps) && NoPull(steps)
    ensures Held(cfg, After(cfg, s, steps))
    decreases |steps|
  {
    hide Held, Enabled, Do;
    if steps != [] {
      HoldsBack(cfg, s, steps[0]);
      RunHoldsBack(cfg, Do(cfg, s, steps[0]), steps[1..]);
    }
  }

  lemma {:induction false} NonePending(n: nat)
    ensures Pending(seq(n, _ => Ready)) == 0
  {
    if n > 0 {
      NonePending(n - 1);
      assert seq(n, _ => Ready)[..n - 1] == seq(n - 1, _ => Ready);
    }
  }

  /** With backpressured sources only, no backlog ever exceeds the watermark by more than a message per source. */
  lemma BacklogBound(cfg: Config, s: State, i: nat)
    requires cfg.Valid() && ReachableWithoutPull(cfg, s) && i < |s.sinks|
    ensures Backlog(s, i) <= Watermark(cfg.capacity) - 1 + cfg.backpressured
  {
    var steps :| Possible(cfg, Init(cfg), steps) && NoPull(steps) && s == After(cfg, Init(cfg), steps);
    NonePending(cfg.backpressured);
    RunHoldsBack(cfg, Init(cfg), steps);
  }

  // ---------------------------------------------------------------- exactly when nothing is lost

  predicate FewSources(cfg: Config)
    requires cfg.Valid()
  {
    cfg.backpressured <= Ring(cfg.capacity) - Watermark(cfg.capacity) + 1
  }

  ghost predicate NothingSkipped(s: State) {
    forall i :: 0 <= i < |s.sinks| ==> false !in s.sinks[i].fate
  }

  lemma {:induction false} RunSkipsNothing(cfg: Config, s: State, steps: seq<Step>)
    requires cfg.Valid() && FewSources(cfg) && Held(cfg, s) && NothingSkipped(s)
    requires Possible(cfg, s, steps) && NoPull(steps)
    ensures NothingSkipped(After(cfg, s, steps))
    decreases |steps|
  {
    if steps != [] {
      assert NothingSkipped(Do(cfg, s, steps[0])) by {
        hide Watermark, Ring, Pending;
        assert forall i :: 0 <= i < |s.sinks| ==> !Lags(cfg, s, i);
      }
      hide Held, Enabled, Do, FewSources, NothingSkipped;
      HoldsBack(cfg, s, steps[0]);
      RunSkipsNothing(cfg, Do(cfg, s, steps[0]), steps[1..]);
    }
  }

  lemma {:induction false} PickedAll(ms: seq<Message>, fate: seq<bool>)
    requires |fate| <= |ms| && false !in fate
    ensures Picked(ms, fate) == ms[..|fate|]
    decreases |fate|
  {
    if fate != [] {
      PickedAll(ms, fate[..|fate| - 1]);
      assert fate[|fate| - 1] in fate;
    }
  }

  /** With few enough backpressured sources and no pull source, every sink receives exactly what was sent. */
  lemma EverySinkReceivesAll(cfg: Config, s: State, i: nat)
    requires cfg.Valid() && FewSources(cfg) && ReachableWithoutPull(cfg, s) && i < |s.sinks|
    ensures var k := s.sinks[i];
            k.Cursor() <= |s.sent| && k.received == s.sent[..k.Cursor()] && k.skipped == 0 && !Lags(cfg, s, i)
  {
    BacklogBound(cfg, s, i);
    var steps :| Possible(cfg, Init(cfg), steps) && NoPull(steps) && s == After(cfg, Init(cfg), steps);
    NonePending(cfg.backpressured);
    RunSkipsNothing(cfg, Init(cfg), steps);
    EverySinkAccounts(cfg, s, i);
    PickedAll(s.sent, s.sinks[i].fate);
  }

  /** `n` messages sent and none received; the sources from `lo` to `hi` have passed their check. */
  function Stage(cfg: Config, n: nat, lo: nat, hi: nat): State {
    State(seq(n, _ => ""),
          seq(cfg.backpressured, k => if lo <= k < hi then Checked("") else Ready),
          seq(cfg.sinks, _ => Sink([], 0, [])))
  }

  lemma StageDepth(cfg: Config, n: nat, lo: nat, hi: nat)
    requires cfg.Valid()
    ensures Depth(cfg, Stage(cfg, n, lo, hi)) == Min(n, Ring(cfg.capacity))
  {
    hide Ring;
    var s := Stage(cfg, n, lo, hi);
    assert forall i :: 0 <= i < |s.sinks| ==> Backlog(s, i) == n;
    assert Backlog(s, 0) <= MaxBacklog(s, |s.sinks|);
  }

  lemma OneMore(cfg: Config, s: State, step: Step)
    requires cfg.Valid() && ReachableWithoutPull(cfg, s) && Enabled(cfg, s, step) && !step.Push?
    ensures ReachableWithoutPull(cfg, Do(cfg, s, step))
  {
    hide Enabled, Do;
    var steps :| Possible(cfg, Init(cfg), steps) && NoPull(steps) && s == After(cfg, Init(cfg), steps);
    PossibleSnoc(cfg, Init(cfg), steps, step);
    assert NoPull(steps + [step]);
  }

  /** One source after the other passes its check; below the watermark nothing stops it. */
  lemma StageCheck(cfg: Config, n: nat, k: nat)
    requires cfg.Valid() && ReachableWithoutPull(cfg, Stage(cfg, n, 0, k))
    requires n < Watermark(cfg.capacity) && k < cfg.backpressured
    ensures ReachableWithoutPull(cfg, Stage(cfg, n, 0, k + 1))
  {
    hide ReachableWithoutPull, Watermark, Ring;
    StageDepth(cfg, n, 0, k);
    OneMore(cfg, Stage(cfg, n, 0, k), Check(k, ""));
    assert Do(cfg, Stage(cfg, n, 0, k), Check(k, "")) == Stage(cfg, n, 0, k + 1);
  }

  lemma StageEnqueue(cfg: Config, n: nat, k: nat, hi: nat)
    requires cfg.Valid() && ReachableWithoutPull(cfg, Stage(cfg, n, k, hi)) && k < hi <= cfg.backpressured
    ensures ReachableWithoutPull(cfg, Stage(cfg, n + 1, k + 1, hi))
  {
    hide ReachableWithoutPull, Watermark, Ring;
    OneMore(cfg, Stage(cfg, n, k, hi), Enqueue(k));
    assert Do(cfg, Stage(cfg, n, k, hi), Enqueue(k)) == Stage(cfg, n + 1, k + 1, hi);
  }

  lemma {:induction false} FillTo(cfg: Config, n: nat)
    requires cfg.Valid() && cfg.backpressured >= 1 && n < Watermark(cfg.capacity)
    ensures ReachableWithoutPull(cfg, Stage(cfg, n, 0, 0))
  {
    if n == 0 {
      assert Stage(cfg, 0, 0, 0) == Init(cfg);
      assert Possible(cfg, Init(cfg), []) && NoPull([]) && After(cfg, Init(cfg), []) == Init(cfg);
    } else {
      hide ReachableWithoutPull;
      FillTo(cfg, n - 1);
      StageCheck(cfg, n - 1, 0);
      StageEnqueue(cfg, n - 1, 0, 1);
      assert Stage(cfg, n, 1, 1) == Stage(cfg, n, 0, 0);
    }
  }

  lemma {:induction false} CheckTo(cfg: Config, n: nat, k: nat)
    requires cfg.Valid() && cfg.backpressured >= 1 && n < Watermark(cfg.capacity) && k <= cfg.backpressured
    ensures ReachableWithoutPull(cfg, Stage(cfg, n, 0, k))
  {
    if k == 0 { FillTo(cfg, n); } else { CheckTo(cfg, n, k - 1); StageCheck(cfg, n, k - 1); }
  }

  lemma {:induction false} EnqueueTo(cfg: Config, n: nat, k: nat)
    requires cfg.Valid() && cfg.backpressured >= 1 && n < Watermark(cfg.capacity) && k <= cfg.backpressured
    ensures ReachableWithoutPull(cfg, Stage(cfg, n + k, k, cfg.backpressured))
  {
    if k == 0 {
      CheckTo(cfg, n, cfg.backpressured);
    } else {
      EnqueueTo(cfg, n, k - 1);
      StageEnqueue(cfg, n + k - 1, k - 1, cfg.backpressured);
    }
  }

  ghost predicate NeverLags(cfg: Config)
    requires cfg.Valid()
  {
    forall s, i :: ReachableWithoutPull(cfg, s) && 0 <= i < |s.sinks| ==> !Lags(cfg, s, i)
  }

  /**
   * The headroom above the watermark is enough exactly when there are no more backpressured sources than
   * free places: with one more, all of them can pass the check before any enqueues, and a sink lags.
   */
  lemma LosslessExactlyWhen(cfg: Config)
    requires cfg.Valid()
    ensures NeverLags(cfg) <==> cfg.backpressured <= Ring(cfg.capacity) - Watermark(cfg.capacity) + 1
  {
    if FewSources(cfg) {
      forall s, i | ReachableWithoutPull(cfg, s) && 0 <= i < |s.sinks|
        ensures !Lags(cfg, s, i)
      {
        BacklogBound(cfg, s, i);
      }
    } else {
      hide ReachableWithoutPull;
      var n := Watermark(cfg.capacity) - 1;
      EnqueueTo(cfg, n, cfg.backpressured);
      var s := Stage(cfg, n + cfg.backpressured, cfg.backpressured, cfg.backpressured);
      assert Lags(cfg, s, 0);
    }
  }
}
