/** Stretches of one life of the batcher: what they keep, and that every flush is answered once and in order. */
module BatchRuns {
  import opened Prelude
  import opened BatchProtocol
  import opened BatchSafety
  import opened BatchTheorems
  import Spool

  /** Steps of one life of the process. */
  ghost predicate Alive<T>(steps: seq<Step<T>>) {
    forall i :: 0 <= i < |steps| ==> !steps[i].Crash? && !steps[i].Open?
  }

  /** `steps` lead from `s` to `t` in one life of the process. */
  ghost predicate Run<T>(cfg: Config<T>, s: State<T>, steps: seq<Step<T>>, t: State<T>)
    requires Shaped(s)
  {
    Possible(cfg, s, steps) && t == After(cfg, s, steps) && Alive(steps)
  }

  /** `t` can be reached from `s` by steps of a drain, its clients and the writer. */
  ghost predicate Leads<T(!new)>(cfg: Config<T>, s: State<T>, t: State<T>)
    requires Shaped(s)
  {
    exists steps: seq<Step<T>> :: Run(cfg, s, steps, t) && OfDrain(steps)
  }

  /** Histories only grow, and after the last client is gone nothing more is pushed. */
  ghost predicate Grown<T>(s: State<T>, t: State<T>) {
    && t.up && s.pushed <= t.pushed && s.accepted <= t.accepted && s.fails <= t.fails
    && (s.closed ==> t.closed && t.pushed == s.pushed)
  }

  // ---------------------------------------------------------------- flushes along a run

  /** The flushes clients ask for, each by the number of items pushed before it. */
  ghost function Asked<T>(cfg: Config<T>, s: State<T>, steps: seq<Step<T>>): seq<nat>
    requires Shaped(s) && Possible(cfg, s, steps)
    decreases |steps|
  {
    if steps == [] then []
    else (if steps[0].SendFlush? then [|s.pushed|] else []) + Asked(cfg, Do(cfg, s, steps[0]), steps[1..])
  }

  /** The flushes the writer hands over to the flusher. */
  ghost function Handed<T>(cfg: Config<T>, s: State<T>, steps: seq<Step<T>>): seq<nat>
    requires Shaped(s) && Possible(cfg, s, steps)
    decreases |steps|
  {
    if steps == [] then []
    else (if steps[0].Forward? && s.writer.sending.Some? then [s.writer.sending.value] else [])
         + Handed(cfg, Do(cfg, s, steps[0]), steps[1..])
  }

  /** The flushes that are acknowledged. */
  ghost function Acked<T>(cfg: Config<T>, s: State<T>, steps: seq<Step<T>>): seq<nat>
    requires Shaped(s) && Possible(cfg, s, steps)
    decreases |steps|
  {
    if steps == [] then []
    else (if steps[0].Finish? then Serving(s.flusher) else []) + Acked(cfg, Do(cfg, s, steps[0]), steps[1..])
  }

  /** The flush the running drain was started for. */
  ghost function Serving<T>(f: Flusher<T>): seq<nat> {
    if HasJob(f) && f.job.kind.Request? then [f.job.kind.mark] else []
  }

  ghost function Marks<T>(cmds: seq<Cmd<T>>): seq<nat> {
    if cmds == [] then [] else (if cmds[0].Flush? then [cmds[0].mark] else []) + Marks(cmds[1..])
  }

  /** Flushes asked for and not acknowledged: with the flusher, in its channel, with the writer, in the queue. */
  ghost function Unanswered<T>(s: State<T>): seq<nat> {
    Serving(s.flusher) + s.acks + (if s.writer.sending.Some? then [s.writer.sending.value] else []) + Marks(Queue(s))
  }

  lemma {:induction false} MarksConcat<T>(a: seq<Cmd<T>>, b: seq<Cmd<T>>)
    ensures Marks(a + b) == Marks(a) + Marks(b)
  {
    if a == [] {
      assert a + b == b;
    } else {
      MarksConcat(a[1..], b);
      assert (a + b)[1..] == a[1..] + b;
      Associative(if a[0].Flush? then [a[0].mark] else [], Marks(a[1..]), Marks(b));
    }
  }

  /** How one step moves the flushes that have reached the flusher. */
  lemma AcksMove<T>(cfg: Config<T>, s: State<T>, step: Step<T>)
    requires Shaped(s) && s.up && Enabled(cfg, s, step) && !step.Crash?
    ensures var s' := Do(cfg, s, step);
            Serving(s.flusher) + s.acks
            + (if step.Forward? && s.writer.sending.Some? then [s.writer.sending.value] else [])
            == (if step.Finish? then Serving(s.flusher) else []) + (Serving(s'.flusher) + s'.acks)
    ensures Do(cfg, s, step).up
  {
    hide Do, Enabled;
    Kinds(cfg, s, step);
    if Outside(step) { AcksOutside(cfg, s, step); }
    else if Wakes(step) { AcksWake(cfg, s, step); }
    else { AcksDrain(cfg, s, step); }
  }

  lemma AcksOutside<T>(cfg: Config<T>, s: State<T>, step: Step<T>)
    requires Shaped(s) && s.up && Enabled(cfg, s, step) && Outside(step)
    ensures var s' := Do(cfg, s, step);
            && s'.flusher == s.flusher
            && s'.acks == s.acks + if step.Forward? && s.writer.sending.Some? then [s.writer.sending.value] else []
  {
    hide Fresh, Spool.Whole, Spool.Group;
  }

  lemma AcksWake<T>(cfg: Config<T>, s: State<T>, step: Step<T>)
    requires Shaped(s) && s.up && Enabled(cfg, s, step) && Wakes(step)
    ensures Serving(s.flusher) == [] && s.acks == Serving(Do(cfg, s, step).flusher) + Do(cfg, s, step).acks
  {
  }

  lemma AcksDrain<T>(cfg: Config<T>, s: State<T>, step: Step<T>)
    requires Shaped(s) && s.up && Enabled(cfg, s, step) && (Draining(step) || step.Finish?)
    ensures var s' := Do(cfg, s, step);
            s'.acks == s.acks && Serving(s'.flusher) == if step.Finish? then [] else Serving(s.flusher)
  {
    Dispatch(cfg, s, step);
    hide Fresh, Accept, Spool.Whole, Spool.Group;
  }

  /**
   * Along every stretch of a life the flushes in the flusher and its channel and those handed over are,
   * in this order, those acknowledged and those still there: none is lost, repeated or overtaken.
   */
  lemma {:induction false} HandedFlushes<T>(cfg: Config<T>, s: State<T>, steps: seq<Step<T>>)
    requires Shaped(s) && s.up && Possible(cfg, s, steps) && Alive(steps)
    ensures var t := After(cfg, s, steps);
            Serving(s.flusher) + s.acks + Handed(cfg, s, steps)
            == Acked(cfg, s, steps) + (Serving(t.flusher) + t.acks)
    decreases |steps|
  {
    hide Do, Enabled, Serving;
    if steps != [] {
      AcksMove(cfg, s, steps[0]);
      var s', rest := Do(cfg, s, steps[0]), steps[1..];
      assert forall i :: 0 <= i < |rest| ==> rest[i] == steps[i + 1];
      HandedFlushes(cfg, s', rest);
      var h := if steps[0].Forward? && s.writer.sending.Some? then [s.writer.sending.value] else [];
      var a := if steps[0].Finish? then Serving(s.flusher) else [];
      Shift(Serving(s.flusher) + s.acks, h, a, Serving(s'.flusher) + s'.acks, Handed(cfg, s', rest),
            Acked(cfg, s', rest), Serving(After(cfg, s', rest).flusher) + After(cfg, s', rest).acks);
    } else {
      assert Serving(s.flusher) + s.acks + [] == [] + (Serving(s.flusher) + s.acks);
    }
  }

  lemma Shift<A>(w: seq<A>, h: seq<A>, a: seq<A>, w': seq<A>, hs: seq<A>, as': seq<A>, end: seq<A>)
    requires w + h == a + w' && w' + hs == as' + end
    ensures w + (h + hs) == a + as' + end
  {
    Associative(w, h, hs);
    Associative(a, w', hs);
    Associative(a, as', end);
  }

  /** How one step moves the flushes on their way from the clients to the flusher. */
  lemma FlushesMove<T>(cfg: Config<T>, s: State<T>, step: Step<T>)
    requires Shaped(s) && s.up && Enabled(cfg, s, step) && !step.Crash?
    ensures Unanswered(s) + (if step.SendFlush? then [|s.pushed|] else [])
            == (if step.Finish? then Serving(s.flusher) else []) + Unanswered(Do(cfg, s, step))
  {
    hide Do, Enabled, Queue, Serving, Marks;
    var s' := Do(cfg, s, step);
    AcksMove(cfg, s, step);
    MarksMove(cfg, s, step);
    Rearrange(Serving(s.flusher) + s.acks, Serving(s'.flusher) + s'.acks, Sending(s), Sending(s'), Marks(Queue(s)),
              Marks(Queue(s')), if step.SendFlush? then [|s.pushed|] else [],
              if step.Finish? then Serving(s.flusher) else [],
              if step.Forward? then Sending(s) else []);
  }

  lemma MarksMove<T>(cfg: Config<T>, s: State<T>, step: Step<T>)
    requires Shaped(s) && s.up && Enabled(cfg, s, step) && !step.Crash?
    ensures Sending(s) + Marks(Queue(s)) + (if step.SendFlush? then [|s.pushed|] else [])
            == (if step.Forward? then Sending(s) else []) + Sending(Do(cfg, s, step)) + Marks(Queue(Do(cfg, s, step)))
  {
    hide Do, Enabled, Queue;
    TokensMove(cfg, s, step);
    QueueKeeps(cfg, s, step);
    SendingFree(cfg, s, step);
    var q := Queue(s);
    if step.Send? { MarksConcat(q, [Push(step.item)]); }
    else if step.SendFlush? { MarksConcat(q, [Flush(|s.pushed|)]); }
  }

  ghost function Sending<T>(s: State<T>): seq<nat> {
    if s.writer.sending.Some? then [s.writer.sending.value] else []
  }

  lemma SendingFree<T>(cfg: Config<T>, s: State<T>, step: Step<T>)
    requires Shaped(s) && s.up && Enabled(cfg, s, step)
    ensures step.Append? ==> s.writer.sending.None?
    ensures step.Forward? ==> s.writer.sending.Some?
  {
  }

  lemma Rearrange<A>(w: seq<A>, w': seq<A>, x: seq<A>, x': seq<A>, q: seq<A>, q': seq<A>, asked: seq<A>, acked: seq<A>,
                     handed: seq<A>)
    requires w + handed == acked + w'
    requires x + q + asked == handed + x' + q'
    ensures w + x + q + asked == acked + (w' + x' + q')
  {
    assert w + x + q + asked == w + (x + q + asked);
    assert w + (handed + x' + q') == w + handed + x' + q';
  }

  /**
   * Every flush a client asks for is acknowledged once and in order, or still on its way: along every
   * stretch of a life, those unanswered before and those asked for are those acknowledged and then those
   * unanswered after it.
   */
  lemma {:induction false} FlushesInOrder<T>(cfg: Config<T>, s: State<T>, steps: seq<Step<T>>)
    requires Shaped(s) && s.up && Possible(cfg, s, steps) && Alive(steps)
    ensures Unanswered(s) + Asked(cfg, s, steps) == Acked(cfg, s, steps) + Unanswered(After(cfg, s, steps))
    decreases |steps|
  {
    hide Do, Enabled, Serving, Unanswered;
    if steps != [] {
      AcksMove(cfg, s, steps[0]);
      FlushesMove(cfg, s, steps[0]);
      var s', rest := Do(cfg, s, steps[0]), steps[1..];
      assert forall i :: 0 <= i < |rest| ==> rest[i] == steps[i + 1];
      FlushesInOrder(cfg, s', rest);
      var h := if steps[0].SendFlush? then [|s.pushed|] else [];
      var a := if steps[0].Finish? then Serving(s.flusher) else [];
      Shift(Unanswered(s), h, a, Unanswered(s'), Asked(cfg, s', rest), Acked(cfg, s', rest),
            Unanswered(After(cfg, s', rest)));
    } else {
      assert Unanswered(s) + [] == [] + Unanswered(s);
    }
  }

  // ---------------------------------------------------------------- the writer gets through its batch

  /** Steps with which the writer works off the batch it has received. */
  ghost predicate Writing<T>(step: Step<T>) { step.Collect? || step.Append? || step.Forward? }

  ghost function WriterWork<T>(w: Writer<T>): nat {
    3 * |w.cmds| + (if w.items != [] then 1 else 0) + if w.sending.Some? then 1 else 0
  }

  ghost function WriterSteps<T>(steps: seq<Step<T>>): nat {
    if steps == [] then 0 else (if Writing(steps[0]) then 1 else 0) + WriterSteps(steps[1..])
  }

  lemma WriterStep<T>(cfg: Config<T>, s: State<T>, step: Step<T>)
    requires Shaped(s) && s.up && Enabled(cfg, s, step) && !step.Crash? && !step.Receive?
    ensures WriterWork(Do(cfg, s, step).writer) + (if Writing(step) then 1 else 0) <= WriterWork(s.writer)
    ensures Do(cfg, s, step).up
  {
    hide Fresh, Accept, Spool.Whole, Spool.Group, Spool.Load, FileOf;
    if Draining(step) { Dispatch(cfg, s, step); }
  }

  /** Whatever the others do in between, a batch takes the writer a bounded number of steps. */
  lemma {:induction false} WriterFinishes<T>(cfg: Config<T>, s: State<T>, steps: seq<Step<T>>)
    requires Shaped(s) && s.up && Possible(cfg, s, steps) && Alive(steps)
    requires forall i :: 0 <= i < |steps| ==> !steps[i].Receive?
    ensures WriterSteps(steps) + WriterWork(After(cfg, s, steps).writer) <= WriterWork(s.writer)
    decreases |steps|
  {
    hide Do, Enabled, WriterWork;
    if steps != [] {
      WriterStep(cfg, s, steps[0]);
      assert forall i :: 0 <= i < |steps[1..]| ==> steps[1..][i] == steps[i + 1];
      WriterFinishes(cfg, Do(cfg, s, steps[0]), steps[1..]);
    }
  }

  /** A busy writer always has a step to take, unless a flush waits for the flusher to take the one before it. */
  lemma WriterNeverBlocks<T>(cfg: Config<T>, s: State<T>) returns (step: Step<T>)
    requires Shaped(s) && s.up && WriterBusy(s.writer)
    ensures (Writing(step) && Enabled(cfg, s, step)) || (s.writer.sending.Some? && s.acks != [])
  {
    step := if s.writer.sending.Some? then Forward
            else if s.writer.cmds != [] && s.writer.cmds[0].Push? then Collect
            else Append(0);
  }

  // ---------------------------------------------------------------- composing runs

  /** A run that acknowledges exactly `acked` and is woken by the timer or the writer's notification `ticks` times. */
  ghost predicate Stretch<T(!new)>(cfg: Config<T>, s: State<T>, steps: seq<Step<T>>, t: State<T>, acked: seq<nat>,
                                   ticks: nat)
    requires Shaped(s)
  {
    Run(cfg, s, steps, t) && Acked(cfg, s, steps) == acked && multiset(steps)[WakeTick] == ticks
  }

  lemma {:induction false} RunConcat<T>(cfg: Config<T>, s: State<T>, a: seq<Step<T>>, b: seq<Step<T>>)
    requires Shaped(s) && Possible(cfg, s, a) && Possible(cfg, After(cfg, s, a), b)
    ensures Possible(cfg, s, a + b) && After(cfg, s, a + b) == After(cfg, After(cfg, s, a), b)
    decreases |a|
  {
    hide Enabled, Do;
    if a == [] {
      assert a + b == b;
    } else {
      RunConcat(cfg, Do(cfg, s, a[0]), a[1..], b);
      assert (a + b)[1..] == a[1..] + b;
    }
  }

  lemma {:induction false} AckedConcat<T>(cfg: Config<T>, s: State<T>, a: seq<Step<T>>, b: seq<Step<T>>)
    requires Shaped(s) && Possible(cfg, s, a) && Possible(cfg, After(cfg, s, a), b) && Possible(cfg, s, a + b)
    ensures Acked(cfg, s, a + b) == Acked(cfg, s, a) + Acked(cfg, After(cfg, s, a), b)
    decreases |a|
  {
    hide Enabled, Do, Serving;
    if a == [] {
      assert a + b == b;
    } else {
      assert (a + b)[1..] == a[1..] + b;
      AckedConcat(cfg, Do(cfg, s, a[0]), a[1..], b);
    }
  }

  lemma StretchJoin<T(!new)>(cfg: Config<T>, s: State<T>, a: seq<Step<T>>, m: State<T>, b: seq<Step<T>>, t: State<T>,
                             acked: seq<nat>, ticks: nat, acked': seq<nat>, ticks': nat)
    requires Shaped(s) && Shaped(m) && Stretch(cfg, s, a, m, acked, ticks) && Stretch(cfg, m, b, t, acked', ticks')
    ensures Stretch(cfg, s, a + b, t, acked + acked', ticks + ticks')
  {
    hide Possible, After, Acked;
    RunConcat(cfg, s, a, b);
    AckedConcat(cfg, s, a, b);
  }

  lemma OneStep<T(!new)>(cfg: Config<T>, s: State<T>, step: Step<T>)
    requires Shaped(s) && Enabled(cfg, s, step) && !step.Crash? && !step.Open?
    ensures Stretch(cfg, s, [step], Do(cfg, s, step), if step.Finish? then Serving(s.flusher) else [],
                    if step.WakeTick? then 1 else 0)
  {
    hide Enabled, Do, Serving;
    var steps, rest, t := [step], [step][1..], Do(cfg, s, step);
    assert rest == [];
    assert Possible(cfg, t, rest) && After(cfg, t, rest) == t && Acked(cfg, t, rest) == [];
    assert Possible(cfg, s, steps) && After(cfg, s, steps) == t;
    assert Acked(cfg, s, steps) == (if step.Finish? then Serving(s.flusher) else []) + [];
    assert Alive(steps);
  }

  lemma NoStep<T(!new)>(cfg: Config<T>, s: State<T>)
    requires Shaped(s)
    ensures Stretch(cfg, s, [], s, [], 0)
  {
  }

  /** The drain of `Leads` as a run. */
  lemma DrainRun<T(!new)>(cfg: Config<T>, s: State<T>, t: State<T>) returns (steps: seq<Step<T>>)
    requires Shaped(s) && Leads(cfg, s, t)
    ensures Stretch(cfg, s, steps, t, [], 0)
  {
    steps :| Run(cfg, s, steps, t) && OfDrain(steps);
    hide Do, Enabled;
    DrainAcksNothing(cfg, s, steps);
  }

  lemma {:induction false} DrainAcksNothing<T>(cfg: Config<T>, s: State<T>, steps: seq<Step<T>>)
    requires Shaped(s) && Possible(cfg, s, steps) && OfDrain(steps)
    ensures Acked(cfg, s, steps) == [] && multiset(steps)[WakeTick] == 0
    decreases |steps|
  {
    hide Enabled, Do, Serving;
    if steps != [] {
      OfDrainHead(steps);
      DrainAcksNothing(cfg, Do(cfg, s, steps[0]), steps[1..]);
      assert steps == [steps[0]] + steps[1..];
    }
  }

  lemma StretchGrows<T(!new)>(cfg: Config<T>, s: State<T>, steps: seq<Step<T>>, t: State<T>, acked: seq<nat>,
                              ticks: nat)
    requires Shaped(s) && s.up && Stretch(cfg, s, steps, t, acked, ticks)
    ensures Grown(s, t)
  {
    hide Possible, After, Acked;
    RunGrows(cfg, s, steps);
  }

  lemma GrownCounts<T>(s: State<T>, t: State<T>)
    requires Grown(s, t)
    ensures |s.accepted| <= |t.accepted| && s.fails <= t.fails
  {
  }

  lemma LeadsNowhere<T(!new)>(cfg: Config<T>, s: State<T>)
    requires Shaped(s)
    ensures Leads(cfg, s, s)
  {
    var none: seq<Step<T>> := [];
    assert Run(cfg, s, none, s) && OfDrain(none);
  }

  lemma LeadsStep<T(!new)>(cfg: Config<T>, s: State<T>, t: State<T>, step: Step<T>)
    requires Shaped(s) && Leads(cfg, s, t) && Shaped(t) && Enabled(cfg, t, step) && (Draining(step) || Outside(step))
    ensures Leads(cfg, s, Do(cfg, t, step))
  {
    var steps: seq<Step<T>> :| Run(cfg, s, steps, t) && OfDrain(steps);
    hide Possible, After, Do, Enabled;
    RunSnoc(cfg, s, steps, step);
    OfDrainSnoc(steps, step);
    hide OfDrain;
    assert Run(cfg, s, steps + [step], Do(cfg, t, step));
  }

  lemma OfDrainSnoc<T>(steps: seq<Step<T>>, step: Step<T>)
    requires OfDrain(steps) && (Draining(step) || Outside(step))
    ensures OfDrain(steps + [step])
  {
  }

  lemma StepGrows<T>(cfg: Config<T>, s: State<T>, step: Step<T>)
    requires Shaped(s) && s.up && Enabled(cfg, s, step) && !step.Crash?
    ensures Grown(s, Do(cfg, s, step))
  {
    hide Spool.Load, FileOf, Spool.Group, Spool.Whole, Fresh, Accept;
    if step.Store? { Dispatch(cfg, s, step); }
  }

  lemma {:induction false} RunGrows<T>(cfg: Config<T>, s: State<T>, steps: seq<Step<T>>)
    requires Shaped(s) && s.up && Possible(cfg, s, steps) && Alive(steps)
    ensures Grown(s, After(cfg, s, steps))
    decreases |steps|
  {
    hide Do, Enabled;
    if steps != [] {
      StepGrows(cfg, s, steps[0]);
      RunGrows(cfg, Do(cfg, s, steps[0]), steps[1..]);
    }
  }

  // ---------------------------------------------------------------- the flusher's turns

  /** What wakes the flusher: the timer or the writer's notification, or its flush channel. */
  datatype Wake = Timer | FlushChannel

  /** The last client is gone and all it asked for has reached the flusher: the flush channel is closed. */
  ghost predicate Deserted<T>(s: State<T>) {
    s.closed && s.chan == [] && s.writer == Writer([], [], None) && s.acks == []
  }

  /** From `s` one whole drain is carried through, with others interleaving, and finished in `t`. */
  ghost predicate DrainedAll<T(!new)>(cfg: Config<T>, s: State<T>, t: State<T>)
    requires Shaped(s)
  {
    exists m: State<T> :: Leads(cfg, s, m) && Shaped(m) && m.up && m.flusher.Over? && s.flusher.Swap?
      && m.flusher.job == s.flusher.job && t == m.(flusher := if m.flusher.job.kind.Final? then Exited else Idle)
  }

  /**
   * What a wake-up in `s` leads to: one drain, a flush taken from the channel and drained for, the last
   * drain, or nothing while the channel is empty and open.
   */
  ghost predicate Served<T(!new)>(cfg: Config<T>, wake: Wake, s: State<T>, t: State<T>)
    requires Shaped(s)
  {
    if wake.Timer? then Leads(cfg, s.(flusher := Swap(Job(Tick, s.fails))), t) && t.flusher.Idle?
    else if s.acks != [] then
      DrainedAll(cfg, s.(flusher := Swap(Job(Request(s.acks[0]), s.fails)), acks := s.acks[1..]), t)
    else if Deserted(s) then DrainedAll(cfg, s.(flusher := Swap(Job(Final, s.fails))), t)
    else t == s
  }

  /** The flushes that the wake-ups find pending, each time the first. */
  ghost function Due<T>(wakes: seq<Wake>, found: seq<State<T>>): seq<nat>
    requires |found| <= |wakes|
  {
    if found == [] then []
    else
      var k := |found| - 1;
      Due(wakes, found[..k]) + if wakes[k].FlushChannel? && found[k].acks != [] then [found[k].acks[0]] else []
  }

  /** A wake-up for a whole drain, the drain, and its end, as one run. */
  lemma TurnSteps<T(!new)>(cfg: Config<T>, s: State<T>, wake: Step<T>, drain: seq<Step<T>>, over: State<T>)
    returns (steps: seq<Step<T>>)
    requires Shaped(s) && Enabled(cfg, s, wake) && (wake.WakeFlush? || wake.WakeClosed?)
    requires Stretch(cfg, Do(cfg, s, wake), drain, over, [], 0) && Shaped(over) && Enabled(cfg, over, Finish)
    ensures Stretch(cfg, s, steps, Do(cfg, over, Finish), Serving(over.flusher), 0)
  {
    hide Do, Enabled, Stretch, Serving;
    var m := Do(cfg, s, wake);
    OneStep(cfg, s, wake);
    OneStep(cfg, over, Finish);
    steps := FinishSteps(cfg, m, drain, over);
    StretchJoin(cfg, s, [wake], m, steps, Do(cfg, over, Finish), [], 0, Serving(over.flusher), 0);
    assert [] + Serving(over.flusher) == Serving(over.flusher);
    steps := [wake] + steps;
  }

  lemma FinishSteps<T(!new)>(cfg: Config<T>, s: State<T>, drain: seq<Step<T>>, over: State<T>)
    returns (steps: seq<Step<T>>)
    requires Shaped(s) && Stretch(cfg, s, drain, over, [], 0) && Shaped(over) && Enabled(cfg, over, Finish)
    ensures Stretch(cfg, s, steps, Do(cfg, over, Finish), Serving(over.flusher), 0)
  {
    hide Do, Enabled, Stretch, Serving;
    OneStep(cfg, over, Finish);
    StretchJoin(cfg, s, drain, over, [Finish], Do(cfg, over, Finish), [], 0, Serving(over.flusher), 0);
    assert [] + Serving(over.flusher) == Serving(over.flusher);
    steps := drain + [Finish];
  }

  /** Along a run from and to a state that serves no flush: what was waiting or came, is answered or waits. */
  lemma StretchFlushes<T(!new)>(cfg: Config<T>, s: State<T>, steps: seq<Step<T>>, t: State<T>, acked: seq<nat>,
                                ticks: nat)
    requires Shaped(s) && s.up && Stretch(cfg, s, steps, t, acked, ticks)
    requires Serving(s.flusher) == [] && Serving(t.flusher) == []
    ensures Possible(cfg, s, steps) && t == After(cfg, s, steps) && Alive(steps)
    ensures acked == Acked(cfg, s, steps) && s.acks + Handed(cfg, s, steps) == acked + t.acks
    ensures multiset(steps)[WakeTick] == ticks
    ensures acked == [] ==> s.acks <= t.acks
    ensures s.acks != [] && acked != [] ==> acked[0] == s.acks[0]
  {
    hide Possible, After, Acked, Handed, Serving;
    HandedFlushes(cfg, s, steps);
    assert [] + s.acks == s.acks && [] + t.acks == t.acks;
    assert acked == [] ==> [] + t.acks == t.acks;
    assert s.acks != [] && acked != [] ==> (s.acks + Handed(cfg, s, steps))[0] == (acked + t.acks)[0];
  }

  lemma TicksSnoc(wakes: seq<Wake>, i: nat)
    requires i < |wakes|
    ensures multiset(wakes[..i + 1])[Timer] == multiset(wakes[..i])[Timer] + if wakes[i].Timer? then 1 else 0
    ensures FlushChannel in wakes[..i + 1] <==> FlushChannel in wakes[..i] || wakes[i].FlushChannel?
  {
    assert wakes[..i + 1] == wakes[..i] + [wakes[i]];
  }

  /**
   * Turns of the loop: the others lead from where one leaves the process to where the next wake-up finds
   * it, each wake-up is served, and `answered` are the flushes they found due.
   */
  ghost predicate Turns<T(!new)>(cfg: Config<T>, wakes: seq<Wake>, found: seq<State<T>>, rests: seq<State<T>>,
                                 answered: seq<nat>)
  {
    && |rests| == |found| + 1 && |found| <= |wakes| && answered == Due(wakes, found)
    && (forall k :: 0 <= k < |found| ==> Shaped(found[k]) && Served(cfg, wakes[k], found[k], rests[k + 1]))
    && (forall k :: 0 <= k < |found| ==> Shaped(rests[k]) && Leads(cfg, rests[k], found[k]))
  }

  lemma NoTurns<T(!new)>(cfg: Config<T>, wakes: seq<Wake>, s: State<T>)
    ensures Turns(cfg, wakes, [], [s], [])
  {
  }

  lemma TurnsSnoc<T(!new)>(cfg: Config<T>, wakes: seq<Wake>, found: seq<State<T>>, rests: seq<State<T>>,
                           answered: seq<nat>, at: State<T>, rest: State<T>)
    requires Turns(cfg, wakes, found, rests, answered) && |found| < |wakes|
    requires Shaped(at) && Served(cfg, wakes[|found|], at, rest)
    requires Shaped(rests[|found|]) && Leads(cfg, rests[|found|], at)
    ensures Turns(cfg, wakes, found + [at], rests + [rest],
                  answered + if wakes[|found|].FlushChannel? && at.acks != [] then [at.acks[0]] else [])
  {
    hide Served, Leads;
    assert (found + [at])[..|found|] == found;
  }

  /** A turn after a stretch of turns, seen from the start of the stretch. */
  lemma StretchTurn<T(!new)>(cfg: Config<T>, s: State<T>, wakes: seq<Wake>, i: nat, a: seq<Step<T>>, m: State<T>,
                             acked: seq<nat>, b: seq<Step<T>>, t: State<T>, acked': seq<nat>, at: State<T>)
    requires Shaped(s) && s.up && Shaped(m) && Serving(s.flusher) == [] && Serving(m.flusher) == [] && i < |wakes|
    requires Stretch(cfg, s, a, m, acked, multiset(wakes[..i])[Timer]) && m.acks <= at.acks
    requires Stretch(cfg, m, b, t, acked', if wakes[i].Timer? then 1 else 0)
    requires acked' == if wakes[i].FlushChannel? && at.acks != [] then [at.acks[0]] else []
    requires s.acks != [] && acked == [] ==> FlushChannel !in wakes[..i]
    ensures Stretch(cfg, s, a + b, t, acked + acked', multiset(wakes[..i + 1])[Timer])
    ensures s.acks != [] && acked + acked' == [] ==> FlushChannel !in wakes[..i + 1]
  {
    hide Stretch, Serving;
    StretchFlushes(cfg, s, a, m, acked, multiset(wakes[..i])[Timer]);
    hide Possible, After, Alive, Acked, Handed;
    StretchJoin(cfg, s, a, m, b, t, acked, multiset(wakes[..i])[Timer], acked', if wakes[i].Timer? then 1 else 0);
    TicksSnoc(wakes, i);
  }

  /** In the end every flush handed over is acknowledged in order or still in the channel. */
  lemma TurnsFlushes<T(!new)>(cfg: Config<T>, s: State<T>, wakes: seq<Wake>, i: nat, steps: seq<Step<T>>, t: State<T>,
                              acked: seq<nat>)
    requires Shaped(s) && s.up && Serving(s.flusher) == [] && Serving(t.flusher) == [] && i <= |wakes|
    requires Stretch(cfg, s, steps, t, acked, multiset(wakes[..i])[Timer])
    requires s.acks != [] && acked == [] ==> FlushChannel !in wakes[..i]
    requires i == |wakes| || t.acks == []
    ensures Possible(cfg, s, steps) && t == After(cfg, s, steps) && Alive(steps)
    ensures acked == Acked(cfg, s, steps) && s.acks + Handed(cfg, s, steps) == acked + t.acks
    ensures multiset(steps)[WakeTick] == multiset(wakes[..i])[Timer]
    ensures s.acks != [] && FlushChannel in wakes ==> acked != [] && acked[0] == s.acks[0]
  {
    hide Stretch, Serving;
    StretchFlushes(cfg, s, steps, t, acked, multiset(wakes[..i])[Timer]);
    assert i == |wakes| ==> wakes[..i] == wakes;
  }
}
