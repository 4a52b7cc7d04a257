/** The promises of the batcher, over every interleaving, every `store` result and every crash. */
module BatchTheorems {
  import opened Prelude
  import opened BatchProtocol
  import opened BatchSafety
  import Spool
  import Stores

  lemma {:induction false} RunKeeps<T(!new)>(cfg: Config<T>, s: State<T>, steps: seq<Step<T>>)
    requires Proper(cfg) && Inv(cfg, s) && Possible(cfg, s, steps)
    ensures Inv(cfg, After(cfg, s, steps))
    decreases |steps|
  {
    if steps != [] {
      StepKeeps(cfg, s, steps[0]);
      RunKeeps(cfg, Do(cfg, s, steps[0]), steps[1..]);
    }
  }

  lemma BootInv<T>(cfg: Config<T>)
    ensures Inv(cfg, Boot())
  {
    assert Spool.Recovered(cfg.codec, []) == [];
  }

  /** A state some run of the batcher, from a first start on, can be in. */
  ghost predicate Reachable<T(!new)>(cfg: Config<T>, s: State<T>) {
    exists steps :: Possible(cfg, Boot(), steps) && s == After(cfg, Boot(), steps)
  }

  lemma ReachableInv<T(!new)>(cfg: Config<T>, s: State<T>)
    requires Proper(cfg) && Reachable(cfg, s)
    ensures Inv(cfg, s)
  {
    var steps :| Possible(cfg, Boot(), steps) && s == After(cfg, Boot(), steps);
    BootInv(cfg);
    RunKeeps(cfg, Boot(), steps);
  }

  lemma {:induction false} RunSnoc<T>(cfg: Config<T>, s: State<T>, steps: seq<Step<T>>, step: Step<T>)
    requires Shaped(s) && Possible(cfg, s, steps) && Enabled(cfg, After(cfg, s, steps), step)
    ensures Possible(cfg, s, steps + [step])
    ensures After(cfg, s, steps + [step]) == Do(cfg, After(cfg, s, steps), step)
    decreases |steps|
  {
    hide Enabled, Do;
    if steps == [] {
      assert [step][1..] == [];
      assert steps + [step] == [step];
    } else {
      RunSnoc(cfg, Do(cfg, s, steps[0]), steps[1..], step);
      assert (steps + [step])[1..] == steps[1..] + [step];
    }
  }

  lemma ReachableStep<T(!new)>(cfg: Config<T>, s: State<T>, step: Step<T>)
    requires Reachable(cfg, s) && Shaped(s) && Enabled(cfg, s, step)
    ensures Reachable(cfg, Do(cfg, s, step))
    ensures s.up && !step.Store? && !step.Crash? ==> Do(cfg, s, step).accepted == s.accepted
  {
    hide Do, Enabled;
    if s.up && !step.Crash? { WriterKeeps(cfg, s, step); }
    var steps :| Possible(cfg, Boot(), steps) && s == After(cfg, Boot(), steps);
    RunSnoc(cfg, Boot(), steps, step);
  }

  lemma ReachableShaped<T(!new)>(cfg: Config<T>, s: State<T>)
    requires Proper(cfg) && Reachable(cfg, s)
    ensures Shaped(s) && Spool.FitsAll(cfg.codec, s.slots[0].log) && Spool.FitsAll(cfg.codec, s.slots[1].log)
    ensures cfg.spooling || (s.slots[0].log == [] && s.slots[1].log == [])
    ensures s.up ==> Sealing(s)
  {
    hide Sealing, Conserved, FlushOrder, DrainContract, FileShape, Safe, Reachable, Proper;
    ReachableInv(cfg, s);
  }

  /**
   * Conservation. In every reachable state the items accepted so far, held by the running drain, in the
   * sealed slot, in the active slot, in the writer and in the channel are, in this order, exactly the
   * items of this run: nothing is lost, duplicated or reordered.
   */
  lemma Conservation<T(!new)>(cfg: Config<T>, s: State<T>)
    requires Proper(cfg) && Reachable(cfg, s) && s.up
    ensures Values(AcceptedEntries(s.accepted)) + Values(Held(s.flusher))
            + Values(s.slots[1 - s.active].items) + Values(s.slots[s.active].items)
            + s.writer.items + Pushes(s.writer.cmds) + Pushes(s.chan) == s.pushed
  {
    ReachableInv(cfg, s);
    hide Inv, Conserved, Held, AcceptedEntries, Values, Pushes, Reachable, Proper;
    InvParts(cfg, s);
    SpellOut(s);
  }

  lemma SpellOut<T>(s: State<T>)
    requires Shaped(s) && Conserved(s)
    ensures Values(AcceptedEntries(s.accepted)) + Values(Held(s.flusher))
            + Values(s.slots[1 - s.active].items) + Values(s.slots[s.active].items)
            + s.writer.items + Pushes(s.writer.cmds) + Pushes(s.chan) == s.pushed
  {
    hide Held, AcceptedEntries, Values, Pushes;
    var a, h := AcceptedEntries(s.accepted), Held(s.flusher);
    var x, y := s.slots[1 - s.active].items, s.slots[s.active].items;
    PushesConcat(s.writer.cmds, s.chan);
    ValuesConcat(a, h + x + y);
    ValuesConcat(h + x, y);
    ValuesConcat(h, x);
    Flatten(Values(a), Values(h), Values(x), Values(y), s.writer.items, Pushes(s.writer.cmds), Pushes(s.chan));
  }

  lemma Flatten<A>(a: seq<A>, h: seq<A>, x: seq<A>, y: seq<A>, w: seq<A>, c: seq<A>, d: seq<A>)
    ensures a + (h + x + y) + (w + (c + d)) == a + h + x + y + w + c + d
  {
    Associative(w, c, d);
    Associative(a + (h + x + y), w + c, d);
    Associative(a + (h + x + y), w, c);
    Associative(a, h + x, y);
    Associative(a, h, x);
  }

  /** The writer never touches the slot being drained, so putting the rest back overwrites nothing. */
  lemma PutBackOverwritesNothing<T(!new)>(cfg: Config<T>, s: State<T>)
    requires Proper(cfg) && Reachable(cfg, s) && s.up && (s.flusher.Storing? || s.flusher.Refused?)
    ensures s.flusher.sealed == 1 - s.active && s.slots[s.flusher.sealed].items == []
  {
    ReachableInv(cfg, s);
  }

  /**
   * In every reachable state of every run each file holds exactly what its slot had accepted since it was
   * last emptied, followed by the spooled items it still owes: an item replayed although accepted was
   * accepted from that slot since its last truncation, also when a truncation or a drain failed.
   */
  lemma FileContents<T(!new)>(cfg: Config<T>, s: State<T>, i: nat)
    requires Proper(cfg) && Reachable(cfg, s) && s.up && i < 2
    ensures s.marks[i] <= |s.accepted|
    ensures Spool.Recovered(cfg.codec, s.slots[i].log)
              == Spooled(From(s.accepted[s.marks[i]..], i)) + Spooled(Pending(s, i))
  {
    ReachableInv(cfg, s);
    hide Inv, Spooled, From, Spool.Recovered, Pending, Reachable, Proper;
    ShapeHolds(cfg, s, i);
  }

  /**
   * The ledger over any number of runs, item by item and copy by copy: what was ever spooled whole, plus
   * what was replayed although accepted, is exactly what was accepted from the spool plus what is still
   * owed, by the slots of a living process or by the files of a dead one.
   */
  lemma Ledger<T(!new)>(cfg: Config<T>, s: State<T>)
    requires Proper(cfg) && Reachable(cfg, s)
    ensures s.up ==>
              s.ever + s.past.replayed ==
                s.past.accepted + multiset(Spooled(AcceptedEntries(s.accepted)))
                + multiset(Spooled(Pending(s, 0))) + multiset(Spooled(Pending(s, 1)))
    ensures !s.up ==>
              s.ever + s.past.replayed ==
                s.past.accepted + multiset(Spool.Recovered(cfg.codec, s.slots[0].log))
                + multiset(Spool.Recovered(cfg.codec, s.slots[1].log))
  {
    hide Spooled, Pending, AcceptedEntries, Spool.Recovered, Reachable, Proper;
    ReachableInv(cfg, s);
  }

  /** A restart comes up unless an append stopped inside a character, and then holds all the files gave back. */
  lemma Restart<T(!new)>(cfg: Config<T>, s: State<T>)
    requires Proper(cfg) && Reachable(cfg, s) && !s.up
    ensures Enabled(cfg, s, Open) <==>
              Spool.Readable(cfg.codec, s.slots[0].log) && Spool.Readable(cfg.codec, s.slots[1].log)
    ensures Enabled(cfg, s, Open) ==>
              && Values(DoOpen(cfg, s).slots[0].items) == Spool.Recovered(cfg.codec, s.slots[0].log)
              && Values(DoOpen(cfg, s).slots[1].items) == Spool.Recovered(cfg.codec, s.slots[1].log)
  {
    ReachableInv(cfg, s);
    Spool.TornWrites(cfg.codec, s.slots[0].log);
    Spool.TornWrites(cfg.codec, s.slots[1].log);
    hide Spool.Load, Spool.Recovered, Spool.File, Safe;
    if Enabled(cfg, s, Open) {
      OpenSlot(cfg, s.slots[0].log, 0);
      OpenSlot(cfg, s.slots[1].log, 1);
    }
  }

  /**
   * Crash safety. Whenever the process dies, the next start comes up exactly if both files are readable, and
   * then each slot holds every item it still owed, in order, behind exactly those it had accepted since its
   * file was last emptied: these are the only duplicates, and nothing owed is missing. With `Ledger` before
   * and after, every spooled copy of an item is accounted for over all runs.
   */
  lemma CrashSafety<T(!new)>(cfg: Config<T>, s: State<T>)
    requires Proper(cfg) && Reachable(cfg, s) && s.up
    ensures var down := DoCrash(s);
            && Reachable(cfg, down)
            && (Enabled(cfg, down, Open) <==>
                  Spool.Readable(cfg.codec, s.slots[0].log) && Spool.Readable(cfg.codec, s.slots[1].log))
            && (Enabled(cfg, down, Open) ==>
                  && Values(DoOpen(cfg, down).slots[0].items) == Since(s, 0) + Spooled(Pending(s, 0))
                  && Values(DoOpen(cfg, down).slots[1].items) == Since(s, 1) + Spooled(Pending(s, 1)))
  {
    hide Reachable, Proper, Enabled, Do, DoOpen, Values, Spooled, From, Pending, Spool.Recovered, Spool.Readable;
    ReachableShaped(cfg, s);
    CrashStep(cfg, s);
    ReachableStep(cfg, s, Crash);
    var down := DoCrash(s);
    Restart(cfg, down);
    FileContents(cfg, s, 0);
    FileContents(cfg, s, 1);
  }

  /**
   * Flush contract. When a flush is about to be acknowledged, every item pushed before it has been
   * accepted, or some `store` call of that drain returned false; in both cases every item pushed before
   * it and not accepted sits in a slot, in order, right behind the accepted ones.
   */
  lemma FlushContract<T(!new)>(cfg: Config<T>, s: State<T>)
    requires Proper(cfg) && Reachable(cfg, s) && s.up && s.flusher.Over? && s.flusher.job.kind.Request?
    ensures var mark, done := s.flusher.job.kind.mark, |s.accepted|;
            && (mark <= done || s.flusher.job.since < s.fails)
            && mark <= |s.pushed| && done <= |s.pushed|
            && s.pushed[..done] == Values(AcceptedEntries(s.accepted))
            && (done < mark ==>
                  s.pushed[done..mark] <= Values(s.slots[1 - s.active].items) + Values(s.slots[s.active].items))
  {
    hide Inv, Conserved, Proper, Reachable, Values, AcceptedEntries;
    ReachableInv(cfg, s);
    InvParts(cfg, s);
    FlushedPrefix(s, s.flusher.job.kind.mark);
  }

  lemma FlushedPrefix<T>(s: State<T>, mark: nat)
    requires Shaped(s) && Conserved(s) && s.flusher.Over? && mark <= Reached(s)
    ensures mark <= |s.pushed| && |s.accepted| <= |s.pushed|
    ensures s.pushed[..|s.accepted|] == Values(AcceptedEntries(s.accepted))
    ensures |s.accepted| < mark ==>
              s.pushed[|s.accepted|..mark] <= Values(s.slots[1 - s.active].items) + Values(s.slots[s.active].items)
  {
    SettledPrefix(s);
    assert InSlots(s) == s.slots[1 - s.active].items + s.slots[s.active].items;
    ValuesConcat(s.slots[1 - s.active].items, s.slots[s.active].items);
    var done := |s.accepted|;
    assert done < mark ==> s.pushed[done..mark] == s.pushed[done..Reached(s)][..mark - done];
  }

  lemma SettledPrefix<T>(s: State<T>)
    requires Shaped(s) && Conserved(s)
    ensures Reached(s) <= |s.pushed|
    ensures s.pushed[..|s.accepted|] == Values(AcceptedEntries(s.accepted))
    ensures s.pushed[|s.accepted|..Reached(s)] == Values(InSlots(s))
  {
    ValuesConcat(AcceptedEntries(s.accepted), InSlots(s));
    var a, b, c := Values(AcceptedEntries(s.accepted)), Values(InSlots(s)), s.writer.items + Pushes(Queue(s));
    assert s.pushed == a + b + c;
    assert (a + b + c)[..|a|] == a;
    assert (a + b + c)[|a|..|a| + |b|] == b;
  }

  /** Graceful shutdown: the last drain leaves nothing behind unless one of its `store` calls failed. */
  lemma ShutdownContract<T(!new)>(cfg: Config<T>, s: State<T>)
    requires Proper(cfg) && Reachable(cfg, s) && s.up && s.flusher.Over? && s.flusher.job.kind.Final?
    ensures Values(AcceptedEntries(s.accepted)) == s.pushed || s.flusher.job.since < s.fails
  {
    hide Inv, Conserved, DrainContract, Proper, Reachable, Values, AcceptedEntries;
    ReachableInv(cfg, s);
    InvParts(cfg, s);
    NothingLeft(s);
  }

  /** The last drain runs only once nobody can hand over a flush any more. */
  lemma FinalInbox<T(!new)>(cfg: Config<T>, s: State<T>)
    requires Proper(cfg) && Reachable(cfg, s) && s.up && s.flusher.Over? && s.flusher.job.kind.Final?
    ensures s.acks == []
  {
    hide Inv, Conserved, Proper, Reachable, InSlots, Reached;
    ReachableInv(cfg, s);
    InvParts(cfg, s);
  }

  lemma NothingLeft<T>(s: State<T>)
    requires Shaped(s) && Conserved(s) && DrainContract(s) && s.flusher.Over? && s.flusher.job.kind.Final?
    ensures Values(AcceptedEntries(s.accepted)) == s.pushed || s.flusher.job.since < s.fails
  {
    hide Values, AcceptedEntries, InSlots, WriterBusy;
    Unbusy(s.writer);
    if InSlots(s) == [] && !WriterBusy(s.writer) {
      assert AcceptedEntries(s.accepted) + InSlots(s) == AcceptedEntries(s.accepted);
    }
  }

  lemma Unbusy<T>(w: Writer<T>)
    ensures WriterBusy(w) || (w.items == [] && w.cmds == [])
  {
  }

  /**
   * The fate of an item, end to end: given an honest receipt for every `store` call that returned true,
   * each item of the run was inserted, or refused in a statement of its own, or it is still buffered.
   */
  lemma ItemFate<T(!new)>(cfg: Config<T>, s: State<T>, receipts: seq<Stores.Receipt<T>>, j: nat)
    requires Proper(cfg) && Reachable(cfg, s) && s.up && j < |s.pushed|
    requires Stores.Honest(receipts) && Stores.RowsOf(receipts) == Values(AcceptedEntries(s.accepted))
    ensures j < |s.accepted| ==>
              exists r, i :: 0 <= r < |receipts| && 0 <= i < |receipts[r].rows|
                && receipts[r].rows[i] == s.pushed[j] && Stores.Settled(receipts[r].calls, i)
    ensures |s.accepted| <= j < Reached(s) ==> s.pushed[j] == Values(InSlots(s))[j - |s.accepted|]
    ensures Reached(s) <= j ==>
              && j - Reached(s) < |s.writer.items + Pushes(Queue(s))|
              && s.pushed[j] == (s.writer.items + Pushes(Queue(s)))[j - Reached(s)]
  {
    ReachableInv(cfg, s);
    hide Inv, Conserved, Reachable, Proper;
    InvParts(cfg, s);
    FateOf(s, receipts, j);
  }

  lemma FateOf<T>(s: State<T>, receipts: seq<Stores.Receipt<T>>, j: nat)
    requires Shaped(s) && Conserved(s) && j < |s.pushed|
    requires Stores.Honest(receipts) && Stores.RowsOf(receipts) == Values(AcceptedEntries(s.accepted))
    ensures j < |s.accepted| ==>
              exists r, i :: 0 <= r < |receipts| && 0 <= i < |receipts[r].rows|
                && receipts[r].rows[i] == s.pushed[j] && Stores.Settled(receipts[r].calls, i)
    ensures |s.accepted| <= j < Reached(s) ==> s.pushed[j] == Values(InSlots(s))[j - |s.accepted|]
    ensures Reached(s) <= j ==>
              && j - Reached(s) < |s.writer.items + Pushes(Queue(s))|
              && s.pushed[j] == (s.writer.items + Pushes(Queue(s)))[j - Reached(s)]
  {
    hide Pushes, AcceptedEntries, InSlots, Stores.Settled, Stores.Honest;
    ValuesConcat(AcceptedEntries(s.accepted), InSlots(s));
    if j < |s.accepted| {
      var r, i := Stores.RowFate(receipts, j);
    }
  }

  /**
   * No `store` call carries more than `batch_max_size` items, nor none: a chunk is that many of the items the
   * drain still holds, or all of them, from the front.
   */
  lemma ChunkOfStore<T(!new)>(cfg: Config<T>, s: State<T>)
    requires Proper(cfg) && Reachable(cfg, s) && s.up && Enabled(cfg, s, Store(true))
    ensures var held, stored := Values(Held(s.flusher)), |Do(cfg, s, Store(true)).accepted| - |s.accepted|;
            && 1 <= stored <= cfg.chunk && stored == Min(cfg.chunk, |held|)
            && Values(AcceptedEntries(Do(cfg, s, Store(true)).accepted))
               == Values(AcceptedEntries(s.accepted)) + held[..stored]
            && Values(Held(Do(cfg, s, Store(true)).flusher)) == held[stored..]
  {
    ReachableShaped(cfg, s);
    Dispatch(cfg, s, Store(true));
    ProperChunk(cfg);
    hide Do, Enabled, Reachable, Proper, Sealing;
    StoreTakes(cfg, s);
  }

  lemma StoreTakes<T>(cfg: Config<T>, s: State<T>)
    requires Shaped(s) && s.flusher.Storing? && s.flusher.stored < |s.flusher.items| && cfg.chunk > 0
    ensures var held, s' := Values(Held(s.flusher)), DoStore(cfg, s, true);
            var stored := Min(cfg.chunk, |held|);
            && |s'.accepted| == |s.accepted| + stored
            && Values(AcceptedEntries(s'.accepted)) == Values(AcceptedEntries(s.accepted)) + held[..stored]
            && Values(Held(s'.flusher)) == held[stored..]
  {
  }

  // ---------------------------------------------------------------- termination of drain_all

  /** Twice the items that can still arrive in a slot, plus the items in slots. */
  ghost function Energy<T>(s: State<T>): nat
    requires Shaped(s)
  {
    2 * (|s.writer.items| + |Pushes(Queue(s))|) + |InSlots(s)|
  }

  ghost function Rank<T>(s: State<T>): nat
    requires Shaped(s)
  {
    match s.flusher
    case Stored(_, _) => 5
    case Drained(_) => 4
    case Swap(_) => if InSlots(s) == [] then 5 else 3
    case Storing(_, _, _, _) => 2
    case Refused(_, _, _, _) => 1
    case _ => 0
  }

  ghost function Potential<T>(s: State<T>): nat
    requires Shaped(s)
  {
    4 * Energy(s) + Rank(s)
  }

  ghost predicate OfDrain<T>(steps: seq<Step<T>>) {
    forall i :: 0 <= i < |steps| ==> Draining(steps[i]) || Outside(steps[i])
  }

  ghost function DrainSteps<T>(steps: seq<Step<T>>): nat {
    if steps == [] then 0 else (if Draining(steps[0]) then 1 else 0) + DrainSteps(steps[1..])
  }

  ghost function Arrivals<T>(steps: seq<Step<T>>): nat {
    if steps == [] then 0 else (if steps[0].Send? then 1 else 0) + Arrivals(steps[1..])
  }

  lemma EnergyKeeps<T>(cfg: Config<T>, s: State<T>, step: Step<T>)
    requires Shaped(s) && s.up && Sealing(s) && Enabled(cfg, s, step) && !step.Crash? && cfg.chunk > 0
    ensures Energy(Do(cfg, s, step)) ==
            Energy(s) + (if step.Send? then 2 else 0)
            - (if step.Append? then |s.writer.items| else 0)
            - (|Do(cfg, s, step).accepted| - |s.accepted|)
  {
    ReachedKeeps(cfg, s, step);
    QueueKeeps(cfg, s, step);
    WriterKeeps(cfg, s, step);
    hide Do, Enabled, Sealing, InSlots, Pushes, Queue;
    var q := Queue(s);
    if step.Send? { QueueAppend(q, Push(step.item)); }
    else if step.SendFlush? { QueueAppend(q, Flush(|s.pushed|)); }
    else if step.Collect? || (step.Append? && s.writer.cmds != []) { PushesHead(q); }
  }

  lemma DrainRank<T>(cfg: Config<T>, s: State<T>, step: Step<T>)
    requires Shaped(s) && s.up && Sealing(s) && Enabled(cfg, s, step) && Draining(step) && cfg.chunk > 0
    ensures var s' := Do(cfg, s, step); Rank(s') + 1 <= Rank(s) + 4 * (|s'.accepted| - |s.accepted|)
  {
    Dispatch(cfg, s, step);
    hide Do, Enabled, InSlots, Fresh, Accept;
    if step.Take? {
      TakeRank(s);
    } else if step.Check? {
      CheckEffect(cfg, s);
      CheckRank(s);
    }
  }

  lemma TakeRank<T>(s: State<T>)
    requires Shaped(s) && s.flusher.Swap?
    ensures Rank(DoTake(s)) < Rank(s) && DoTake(s).accepted == s.accepted
  {
  }

  lemma CheckRank<T>(s: State<T>)
    requires Shaped(s) && s.flusher.Drained?
    ensures Rank(DoCheck(s)) < Rank(s)
  {
  }

  lemma CheckEffect<T>(cfg: Config<T>, s: State<T>)
    requires Shaped(s) && s.up && Enabled(cfg, s, Check)
    ensures s.flusher.Drained? && Do(cfg, s, Check) == DoCheck(s)
  {
  }

  /** Every step of a drain lowers the potential; appending never raises it; one push adds eight. */
  lemma PotentialStep<T>(cfg: Config<T>, s: State<T>, step: Step<T>)
    requires Shaped(s) && s.up && Sealing(s) && Enabled(cfg, s, step) && cfg.chunk > 0
    requires Draining(step) || Outside(step)
    ensures Potential(Do(cfg, s, step)) + (if Draining(step) then 1 else 0)
            <= Potential(s) + if step.Send? then 8 else 0
  {
    hide Do, Enabled, Energy, Rank, Sealing;
    EnergyKeeps(cfg, s, step);
    WriterKeeps(cfg, s, step);
    if Draining(step) {
      DrainRank(cfg, s, step);
    } else {
      OutsideRank(cfg, s, step);
    }
  }

  lemma OutsideRank<T>(cfg: Config<T>, s: State<T>, step: Step<T>)
    requires Shaped(s) && s.up && Sealing(s) && Enabled(cfg, s, step) && Outside(step) && cfg.chunk > 0
    ensures Rank(Do(cfg, s, step)) <= Rank(s)
  {
    hide Do, Enabled, InSlots, Sealing;
    OtherFrame(cfg, s, step);
    ReachedKeeps(cfg, s, step);
  }

  /**
   * `drain_all` terminates when finitely many items arrive: the number of its steps is bounded by its
   * potential at the start plus eight for every item pushed meanwhile, whatever the writer interleaves
   * and whatever `store` returns.
   */
  lemma {:induction false} DrainAllTerminates<T(!new)>(cfg: Config<T>, s: State<T>, steps: seq<Step<T>>)
    requires Proper(cfg) && Inv(cfg, s) && s.up && Possible(cfg, s, steps)
    requires OfDrain(steps)
    ensures DrainSteps(steps) + Potential(After(cfg, s, steps))
            <= Potential(s) + 8 * Arrivals(steps)
    decreases |steps|
  {
    hide Do, Enabled, Potential, Sealing, Proper, OfDrain;
    if steps != [] {
      hide Inv;
      var step, rest, s' := steps[0], steps[1..], Do(cfg, s, steps[0]);
      OfDrainHead(steps);
      DrainAllStep(cfg, s, step);
      DrainAllTerminates(cfg, s', rest);
    }
  }

  lemma OfDrainHead<T>(steps: seq<Step<T>>)
    requires OfDrain(steps) && steps != []
    ensures OfDrain(steps[1..]) && (Draining(steps[0]) || Outside(steps[0]))
  {
    assert forall i :: 0 <= i < |steps[1..]| ==> steps[1..][i] == steps[i + 1];
  }

  lemma DrainAllStep<T(!new)>(cfg: Config<T>, s: State<T>, step: Step<T>)
    requires Proper(cfg) && Inv(cfg, s) && s.up && Enabled(cfg, s, step) && (Draining(step) || Outside(step))
    ensures Inv(cfg, Do(cfg, s, step)) && Do(cfg, s, step).up
    ensures Potential(Do(cfg, s, step)) + (if Draining(step) then 1 else 0)
            <= Potential(s) + if step.Send? then 8 else 0
  {
    hide Do, Enabled, Inv, Potential, Sealing, Proper;
    InvParts(cfg, s);
    ProperChunk(cfg);
    PotentialStep(cfg, s, step);
    StepKeeps(cfg, s, step);
    Kinds(cfg, s, step);
  }

  lemma ProperChunk<T(!new)>(cfg: Config<T>)
    requires Proper(cfg)
    ensures cfg.chunk > 0
  {
  }

  /** Until the drain is over it always has a step to take: no interleaving can block it. */
  lemma DrainNeverBlocks<T(!new)>(cfg: Config<T>, s: State<T>)
    requires Proper(cfg) && Reachable(cfg, s) && s.up && HasJob(s.flusher) && !s.flusher.Over?
    ensures exists step :: Draining(step) && Enabled(cfg, s, step)
  {
    ReachableInv(cfg, s);
    var step: Step<T> :=
      if s.flusher.Swap? then Take
      else if s.flusher.Storing? then Store(true)
      else if s.flusher.Refused? then PutBack
      else if s.flusher.Stored? then Truncate(true)
      else Check;
    assert Draining(step) && Enabled(cfg, s, step);
  }
}
