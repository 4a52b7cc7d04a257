/** What every reachable state of the batcher keeps: conservation, order, crash safety, flush contract. */
module BatchSafety {
  import opened Prelude
  import opened BatchProtocol
  import Spool

  // ---------------------------------------------------------------- views over concatenations

  lemma ValuesConcat<T>(a: seq<Entry<T>>, b: seq<Entry<T>>)
    ensures Values(a + b) == Values(a) + Values(b)
  {
  }

  lemma AcceptedConcat<T>(a: seq<Acceptance<T>>, b: seq<Acceptance<T>>)
    ensures AcceptedEntries(a + b) == AcceptedEntries(a) + AcceptedEntries(b)
  {
  }

  lemma {:induction false} SpooledConcat<T>(a: seq<Entry<T>>, b: seq<Entry<T>>)
    ensures Spooled(a + b) == Spooled(a) + Spooled(b)
    decreases |b|
  {
    if b == [] {
      assert a + b == a;
    } else {
      SpooledConcat(a, b[..|b| - 1]);
      assert (a + b)[..|a + b| - 1] == a + b[..|b| - 1];
    }
  }

  lemma {:induction false} PushesConcat<T>(a: seq<Cmd<T>>, b: seq<Cmd<T>>)
    ensures Pushes(a + b) == Pushes(a) + Pushes(b)
    decreases |b|
  {
    if b == [] {
      assert a + b == a;
    } else {
      PushesConcat(a, b[..|b| - 1]);
      assert (a + b)[..|a + b| - 1] == a + b[..|b| - 1];
    }
  }

  lemma {:induction false} FromConcat<T>(a: seq<Acceptance<T>>, b: seq<Acceptance<T>>, i: nat)
    ensures From(a + b, i) == From(a, i) + From(b, i)
    decreases |b|
  {
    if b == [] {
      assert a + b == a;
    } else {
      FromConcat(a, b[..|b| - 1], i);
      assert (a + b)[..|a + b| - 1] == a + b[..|b| - 1];
    }
  }

  lemma {:induction false} FromAccept<T>(chunk: seq<Entry<T>>, slot: nat, i: nat)
    ensures From(Accept(chunk, slot), i) == if i == slot then chunk else []
    decreases |chunk|
  {
    if chunk != [] {
      FromAccept(chunk[..|chunk| - 1], slot, i);
      assert Accept(chunk, slot)[..|chunk| - 1] == Accept(chunk[..|chunk| - 1], slot);
    }
  }

  lemma {:induction false} SpooledFresh<T>(values: seq<T>, n: nat)
    requires n <= |values|
    ensures Spooled(Fresh(values, n)) == values[..n]
    decreases |values|
  {
    if values != [] {
      var init := values[..|values| - 1];
      SpooledFresh(init, Min(n, |init|));
      assert Fresh(values, n)[..|init|] == Fresh(init, Min(n, |init|));
      assert n < |values| ==> values[..n] == init[..n];
      assert n == |values| ==> values[..n] == init + [values[|init|]];
    }
  }

  // ---------------------------------------------------------------- invariants

  /** While a drain runs, its slot is the sealed one and empty, so the put-back overwrites nothing. */
  ghost predicate Sealing<T>(s: State<T>)
    requires Shaped(s)
  {
    && (s.flusher.Storing? || s.flusher.Refused? ==>
          s.flusher.sealed == 1 - s.active && s.flusher.stored < |s.flusher.items|)
    && (s.flusher.Storing? || s.flusher.Refused? || s.flusher.Stored? ==>
          s.flusher.sealed == 1 - s.active && s.slots[s.flusher.sealed].items == [])
  }

  /** Items of this run that are in a slot or past it, in order. */
  ghost function Settled<T>(s: State<T>): seq<T>
    requires Shaped(s)
  {
    Values(AcceptedEntries(s.accepted) + InSlots(s))
  }

  /** Commands not yet appended, in order. */
  ghost function Queue<T>(s: State<T>): seq<Cmd<T>> { s.writer.cmds + s.chan }

  /** Nothing lost, duplicated or reordered within a run. */
  ghost predicate Conserved<T>(s: State<T>)
    requires Shaped(s)
  {
    Settled(s) + (s.writer.items + Pushes(Queue(s))) == s.pushed
  }

  /** Each file is what its slot had accepted since it was last emptied, then what it still owes. */
  ghost predicate FileShape<T>(cfg: Config<T>, s: State<T>, i: nat)
    requires Shaped(s) && i < 2
  {
    s.marks[i] <= |s.accepted| && ShapeOf(cfg.codec, s.slots[i].log, s.accepted[s.marks[i]..], i, Pending(s, i))
  }

  ghost predicate ShapeOf<T>(c: Spool.Codec<T>, log: seq<Spool.Write<T>>, since: seq<Acceptance<T>>, i: nat,
                       pending: seq<Entry<T>>)
  {
    Spool.Recovered(c, log) == Spooled(From(since, i)) + Spooled(pending)
  }

  ghost predicate FilesFit<T>(cfg: Config<T>, s: State<T>)
    requires Shaped(s)
  {
    && Spool.FitsAll(cfg.codec, s.slots[0].log) && Spool.FitsAll(cfg.codec, s.slots[1].log)
    && (cfg.spooling || (s.slots[0].log == [] && s.slots[1].log == []))
  }

  /**
   * The ledger of all runs: every item ever spooled whole, and every replay of an accepted one, has been
   * accepted or is owed: by a slot of a living process, by a file of a dead one.
   */
  ghost predicate Safe<T>(cfg: Config<T>, s: State<T>)
    requires Shaped(s)
  {
    if s.up then Covered(s.ever, s.past, s.accepted, Pending(s, 0), Pending(s, 1))
    else
      s.ever + s.past.replayed ==
        s.past.accepted + multiset(Spool.Recovered(cfg.codec, s.slots[0].log))
        + multiset(Spool.Recovered(cfg.codec, s.slots[1].log))
  }

  ghost predicate Covered<T>(ever: multiset<T>, past: Past<T>, accepted: seq<Acceptance<T>>,
                       p0: seq<Entry<T>>, p1: seq<Entry<T>>)
  {
    ever + past.replayed ==
      past.accepted + multiset(Spooled(AcceptedEntries(accepted))) + multiset(Spooled(p0)) + multiset(Spooled(p1))
  }

  /** Number of items of this run that are in a slot or past it. */
  ghost function Reached<T>(s: State<T>): nat
    requires Shaped(s)
  {
    |s.accepted| + |InSlots(s)|
  }

  /** Every flush in `queue` carries `base` plus the number of pushes before it. */
  ghost predicate QueueMarks<T>(queue: seq<Cmd<T>>, base: nat) {
    forall j :: 0 <= j < |queue| && queue[j].Flush? ==> queue[j].mark == base + |Pushes(queue[..j])|
  }

  /** A flush still queued carries the exact position of its push; one handed over is behind its pushes. */
  ghost predicate FlushOrder<T>(s: State<T>)
    requires Shaped(s)
  {
    && QueueMarks(Queue(s), Reached(s) + |s.writer.items|)
    && (s.writer.sending.Some? ==> s.writer.sending.value <= Reached(s) && s.writer.items == [])
    && (forall j :: 0 <= j < |s.acks| ==> s.acks[j] <= Reached(s))
  }

  ghost predicate HasJob<T>(f: Flusher<T>) { !f.Idle? && !f.Exited? }

  ghost predicate DrainContract<T>(s: State<T>)
    requires Shaped(s)
  {
    var f := s.flusher;
    && (HasJob(f) ==> f.job.since <= s.fails)
    && (f.Refused? ==> f.job.since < s.fails)
    && (HasJob(f) && f.job.kind.Request? ==> f.job.kind.mark <= Reached(s))
    && (HasJob(f) && f.job.kind.Final? ==> s.closed && s.chan == [] && !WriterBusy(s.writer) && s.acks == [])
    && (f.Over? ==> !f.job.kind.Tick?)
    && (f.Over? && f.job.kind.Request? ==> f.job.kind.mark <= |s.accepted| || f.job.since < s.fails)
    && (f.Over? && f.job.kind.Final? ==> InSlots(s) == [] || f.job.since < s.fails)
  }

  ghost predicate Inv<T>(cfg: Config<T>, s: State<T>) {
    && Shaped(s)
    && (if s.up then Sealing(s) && Conserved(s) && OnDisk(cfg, s) && FlushOrder(s) && DrainContract(s)
        else FilesFit(cfg, s) && Safe(cfg, s))
  }

  // ---------------------------------------------------------------- preservation, invariant by invariant

  /** Client and writer steps. */
  ghost predicate Outside<T>(step: Step<T>) {
    step.Send? || step.SendFlush? || step.Close? || step.Receive? || step.Collect? || step.Append? || step.Forward?
  }

  ghost predicate Wakes<T>(step: Step<T>) { step.WakeTick? || step.WakeFlush? || step.WakeClosed? }

  /** Steps of the drain itself. */
  ghost predicate Draining<T>(step: Step<T>) {
    step.Take? || step.Store? || step.PutBack? || step.Truncate? || step.Check?
  }

  /** Steps that touch neither a slot, a file, nor what a drain holds. */
  ghost predicate Quiet<T>(step: Step<T>) {
    !step.Append? && !step.Take? && !step.Store? && !step.PutBack? && !step.Truncate? && !step.Crash? && !step.Open?
  }

  lemma QuietFrame<T>(cfg: Config<T>, s: State<T>, step: Step<T>)
    requires Shaped(s) && s.up && Enabled(cfg, s, step) && Quiet(step)
    ensures var s' := Do(cfg, s, step);
            && s'.up && s'.slots == s.slots && s'.active == s.active && s'.accepted == s.accepted
            && s'.marks == s.marks && s'.fails == s.fails && s'.ever == s.ever && s'.past == s.past
            && Held(s'.flusher) == Held(s.flusher)
            && HeldFrom(s'.flusher, 0) == HeldFrom(s.flusher, 0) && HeldFrom(s'.flusher, 1) == HeldFrom(s.flusher, 1)
  {
  }

  /** The steps with a definition of their own. */
  lemma Dispatch<T>(cfg: Config<T>, s: State<T>, step: Step<T>)
    requires Shaped(s) && s.up && Enabled(cfg, s, step)
    ensures step.Append? ==>
              && Do(cfg, s, step) == DoAppend(cfg, s, step.cut)
              && step.cut <= |Spool.Group(cfg.codec, s.writer.items)|
              && s.writer.sending.None? && (s.writer.cmds == [] || s.writer.cmds[0].Flush?)
    ensures step.Take? ==> s.flusher.Swap? && Do(cfg, s, step) == DoTake(s)
    ensures step.Store? ==>
              && s.flusher.Storing? && s.flusher.stored < |s.flusher.items|
              && Do(cfg, s, step) == DoStore(cfg, s, step.ok)
    ensures step.PutBack? ==>
              && s.flusher.Refused? && s.flusher.sealed < 2 && s.flusher.stored <= |s.flusher.items|
              && Do(cfg, s, step) == DoPutBack(s)
    ensures step.Truncate? ==>
              s.flusher.Stored? && s.flusher.sealed < 2 && Do(cfg, s, step) == DoTruncate(cfg, s, step.ok)
  {
  }

  lemma QueueKeeps<T>(cfg: Config<T>, s: State<T>, step: Step<T>)
    requires Shaped(s) && s.up && Enabled(cfg, s, step) && !step.Crash?
    ensures var q, q' := Queue(s), Queue(Do(cfg, s, step));
            if step.Send? then q' == q + [Push(step.item)]
            else if step.SendFlush? then q' == q + [Flush(|s.pushed|)]
            else if step.Collect? || (step.Append? && s.writer.cmds != []) then q != [] && q' == q[1..]
            else q' == q
    ensures step.Collect? ==> Queue(s) != [] && Queue(s)[0].Push?
    ensures step.Append? && s.writer.cmds != [] ==> Queue(s)[0].Flush?
  {
    InboxMoves(cfg, s, step);
    var s' := Do(cfg, s, step);
    hide Do, Enabled;
    if step.Receive? {
      assert s.chan[..step.n] + s.chan[step.n..] == [] + s.chan;
    } else if step.Collect? || (step.Append? && s.writer.cmds != []) {
      assert (s.writer.cmds + s.chan)[1..] == s.writer.cmds[1..] + s.chan;
    }
  }

  lemma InboxMoves<T>(cfg: Config<T>, s: State<T>, step: Step<T>)
    requires Shaped(s) && s.up && Enabled(cfg, s, step) && !step.Crash?
    ensures var w, c, w', c' := s.writer.cmds, s.chan, Do(cfg, s, step).writer.cmds, Do(cfg, s, step).chan;
            if step.Send? then w' == w && c' == c + [Push(step.item)]
            else if step.SendFlush? then w' == w && c' == c + [Flush(|s.pushed|)]
            else if step.Receive? then w == [] && step.n <= |c| && w' == c[..step.n] && c' == c[step.n..]
            else if step.Collect? then w != [] && w[0].Push? && w' == w[1..] && c' == c
            else if step.Append? && w != [] then w[0].Flush? && w' == w[1..] && c' == c
            else w' == w && c' == c
  {
  }

  lemma WriterKeeps<T>(cfg: Config<T>, s: State<T>, step: Step<T>)
    requires Shaped(s) && s.up && Enabled(cfg, s, step) && !step.Crash?
    ensures |Do(cfg, s, step).writer.items|
            == if step.Collect? then |s.writer.items| + 1 else if step.Append? then 0 else |s.writer.items|
    ensures step.Collect? || step.Append? || Do(cfg, s, step).writer.items == s.writer.items
    ensures step.Send? || Do(cfg, s, step).pushed == s.pushed
    ensures step.Store? || Do(cfg, s, step).accepted == s.accepted
  {
  }

  lemma SealingKeeps<T>(cfg: Config<T>, s: State<T>, step: Step<T>)
    requires Shaped(s) && s.up && Sealing(s) && Enabled(cfg, s, step) && !step.Crash? && cfg.chunk > 0
    ensures Sealing(Do(cfg, s, step))
  {
    Dispatch(cfg, s, step);
    OtherFrame(cfg, s, step);
    WakeFrame(cfg, s, step);
    hide Do, Enabled, Fresh, Accept, Spool.Whole, Spool.Group;
  }

  /** What clients and writer leave alone: the flusher, and the slot it drains. */
  ghost predicate Others<T>(s: State<T>, t: State<T>) {
    && t.flusher == s.flusher && t.active == s.active && t.fails == s.fails && t.accepted == s.accepted
    && s.active < 2 && |s.slots| == 2 && |t.slots| == 2 && t.slots[1 - s.active] == s.slots[1 - s.active]
  }

  lemma OtherFrame<T>(cfg: Config<T>, s: State<T>, step: Step<T>)
    requires Shaped(s) && s.up && Enabled(cfg, s, step)
    ensures Outside(step) ==> Others(s, Do(cfg, s, step))
  {
  }

  lemma WakeFrame<T>(cfg: Config<T>, s: State<T>, step: Step<T>)
    requires Shaped(s) && s.up && Enabled(cfg, s, step)
    ensures Wakes(step) || step.Check? || step.Finish? ==>
              var f := Do(cfg, s, step).flusher; !f.Storing? && !f.Refused? && !f.Stored?
  {
  }

  lemma Associative<A>(a: seq<A>, b: seq<A>, c: seq<A>)
    ensures a + (b + c) == (a + b) + c
  {
  }

  lemma PushesHead<T>(cmds: seq<Cmd<T>>)
    requires cmds != []
    ensures Pushes(cmds) == (match cmds[0] case Push(x) => [x] case Flush(_) => []) + Pushes(cmds[1..])
  {
    assert cmds == [cmds[0]] + cmds[1..];
    PushesConcat([cmds[0]], cmds[1..]);
    assert [cmds[0]][..0] == [];
  }

  /** The group moves from the writer to the back of the active slot. */
  lemma AppendSettles<T>(cfg: Config<T>, s: State<T>, cut: nat)
    requires Shaped(s)
    ensures Settled(DoAppend(cfg, s, cut)) == Settled(s) + s.writer.items
    ensures DoAppend(cfg, s, cut).accepted == s.accepted
    ensures |InSlots(DoAppend(cfg, s, cut))| == |InSlots(s)| + |s.writer.items|
  {
    var s' := DoAppend(cfg, s, cut);
    var n := if cfg.spooling then Spool.Whole(cfg.codec, s.writer.items, cut) else 0;
    var added := Fresh(s.writer.items, n);
    assert Values(added) == s.writer.items;
    AppendInSlots(cfg, s, cut, added);
    hide DoAppend, InSlots, Fresh, Values;
    Associative(AcceptedEntries(s.accepted), InSlots(s), added);
    ValuesConcat(AcceptedEntries(s.accepted) + InSlots(s), added);
  }

  lemma AppendInSlots<T>(cfg: Config<T>, s: State<T>, cut: nat, added: seq<Entry<T>>)
    requires Shaped(s)
    requires added == Fresh(s.writer.items, if cfg.spooling then Spool.Whole(cfg.codec, s.writer.items, cut) else 0)
    ensures InSlots(DoAppend(cfg, s, cut)) == InSlots(s) + added
    ensures DoAppend(cfg, s, cut).accepted == s.accepted
  {
    hide Held, Spool.Whole;
  }

  lemma AppendConserves<T>(s: State<T>, s': State<T>)
    requires Shaped(s) && Shaped(s') && Conserved(s) && s'.pushed == s.pushed
    requires Settled(s') == Settled(s) + s.writer.items && s'.writer.items == []
    requires Queue(s') == Queue(s) || (Queue(s) != [] && Queue(s)[0].Flush? && Queue(s') == Queue(s)[1..])
    ensures Conserved(s')
  {
    var items, pushes := s.writer.items, Pushes(Queue(s));
    hide Settled;
    Associative(Settled(s), items, pushes);
    if Queue(s') != Queue(s) {
      PushesHead(Queue(s));
      assert [] + Pushes(Queue(s')) == Pushes(Queue(s'));
    }
    assert [] + pushes == pushes;
  }

  lemma TakeInSlots<T>(s: State<T>)
    requires Shaped(s) && s.flusher.Swap?
    ensures InSlots(DoTake(s)) == InSlots(s)
  {
  }

  lemma PutBackInSlots<T>(s: State<T>)
    requires Shaped(s) && Sealing(s) && s.flusher.Refused?
    ensures InSlots(DoPutBack(s)) == InSlots(s)
  {
  }

  /** The next chunk of a running drain. */
  ghost function NextChunk<T>(cfg: Config<T>, f: Flusher<T>): seq<Entry<T>>
    requires f.Storing? && f.stored <= |f.items|
  {
    f.items[f.stored..Min(f.stored + cfg.chunk, |f.items|)]
  }

  lemma StoreFrame<T>(cfg: Config<T>, s: State<T>)
    requires Shaped(s) && Sealing(s) && s.flusher.Storing? && cfg.chunk > 0
    ensures var s', f := DoStore(cfg, s, true), s.flusher;
            && s'.up == s.up && s'.slots == s.slots && s'.active == s.active
            && s'.marks == s.marks && s'.past == s.past && s'.ever == s.ever
            && s'.accepted == s.accepted + Accept(NextChunk(cfg, f), f.sealed)
            && Held(f) == NextChunk(cfg, f) + Held(s'.flusher)
            && HeldFrom(s'.flusher, f.sealed) == Held(s'.flusher) && HeldFrom(s'.flusher, 1 - f.sealed) == []
  {
    var f := s.flusher;
    assert f.items[f.stored..] == NextChunk(cfg, f) + f.items[Min(f.stored + cfg.chunk, |f.items|)..];
  }

  lemma StoreInSlots<T>(cfg: Config<T>, s: State<T>)
    requires Shaped(s) && Sealing(s) && s.flusher.Storing? && cfg.chunk > 0
    ensures AcceptedEntries(DoStore(cfg, s, true).accepted) + InSlots(DoStore(cfg, s, true))
            == AcceptedEntries(s.accepted) + InSlots(s)
    ensures |DoStore(cfg, s, true).accepted| + |InSlots(DoStore(cfg, s, true))| == |s.accepted| + |InSlots(s)|
  {
    StoreFrame(cfg, s);
    var s', f := DoStore(cfg, s, true), s.flusher;
    var chunk, held := NextChunk(cfg, f), Held(s'.flusher);
    var tail := s.slots[1 - s.active].items + s.slots[s.active].items;
    hide DoStore, Held, NextChunk, Sealing;
    AcceptedConcat(s.accepted, Accept(chunk, f.sealed));
    assert AcceptedEntries(Accept(chunk, f.sealed)) == chunk;
    assert InSlots(s) == chunk + (held + tail);
    assert InSlots(s') == held + tail;
    Associative(AcceptedEntries(s.accepted), chunk, held + tail);
  }

  lemma SendConserves<T>(s: State<T>, x: T)
    requires Shaped(s) && Conserved(s)
    ensures Conserved(s.(chan := s.chan + [Push(x)], pushed := s.pushed + [x]))
  {
    var s' := s.(chan := s.chan + [Push(x)], pushed := s.pushed + [x]);
    assert Queue(s') == Queue(s) + [Push(x)];
    QueueAppend(Queue(s), Push(x));
    Associative(s.writer.items, Pushes(Queue(s)), [x]);
    Associative(Settled(s), s.writer.items + Pushes(Queue(s)), [x]);
    assert InSlots(s') == InSlots(s);
  }

  lemma SendFlushConserves<T>(s: State<T>)
    requires Shaped(s) && Conserved(s)
    ensures Conserved(s.(chan := s.chan + [Flush(|s.pushed|)]))
  {
    var s' := s.(chan := s.chan + [Flush(|s.pushed|)]);
    assert Queue(s') == Queue(s) + [Flush(|s.pushed|)];
    QueueAppend(Queue(s), Flush(|s.pushed|));
    assert Pushes(Queue(s)) + [] == Pushes(Queue(s));
    assert InSlots(s') == InSlots(s);
  }

  lemma CollectConserves<T>(s: State<T>)
    requires Shaped(s) && Conserved(s) && s.writer.cmds != [] && s.writer.cmds[0].Push?
    ensures var w := s.writer;
            Conserved(s.(writer := w.(items := w.items + [w.cmds[0].item], cmds := w.cmds[1..])))
  {
    var w := s.writer;
    var s' := s.(writer := w.(items := w.items + [w.cmds[0].item], cmds := w.cmds[1..]));
    PushesHead(Queue(s));
    assert Queue(s)[1..] == Queue(s');
    Associative(w.items, [w.cmds[0].item], Pushes(Queue(s')));
    assert InSlots(s') == InSlots(s);
  }

  lemma QueueAppend<T>(queue: seq<Cmd<T>>, cmd: Cmd<T>)
    ensures Pushes(queue + [cmd]) == Pushes(queue) + match cmd case Push(x) => [x] case Flush(_) => []
  {
    assert (queue + [cmd])[..|queue|] == queue;
  }

  /** Nothing a step does to the other fields can disturb conservation. */
  lemma ConservedFrame<T>(s: State<T>, s': State<T>)
    requires Shaped(s) && Shaped(s') && Conserved(s)
    requires s'.accepted == s.accepted && InSlots(s') == InSlots(s) && s'.pushed == s.pushed
    requires s'.writer.items == s.writer.items && Queue(s') == Queue(s)
    ensures Conserved(s')
  {
  }

  lemma ConservedKeeps<T>(cfg: Config<T>, s: State<T>, step: Step<T>)
    requires Shaped(s) && s.up && Sealing(s) && Conserved(s) && Enabled(cfg, s, step) && !step.Crash?
    requires cfg.chunk > 0
    ensures Conserved(Do(cfg, s, step))
  {
    if step.Send? { SendConserves(s, step.item); }
    else if step.SendFlush? { SendFlushConserves(s); }
    else if step.Collect? { CollectConserves(s); }
    else if Quiet(step) { QuietConserves(cfg, s, step); }
    else { BusyConserves(cfg, s, step); }
  }

  lemma QuietConserves<T>(cfg: Config<T>, s: State<T>, step: Step<T>)
    requires Shaped(s) && s.up && Conserved(s) && Enabled(cfg, s, step) && Quiet(step)
    requires !step.Send? && !step.SendFlush? && !step.Collect?
    ensures Conserved(Do(cfg, s, step))
  {
    var s' := Do(cfg, s, step);
    QuietFrame(cfg, s, step);
    QueueKeeps(cfg, s, step);
    WriterKeeps(cfg, s, step);
    hide Do, Enabled, Conserved;
    assert InSlots(s') == InSlots(s);
    ConservedFrame(s, s');
  }

  lemma BusyConserves<T>(cfg: Config<T>, s: State<T>, step: Step<T>)
    requires Shaped(s) && s.up && Sealing(s) && Conserved(s) && Enabled(cfg, s, step) && !step.Crash? && !Quiet(step)
    requires cfg.chunk > 0
    ensures Conserved(Do(cfg, s, step))
  {
    var s' := Do(cfg, s, step);
    Dispatch(cfg, s, step);
    QueueKeeps(cfg, s, step);
    WriterKeeps(cfg, s, step);
    hide Do, Enabled, Queue, Held, Conserved, Settled, InSlots, Sealing;
    if step.Append? {
      AppendSettles(cfg, s, step.cut);
      hide DoAppend;
      AppendConserves(s, s');
    } else if step.Store? && step.ok {
      StoreSettles(cfg, s);
      hide DoStore;
      SettledFrame(s, s');
    } else {
      SameInSlots(cfg, s, step);
      ConservedFrame(s, s');
    }
  }

  lemma StoreSettles<T>(cfg: Config<T>, s: State<T>)
    requires Shaped(s) && Sealing(s) && s.flusher.Storing? && cfg.chunk > 0
    ensures Settled(DoStore(cfg, s, true)) == Settled(s)
  {
    hide Sealing, InSlots, AcceptedEntries;
    StoreInSlots(cfg, s);
  }

  lemma SettledFrame<T>(s: State<T>, s': State<T>)
    requires Shaped(s) && Shaped(s') && Conserved(s) && Settled(s') == Settled(s) && s'.pushed == s.pushed
    requires s'.writer.items == s.writer.items && Queue(s') == Queue(s)
    ensures Conserved(s')
  {
  }

  lemma SameInSlots<T>(cfg: Config<T>, s: State<T>, step: Step<T>)
    requires Shaped(s) && s.up && Sealing(s) && Enabled(cfg, s, step)
    requires step.Take? || step.PutBack? || step.Truncate? || (step.Store? && !step.ok)
    ensures InSlots(Do(cfg, s, step)) == InSlots(s)
  {
    Dispatch(cfg, s, step);
    hide Do, Enabled;
    if step.Take? { TakeInSlots(s); }
    else if step.PutBack? { PutBackInSlots(s); }
  }

  // ---------------------------------------------------------------- files

  /** The part of the invariant about spool files and the history of all runs. */
  ghost predicate OnDisk<T>(cfg: Config<T>, s: State<T>)
    requires Shaped(s)
  {
    FilesFit(cfg, s) && FileShape(cfg, s, 0) && FileShape(cfg, s, 1) && Safe(cfg, s)
  }

  lemma DiskFrame<T>(cfg: Config<T>, s: State<T>, s': State<T>)
    requires Shaped(s) && Shaped(s') && s.up && s'.up && OnDisk(cfg, s)
    requires s'.slots[0].log == s.slots[0].log && s'.slots[1].log == s.slots[1].log
    requires Pending(s', 0) == Pending(s, 0) && Pending(s', 1) == Pending(s, 1)
    requires s'.accepted == s.accepted && s'.marks == s.marks && s'.ever == s.ever && s'.past == s.past
    ensures OnDisk(cfg, s')
  {
  }

  lemma ShapeAppend<T>(cfg: Config<T>, slot: Slot<T>, since: seq<Acceptance<T>>, i: nat, pending: seq<Entry<T>>,
                       items: seq<T>, cut: nat)
    requires ShapeOf(cfg.codec, slot.log, since, i, pending)
    ensures var added := PushAll(cfg, slot, items, cut).items[|slot.items|..];
            && ShapeOf(cfg.codec, PushAll(cfg, slot, items, cut).log, since, i, pending + added)
            && Spooled(added) == (if cfg.spooling then items[..Spool.Whole(cfg.codec, items, cut)] else [])
            && Spooled(pending + added) == Spooled(pending) + Spooled(added)
  {
    var n := if cfg.spooling then Spool.Whole(cfg.codec, items, cut) else 0;
    var added := PushAll(cfg, slot, items, cut).items[|slot.items|..];
    assert added == Fresh(items, n);
    SpooledFresh(items, n);
    SpooledConcat(pending, added);
    if cfg.spooling {
      Spool.RecoveredAppend(cfg.codec, slot.log, Spool.Write(items, cut));
      Associative(Spooled(From(since, i)), Spooled(pending), Spooled(added));
    } else {
      assert Spooled(pending) + [] == Spooled(pending);
    }
  }

  lemma CoveredAppend<T>(ever: multiset<T>, past: Past<T>, accepted: seq<Acceptance<T>>,
                         p: seq<Entry<T>>, q: seq<Entry<T>>, added: seq<Entry<T>>)
    requires Covered(ever, past, accepted, p, q) || Covered(ever, past, accepted, q, p)
    ensures Covered(ever + multiset(Spooled(added)), past, accepted, p + added, q)
    ensures Covered(ever + multiset(Spooled(added)), past, accepted, q, p + added)
  {
    hide Spooled, AcceptedEntries;
    SpooledConcat(p, added);
    var d, x, b, c := Spooled(added), multiset(Spooled(AcceptedEntries(accepted))), Spooled(p), Spooled(q);
    assert multiset(b + d) == multiset(b) + multiset(d);
    BalanceGrows(ever, past.replayed, past.accepted + x, multiset(b), multiset(c), multiset(d));
  }

  lemma BalanceGrows<T>(
    e: multiset<T>, r: multiset<T>, a: multiset<T>, p: multiset<T>, q: multiset<T>, d: multiset<T>)
    requires e + r == a + p + q || e + r == a + q + p
    ensures e + d + r == a + (p + d) + q && e + d + r == a + q + (p + d)
  {
    assert e + d + r == e + r + d;
    assert a + p + q == a + q + p;
    assert a + q + p + d == a + q + (p + d);
    assert a + (p + d) + q == a + q + (p + d);
  }

  lemma BalanceMoves<T>(
    e: multiset<T>, a: multiset<T>, x: multiset<T>, d: multiset<T>, p: multiset<T>, q: multiset<T>)
    requires e == a + x + (d + p) + q || e == a + x + q + (d + p)
    ensures e == a + (x + d) + p + q && e == a + (x + d) + q + p
  {
    assert a + x + (d + p) + q == a + (x + d) + p + q;
    assert a + x + q + (d + p) == a + (x + d) + p + q;
    assert a + (x + d) + p + q == a + (x + d) + q + p;
  }

  /** Closing the books of a run: what is in the files stays owed, and what of it was accepted will be replayed. */
  lemma BalanceCloses<T>(e: multiset<T>, r: multiset<T>, a: multiset<T>, p: multiset<T>, q: multiset<T>,
                         s0: multiset<T>, s1: multiset<T>)
    requires e + r == a + p + q
    ensures e + (r + s0 + s1) == a + (s0 + p) + (s1 + q)
  {
    assert e + (r + s0 + s1) == e + r + s0 + s1;
    assert a + p + q + s0 + s1 == a + (s0 + p) + (s1 + q);
  }

  /** What appending a group changes. */
  lemma AppendFrame<T>(cfg: Config<T>, s: State<T>, cut: nat)
    requires Shaped(s) && s.writer.items != []
    ensures var s' := DoAppend(cfg, s, cut);
            && s'.up == s.up && s'.flusher == s.flusher
            && s'.slots == s.slots[s.active := PushAll(cfg, s.slots[s.active], s.writer.items, cut)]
            && s'.accepted == s.accepted && s'.marks == s.marks && s'.past == s.past
            && s'.ever == (if cfg.spooling
                           then s.ever + multiset(s.writer.items[..Spool.Whole(cfg.codec, s.writer.items, cut)])
                           else s.ever)
  {
  }

  lemma PendingGrows<T>(s: State<T>, s': State<T>, a: nat, added: seq<Entry<T>>)
    requires a < 2 && |s.slots| == 2 && |s'.slots| == 2 && s'.flusher == s.flusher
    requires s'.slots[a].items == s.slots[a].items + added && s'.slots[1 - a] == s.slots[1 - a]
    ensures Pending(s', a) == Pending(s, a) + added && Pending(s', 1 - a) == Pending(s, 1 - a)
  {
  }

  lemma AppendOnDisk<T>(cfg: Config<T>, s: State<T>, cut: nat)
    requires Shaped(s) && s.up && OnDisk(cfg, s) && s.writer.items != []
    requires cut <= |Spool.Group(cfg.codec, s.writer.items)|
    ensures OnDisk(cfg, DoAppend(cfg, s, cut))
  {
    AppendFrame(cfg, s, cut);
    hide OnDisk, DoAppend, Pending, Spooled;
    AppendShapes(cfg, s, DoAppend(cfg, s, cut), s.active, s.writer.items, cut);
  }

  lemma AppendShapes<T>(cfg: Config<T>, s: State<T>, s': State<T>, a: nat, items: seq<T>, cut: nat)
    requires Shaped(s) && s.up && Shaped(s') && s'.up && OnDisk(cfg, s) && a < 2
    requires cut <= |Spool.Group(cfg.codec, items)|
    requires s'.slots == s.slots[a := PushAll(cfg, s.slots[a], items, cut)]
    requires s'.flusher == s.flusher && s'.accepted == s.accepted && s'.marks == s.marks && s'.past == s.past
    requires s'.ever == if cfg.spooling then s.ever + multiset(items[..Spool.Whole(cfg.codec, items, cut)]) else s.ever
    ensures OnDisk(cfg, s')
  {
    hide Pending, Spooled, Spool.Recovered, From, Spool.Whole, Spool.Group, Fresh, ShapeOf, Covered, Spool.FitsAll;
    var added := PushAll(cfg, s.slots[a], items, cut).items[|s.slots[a].items|..];
    PendingGrows(s, s', a, added);
    ShapeAppend(cfg, s.slots[a], s.accepted[s.marks[a]..], a, Pending(s, a), items, cut);
    AppendFits(cfg, s.slots[a], items, cut);
    assert !cfg.spooling ==> s'.slots[a].log == s.slots[a].log;
    hide PushAll;
    assert s'.ever == s.ever + multiset(Spooled(added));
    CoveredAppend(s.ever, s.past, s.accepted, Pending(s, a), Pending(s, 1 - a), added);
    OnDiskFrom(cfg, s', a);
  }

  lemma OnDiskFrom<T>(cfg: Config<T>, s: State<T>, a: nat)
    requires Shaped(s) && s.up && a < 2
    requires FileShape(cfg, s, a) && FileShape(cfg, s, 1 - a)
    requires Spool.FitsAll(cfg.codec, s.slots[a].log) && Spool.FitsAll(cfg.codec, s.slots[1 - a].log)
    requires cfg.spooling || (s.slots[a].log == [] && s.slots[1 - a].log == [])
    requires Covered(s.ever, s.past, s.accepted, Pending(s, a), Pending(s, 1 - a))
    requires Covered(s.ever, s.past, s.accepted, Pending(s, 1 - a), Pending(s, a))
    ensures OnDisk(cfg, s)
  {
    hide FileShape, Spool.FitsAll, Covered, Pending;
  }

  lemma AppendFits<T>(cfg: Config<T>, slot: Slot<T>, items: seq<T>, cut: nat)
    requires Spool.FitsAll(cfg.codec, slot.log) && cut <= |Spool.Group(cfg.codec, items)|
    ensures Spool.FitsAll(cfg.codec, PushAll(cfg, slot, items, cut).log)
  {
    assert Spool.Fits(cfg.codec, Spool.Write(items, cut));
  }

  lemma ShapeAccept<T>(c: Spool.Codec<T>, log: seq<Spool.Write<T>>, since: seq<Acceptance<T>>, i: nat,
                       chunk: seq<Entry<T>>, slot: nat, pending: seq<Entry<T>>)
    requires ShapeOf(c, log, since, i, if slot == i then chunk + pending else pending)
    ensures ShapeOf(c, log, since + Accept(chunk, slot), i, pending)
  {
    FromConcat(since, Accept(chunk, slot), i);
    FromAccept(chunk, slot, i);
    if slot == i {
      SpooledConcat(chunk, pending);
      SpooledConcat(From(since, i), chunk);
      Associative(Spooled(From(since, i)), Spooled(chunk), Spooled(pending));
    } else {
      assert From(since, i) + [] == From(since, i);
    }
  }

  lemma CoveredAccept<T>(ever: multiset<T>, past: Past<T>, accepted: seq<Acceptance<T>>,
                         chunk: seq<Entry<T>>, slot: nat, p: seq<Entry<T>>, q: seq<Entry<T>>)
    requires Covered(ever, past, accepted, chunk + p, q) || Covered(ever, past, accepted, q, chunk + p)
    ensures Covered(ever, past, accepted + Accept(chunk, slot), p, q)
    ensures Covered(ever, past, accepted + Accept(chunk, slot), q, p)
  {
    AcceptedConcat(accepted, Accept(chunk, slot));
    assert AcceptedEntries(Accept(chunk, slot)) == chunk;
    hide Spooled, AcceptedEntries, Accept;
    SpooledConcat(chunk, p);
    SpooledConcat(AcceptedEntries(accepted), chunk);
    var x, d, b, c := Spooled(AcceptedEntries(accepted)), Spooled(chunk), Spooled(p), Spooled(q);
    assert multiset(d + b) == multiset(d) + multiset(b) && multiset(x + d) == multiset(x) + multiset(d);
    BalanceMoves(ever + past.replayed, past.accepted, multiset(x), multiset(d), multiset(b), multiset(c));
  }

  lemma StoreOnDisk<T>(cfg: Config<T>, s: State<T>)
    requires Shaped(s) && s.up && Sealing(s) && OnDisk(cfg, s) && s.flusher.Storing? && cfg.chunk > 0
    ensures OnDisk(cfg, DoStore(cfg, s, true))
  {
    StoreFrame(cfg, s);
    hide OnDisk;
    var s', f := DoStore(cfg, s, true), s.flusher;
    assert Pending(s, f.sealed) == NextChunk(cfg, f) + Pending(s', f.sealed);
    assert Pending(s, 1 - f.sealed) == Pending(s', 1 - f.sealed);
    StoreShapes(cfg, s, s', f.sealed, NextChunk(cfg, f));
  }

  lemma StoreShapes<T>(cfg: Config<T>, s: State<T>, s': State<T>, j: nat, chunk: seq<Entry<T>>)
    requires Shaped(s) && s.up && Shaped(s') && s'.up && OnDisk(cfg, s) && j < 2
    requires s'.slots == s.slots && s'.marks == s.marks && s'.past == s.past && s'.ever == s.ever
    requires s'.accepted == s.accepted + Accept(chunk, j)
    requires Pending(s, j) == chunk + Pending(s', j) && Pending(s, 1 - j) == Pending(s', 1 - j)
    ensures OnDisk(cfg, s')
  {
    hide Pending, Spooled, Spool.Recovered, From;
    assert s'.accepted[s.marks[j]..] == s.accepted[s.marks[j]..] + Accept(chunk, j);
    assert s'.accepted[s.marks[1 - j]..] == s.accepted[s.marks[1 - j]..] + Accept(chunk, j);
    ShapeAccept(cfg.codec, s.slots[j].log, s.accepted[s.marks[j]..], j, chunk, j, Pending(s', j));
    ShapeAccept(cfg.codec, s.slots[1 - j].log, s.accepted[s.marks[1 - j]..], 1 - j, chunk, j, Pending(s', 1 - j));
    CoveredAccept(s.ever, s.past, s.accepted, chunk, j, Pending(s', j), Pending(s', 1 - j));
    assert FileShape(cfg, s', j) && FileShape(cfg, s', 1 - j);
  }

  lemma TruncateOnDisk<T>(cfg: Config<T>, s: State<T>)
    requires Shaped(s) && s.up && Sealing(s) && OnDisk(cfg, s) && s.flusher.Stored? && cfg.spooling
    ensures OnDisk(cfg, DoTruncate(cfg, s, true))
  {
    var s', j := DoTruncate(cfg, s, true), s.flusher.sealed;
    assert Pending(s', j) == [] == Pending(s, j);
    assert Pending(s', 1 - j) == Pending(s, 1 - j);
    assert s'.accepted[s'.marks[j]..] == [];
    assert ShapeOf(cfg.codec, [], [], j, []);
  }

  lemma CrashOnDisk<T>(cfg: Config<T>, s: State<T>)
    requires Shaped(s) && s.up && OnDisk(cfg, s)
    ensures FilesFit(cfg, DoCrash(s)) && Safe(cfg, DoCrash(s))
  {
    hide Spooled, Pending, From, Spool.Recovered, AcceptedEntries, Spool.FitsAll;
    var s0, s1, p, q := Since(s, 0), Since(s, 1), Spooled(Pending(s, 0)), Spooled(Pending(s, 1));
    assert Spool.Recovered(cfg.codec, s.slots[0].log) == s0 + p;
    assert Spool.Recovered(cfg.codec, s.slots[1].log) == s1 + q;
    assert multiset(s0 + p) == multiset(s0) + multiset(p) && multiset(s1 + q) == multiset(s1) + multiset(q);
    BalanceCloses(s.ever, s.past.replayed, s.past.accepted + multiset(Spooled(AcceptedEntries(s.accepted))),
                  multiset(p), multiset(q), multiset(s0), multiset(s1));
  }

  /** A slot that starts from its file owes exactly what the file holds. */
  lemma OpenSlot<T(!new)>(cfg: Config<T>, log: seq<Spool.Write<T>>, i: nat)
    requires Proper(cfg) && Spool.FitsAll(cfg.codec, log) && Opens(cfg, log)
    ensures Spool.Readable(cfg.codec, log)
    ensures Spool.Load(cfg.codec, FileOf(cfg, log)) == Some(Spool.Recovered(cfg.codec, log))
    ensures var r := Spool.Recovered(cfg.codec, log);
            ShapeOf(cfg.codec, log, [], i, Fresh(r, |r|)) && Spooled(Fresh(r, |r|)) == r && Values(Fresh(r, |r|)) == r
  {
    Spool.TornWrites(cfg.codec, log);
    var r := Spool.Recovered(cfg.codec, log);
    SpooledFresh(r, |r|);
    assert r[..|r|] == r;
  }

  lemma OpenOnDisk<T(!new)>(cfg: Config<T>, s: State<T>)
    requires Proper(cfg) && Shaped(s) && !s.up && FilesFit(cfg, s) && Safe(cfg, s)
    requires Opens(cfg, s.slots[0].log) && Opens(cfg, s.slots[1].log)
    ensures OnDisk(cfg, DoOpen(cfg, s))
    ensures Conserved(DoOpen(cfg, s))
  {
    var r0, r1 := Spool.Recovered(cfg.codec, s.slots[0].log), Spool.Recovered(cfg.codec, s.slots[1].log);
    hide Spool.Recovered, Spool.Load, FileOf, Spooled, Fresh, Opens, Proper, Spool.FitsAll, OnDisk, Conserved, Safe;
    OpenSlot(cfg, s.slots[0].log, 0);
    OpenSlot(cfg, s.slots[1].log, 1);
    hide ShapeOf, Values;
    OpenShapes(cfg, s, DoOpen(cfg, s), r0, r1);
    OpenConserves(DoOpen(cfg, s), r0, r1);
  }

  lemma OpenShapes<T>(cfg: Config<T>, s: State<T>, s': State<T>, r0: seq<T>, r1: seq<T>)
    requires Shaped(s) && !s.up && FilesFit(cfg, s) && Safe(cfg, s) && Shaped(s') && s'.up
    requires r0 == Spool.Recovered(cfg.codec, s.slots[0].log) && r1 == Spool.Recovered(cfg.codec, s.slots[1].log)
    requires s'.slots[0].log == s.slots[0].log && s'.slots[1].log == s.slots[1].log
    requires ShapeOf(cfg.codec, s.slots[0].log, [], 0, s'.slots[0].items) && Spooled(s'.slots[0].items) == r0
    requires ShapeOf(cfg.codec, s.slots[1].log, [], 1, s'.slots[1].items) && Spooled(s'.slots[1].items) == r1
    requires s'.accepted == [] && s'.marks == [0, 0] && s'.flusher.Swap? && s'.ever == s.ever && s'.past == s.past
    ensures OnDisk(cfg, s')
  {
    assert Spooled(AcceptedEntries(s'.accepted)) == [];
    hide Spool.Recovered, Spooled, Spool.FitsAll, From, ShapeOf, Values, AcceptedEntries;
    assert Pending(s', 0) == s'.slots[0].items && Pending(s', 1) == s'.slots[1].items;
    assert s'.accepted[0..] == [];
  }

  lemma OpenConserves<T>(s: State<T>, r0: seq<T>, r1: seq<T>)
    requires Shaped(s) && s.active == 0 && s.flusher.Swap? && s.accepted == []
    requires Values(s.slots[0].items) == r0 && Values(s.slots[1].items) == r1
    requires s.writer == Writer([], [], None) && s.chan == [] && s.pushed == r1 + r0
    ensures Conserved(s)
  {
    assert AcceptedEntries(s.accepted) + InSlots(s) == s.slots[1].items + s.slots[0].items;
    ValuesConcat(s.slots[1].items, s.slots[0].items);
    assert Queue(s) == [];
  }

  lemma OnDiskKeeps<T>(cfg: Config<T>, s: State<T>, step: Step<T>)
    requires Shaped(s) && s.up && Sealing(s) && OnDisk(cfg, s) && Enabled(cfg, s, step) && !step.Crash?
    requires cfg.chunk > 0
    ensures OnDisk(cfg, Do(cfg, s, step))
  {
    Dispatch(cfg, s, step);
    hide Do, Enabled, OnDisk, Sealing;
    if step.Append? && s.writer.items != [] { AppendOnDisk(cfg, s, step.cut); }
    else if step.Store? && step.ok { StoreOnDisk(cfg, s); }
    else if step.Truncate? && step.ok && cfg.spooling { TruncateOnDisk(cfg, s); }
    else {
      PendingFrame(cfg, s, step);
      DiskFrame(cfg, s, Do(cfg, s, step));
    }
  }

  lemma PendingFrame<T>(cfg: Config<T>, s: State<T>, step: Step<T>)
    requires Shaped(s) && s.up && Sealing(s) && Enabled(cfg, s, step) && !step.Crash? && cfg.chunk > 0
    requires !(step.Append? && s.writer.items != []) && !(step.Store? && step.ok)
    requires !(step.Truncate? && step.ok && cfg.spooling)
    ensures var s' := Do(cfg, s, step);
            && s'.up && s'.slots[0].log == s.slots[0].log && s'.slots[1].log == s.slots[1].log
            && Pending(s', 0) == Pending(s, 0) && Pending(s', 1) == Pending(s, 1)
            && s'.accepted == s.accepted && s'.marks == s.marks && s'.ever == s.ever && s'.past == s.past
  {
    if Quiet(step) {
      QuietFrame(cfg, s, step);
      hide Do, Enabled, HeldFrom;
    } else {
      Dispatch(cfg, s, step);
      hide Do, Enabled, Pending, Spool.Whole, Spool.Group, Sealing;
      if step.Take? { TakePending(s); }
      else if step.PutBack? { PutBackPending(s); }
      else if step.Append? { IdlePending(s, Do(cfg, s, step)); }
      else if step.Store? { RefusedPending(cfg, s); }
      else { StoredPending(s, DoTruncate(cfg, s, step.ok)); }
    }
  }

  lemma IdlePending<T>(s: State<T>, s': State<T>)
    requires Shaped(s) && Shaped(s') && s'.slots == s.slots && s'.flusher == s.flusher
    ensures Pending(s', 0) == Pending(s, 0) && Pending(s', 1) == Pending(s, 1)
  {
  }

  lemma RefusedPending<T>(cfg: Config<T>, s: State<T>)
    requires Shaped(s) && Sealing(s) && s.flusher.Storing?
    ensures var s' := DoStore(cfg, s, false); Pending(s', 0) == Pending(s, 0) && Pending(s', 1) == Pending(s, 1)
  {
  }

  lemma StoredPending<T>(s: State<T>, s': State<T>)
    requires Shaped(s) && Shaped(s') && s'.slots == s.slots && s.flusher.Stored? && s'.flusher.Drained?
    ensures Pending(s', 0) == Pending(s, 0) && Pending(s', 1) == Pending(s, 1)
  {
  }

  lemma TakePending<T>(s: State<T>)
    requires Shaped(s) && s.flusher.Swap?
    ensures Pending(DoTake(s), 0) == Pending(s, 0) && Pending(DoTake(s), 1) == Pending(s, 1)
  {
  }

  lemma PutBackPending<T>(s: State<T>)
    requires Shaped(s) && Sealing(s) && s.flusher.Refused?
    ensures Pending(DoPutBack(s), 0) == Pending(s, 0) && Pending(DoPutBack(s), 1) == Pending(s, 1)
  {
  }

  // ---------------------------------------------------------------- flushes

  lemma MarksAppend<T>(queue: seq<Cmd<T>>, base: nat, cmd: Cmd<T>)
    requires QueueMarks(queue, base) && (cmd.Flush? ==> cmd.mark == base + |Pushes(queue)|)
    ensures QueueMarks(queue + [cmd], base)
  {
    forall j | 0 <= j < |queue + [cmd]| && (queue + [cmd])[j].Flush?
      ensures (queue + [cmd])[j].mark == base + |Pushes((queue + [cmd])[..j])|
    {
      assert (queue + [cmd])[..j] == queue[..j];
      assert queue[..|queue|] == queue;
    }
  }

  lemma MarksTail<T>(queue: seq<Cmd<T>>, base: nat)
    requires queue != [] && QueueMarks(queue, base)
    ensures QueueMarks(queue[1..], base + if queue[0].Push? then 1 else 0)
    ensures queue[0].Flush? ==> queue[0].mark == base
  {
    var tail := queue[1..];
    forall j | 0 <= j < |tail| && tail[j].Flush?
      ensures tail[j].mark == base + (if queue[0].Push? then 1 else 0) + |Pushes(tail[..j])|
    {
      assert queue[j + 1] == tail[j];
      PushesHead(queue[..j + 1]);
      assert queue[..j + 1][1..] == tail[..j];
    }
    assert queue[..0] == [];
  }

  lemma ReachedKeeps<T>(cfg: Config<T>, s: State<T>, step: Step<T>)
    requires Shaped(s) && s.up && Sealing(s) && Enabled(cfg, s, step) && !step.Crash? && cfg.chunk > 0
    ensures Reached(Do(cfg, s, step)) == Reached(s) + if step.Append? then |s.writer.items| else 0
    ensures |Do(cfg, s, step).accepted| >= |s.accepted|
  {
    hide Do, Enabled, Accept;
    var s' := Do(cfg, s, step);
    Kinds(cfg, s, step);
    Dispatch(cfg, s, step);
    WriterKeeps(cfg, s, step);
    if Quiet(step) { QuietFrame(cfg, s, step); }
    if step.Append? { AppendSettles(cfg, s, step.cut); }
    else if step.Take? { TakeInSlots(s); }
    else if step.PutBack? { PutBackInSlots(s); }
    else if step.Store? && step.ok { StoreInSlots(cfg, s); }
    else { assert InSlots(s') == InSlots(s); }
  }

  lemma MarksKeep<T>(cfg: Config<T>, s: State<T>, step: Step<T>, base: nat, base': nat)
    requires Shaped(s) && s.up && Enabled(cfg, s, step) && !step.Crash?
    requires base == Reached(s) + |s.writer.items| && base' == base + if step.Collect? then 1 else 0
    requires QueueMarks(Queue(s), base) && Conserved(s)
    ensures QueueMarks(Queue(Do(cfg, s, step)), base')
  {
    hide Pushes, InSlots, Do, Enabled, QueueMarks;
    QueueKeeps(cfg, s, step);
    var q := Queue(s);
    if step.Send? { MarksAppend(q, base, Push(step.item)); }
    else if step.SendFlush? { MarksAppend(q, base, Flush(|s.pushed|)); }
    else if step.Collect? || (step.Append? && s.writer.cmds != []) { MarksTail(q, base); }
  }

  /** How the flush tokens move on. */
  lemma TokensMove<T>(cfg: Config<T>, s: State<T>, step: Step<T>)
    requires Shaped(s) && s.up && Enabled(cfg, s, step) && !step.Crash?
    ensures var w, w', s' := s.writer, Do(cfg, s, step).writer, Do(cfg, s, step);
            && (step.Append? && w.cmds != [] ==>
                  w'.sending == Some(w.cmds[0].mark) && Queue(s) != [] && w.cmds[0] == Queue(s)[0])
            && (!(step.Append? && w.cmds != []) ==> w'.sending == if step.Forward? then None else w.sending)
            && (step.Collect? || step.Receive? ==> w.sending.None?)
            && (s'.acks == s.acks
                || (step.Forward? && w.sending.Some? && s'.acks == s.acks + [w.sending.value])
                || (s.acks != [] && s'.acks == s.acks[1..]))
  {
  }

  lemma FlushOrderKeeps<T>(cfg: Config<T>, s: State<T>, step: Step<T>)
    requires Shaped(s) && s.up && Sealing(s) && Conserved(s) && FlushOrder(s)
    requires Enabled(cfg, s, step) && !step.Crash? && cfg.chunk > 0
    ensures FlushOrder(Do(cfg, s, step))
  {
    hide Reached, QueueMarks, Do, Enabled, Sealing, Conserved;
    var base := Reached(s) + |s.writer.items|;
    ReachedKeeps(cfg, s, step);
    TokensMove(cfg, s, step);
    WriterKeeps(cfg, s, step);
    MarksKeep(cfg, s, step, base, base + if step.Collect? then 1 else 0);
    if step.Append? && s.writer.cmds != [] {
      Dispatch(cfg, s, step);
      MarksTail(Queue(s), base);
    }
  }

  lemma OutsideFrame<T>(cfg: Config<T>, s: State<T>, step: Step<T>)
    requires Shaped(s) && s.up && Enabled(cfg, s, step) && Outside(step)
    ensures !(s.closed && s.chan == [] && !WriterBusy(s.writer))
  {
  }

  lemma OutsideContract<T>(cfg: Config<T>, s: State<T>, step: Step<T>)
    requires Shaped(s) && s.up && Sealing(s) && DrainContract(s)
    requires Enabled(cfg, s, step) && Outside(step) && cfg.chunk > 0
    ensures DrainContract(Do(cfg, s, step))
  {
    hide Do, Enabled, Reached, InSlots, Sealing;
    OutsideFrame(cfg, s, step);
    OtherFrame(cfg, s, step);
    ReachedKeeps(cfg, s, step);
  }

  lemma WokenFrame<T>(cfg: Config<T>, s: State<T>, step: Step<T>)
    requires Shaped(s) && s.up && Enabled(cfg, s, step) && Wakes(step)
    ensures var s' := Do(cfg, s, step);
            && s'.fails == s.fails && s'.flusher.Swap? && s'.flusher.job.since == s.fails
            && (s'.flusher.job.kind.Request? ==> s.acks != [] && s'.flusher.job.kind.mark == s.acks[0])
            && (s'.flusher.job.kind.Final? ==> s'.closed && s'.chan == [] && !WriterBusy(s'.writer) && s'.acks == [])
  {
  }

  lemma WakeContract<T>(cfg: Config<T>, s: State<T>, step: Step<T>)
    requires Shaped(s) && s.up && Sealing(s) && FlushOrder(s)
    requires Enabled(cfg, s, step) && Wakes(step) && cfg.chunk > 0
    ensures DrainContract(Do(cfg, s, step))
  {
    hide Do, Enabled, Reached, InSlots, Sealing, QueueMarks;
    WokenFrame(cfg, s, step);
    ReachedKeeps(cfg, s, step);
  }

  lemma DrainStepFrame<T>(cfg: Config<T>, s: State<T>, step: Step<T>)
    requires Shaped(s) && s.up && Sealing(s) && Enabled(cfg, s, step) && (Draining(step) || step.Finish?)
    ensures var s', f, f' := Do(cfg, s, step), s.flusher, Do(cfg, s, step).flusher;
            && HasJob(f) && (HasJob(f') ==> f'.job == f.job)
            && s'.fails >= s.fails
            && s'.closed == s.closed && s'.chan == s.chan && s'.writer == s.writer && s'.acks == s.acks
            && (f'.Refused? ==> s'.fails > s.fails)
            && (f'.Over? ==> !f.job.kind.Tick?)
            && (f'.Over? ==> f.Refused? || (f.Drained? && s' == s.(flusher := Over(f.job)) && InSlots(s') == []))
  {
    Dispatch(cfg, s, step);
    hide Fresh, Accept, Spool.Whole, Spool.Group;
  }

  lemma DrainStepContract<T>(cfg: Config<T>, s: State<T>, step: Step<T>)
    requires Shaped(s) && s.up && Sealing(s) && DrainContract(s)
    requires Enabled(cfg, s, step) && (Draining(step) || step.Finish?) && cfg.chunk > 0
    ensures DrainContract(Do(cfg, s, step))
  {
    hide Do, Enabled, InSlots, Sealing;
    DrainStepFrame(cfg, s, step);
    ReachedKeeps(cfg, s, step);
  }

  lemma Kinds<T>(cfg: Config<T>, s: State<T>, step: Step<T>)
    requires Shaped(s) && s.up && Enabled(cfg, s, step) && !step.Crash?
    ensures Outside(step) || Wakes(step) || Draining(step) || step.Finish?
    ensures Do(cfg, s, step).up
  {
  }

  lemma DrainContractKeeps<T>(cfg: Config<T>, s: State<T>, step: Step<T>)
    requires Shaped(s) && s.up && Sealing(s) && FlushOrder(s) && DrainContract(s)
    requires Enabled(cfg, s, step) && !step.Crash? && cfg.chunk > 0
    ensures DrainContract(Do(cfg, s, step))
  {
    hide Do, Enabled, Sealing, FlushOrder, DrainContract;
    Kinds(cfg, s, step);
    if Outside(step) { OutsideContract(cfg, s, step); }
    else if Wakes(step) { WakeContract(cfg, s, step); }
    else { DrainStepContract(cfg, s, step); }
  }

  // ---------------------------------------------------------------- assembly

  lemma StepKeeps<T(!new)>(cfg: Config<T>, s: State<T>, step: Step<T>)
    requires Proper(cfg) && Inv(cfg, s) && Enabled(cfg, s, step)
    ensures Inv(cfg, Do(cfg, s, step))
  {
    hide OnDisk, Sealing, Conserved, FlushOrder, DrainContract, Safe, FilesFit, Enabled, Do;
    if !s.up {
      OpenStep(cfg, s, step);
      OpenOnDisk(cfg, s);
      OpenRest(cfg, s);
    } else if step.Crash? {
      CrashStep(cfg, s);
      CrashOnDisk(cfg, s);
    } else {
      Kinds(cfg, s, step);
      SealingKeeps(cfg, s, step);
      ConservedKeeps(cfg, s, step);
      OnDiskKeeps(cfg, s, step);
      FlushOrderKeeps(cfg, s, step);
      DrainContractKeeps(cfg, s, step);
    }
  }

  lemma OpenStep<T>(cfg: Config<T>, s: State<T>, step: Step<T>)
    requires Shaped(s) && !s.up && Enabled(cfg, s, step)
    ensures Opens(cfg, s.slots[0].log) && Opens(cfg, s.slots[1].log) && Do(cfg, s, step) == DoOpen(cfg, s)
    ensures DoOpen(cfg, s).up
  {
  }

  lemma InvParts<T>(cfg: Config<T>, s: State<T>)
    requires Inv(cfg, s) && s.up
    ensures Shaped(s) && Sealing(s) && Conserved(s) && FlushOrder(s) && DrainContract(s)
    ensures FilesFit(cfg, s) && FileShape(cfg, s, 0) && FileShape(cfg, s, 1) && Safe(cfg, s) && OnDisk(cfg, s)
  {
    hide Sealing, Conserved, FlushOrder, DrainContract, FilesFit, FileShape, Safe;
  }

  lemma ShapeHolds<T>(cfg: Config<T>, s: State<T>, i: nat)
    requires Inv(cfg, s) && s.up && i < 2
    ensures FileShape(cfg, s, i)
  {
    hide Inv, FileShape, Sealing, Conserved, FlushOrder, DrainContract, FilesFit, Safe, OnDisk;
    InvParts(cfg, s);
  }

  lemma CrashStep<T>(cfg: Config<T>, s: State<T>)
    requires Shaped(s) && s.up
    ensures Enabled(cfg, s, Crash) && Do(cfg, s, Crash) == DoCrash(s) && !DoCrash(s).up
  {
  }

  lemma OpenRest<T>(cfg: Config<T>, s: State<T>)
    requires Shaped(s) && !s.up && Opens(cfg, s.slots[0].log) && Opens(cfg, s.slots[1].log)
    ensures var s' := DoOpen(cfg, s); Sealing(s') && FlushOrder(s') && DrainContract(s')
  {
    hide Spool.Load, FileOf, Fresh;
  }
}
