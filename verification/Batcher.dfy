/**
 * The code of the batcher: the slots and their spool files, the writer and the flusher, with every
 * interleaving at the points where a task awaits. Each method is proved to be a step, or a run, of
 * the protocol.
 */
module Batcher {
  import opened Prelude
  import opened BatchProtocol
  import opened BatchSafety
  import opened BatchTheorems
  import opened BatchRuns
  import opened Stores
  import Spool
  import Utf8

  class SlotBuffer<T> {
    var items: seq<T>
    var file: Option<seq<Utf8.Byte>>

    constructor (file: Option<seq<Utf8.Byte>>, items: seq<T>)
      ensures this.file == file && this.items == items
    {
      this.file := file;
      this.items := items;
    }

    /** One write for the whole group, of which `cut` bytes reach the file; memory always gets all of it. */
    method PushAll(c: Spool.Codec<T>, group: seq<T>, cut: nat)
      requires cut <= |Spool.Group(c, group)|
      modifies this
      ensures items == old(items) + group
      ensures file == if old(file).None? then None else Some(old(file).value + Spool.Group(c, group)[..cut])
      ensures file.Some? && cut > 0 ==> file.value[|old(file).value|] == 10
    {
      GroupLeads(c, group);
      if file.Some? {
        hide Spool.Group;
        var records := [];
        assert group[0..] == group;
        for i := 0 to |group|
          invariant file == old(file) && items == old(items)
          invariant records + Spool.Group(c, group[i..]) == Spool.Group(c, group)
        {
          GroupStep(c, group, i, records);
          records := records + [Spool.LF] + c.enc(group[i]);
        }
        GroupEnds(c, group, records);
        file := Some(file.value + records[..cut]);
      }
      items := items + group;
    }

    method Truncate(ok: bool)
      modifies `file
      ensures file == if ok && old(file).Some? then Some([]) else old(file)
    {
      if file.Some? && ok {
        file := Some([]);
      }
    }
  }

  /** Every group begins with a line feed. */
  lemma GroupLeads<T>(c: Spool.Codec<T>, group: seq<T>)
    ensures Spool.Group(c, group) != [] ==> Spool.Group(c, group)[0] == 10
  {
  }

  lemma GroupStep<T>(c: Spool.Codec<T>, group: seq<T>, i: nat, records: seq<Utf8.Byte>)
    requires i < |group|
    ensures records + Spool.Group(c, group[i..]) ==
              records + [Spool.LF] + c.enc(group[i]) + Spool.Group(c, group[i + 1..])
  {
    var rest, enc, more := group[i..], c.enc(group[i]), Spool.Group(c, group[i + 1..]);
    assert rest[0] == group[i] && rest[1..] == group[i + 1..];
    assert Spool.Group(c, rest) == [Spool.LF] + enc + more;
    hide Spool.Group;
    assert records + ([Spool.LF] + enc + more) == records + [Spool.LF] + enc + more;
  }

  lemma GroupEnds<T>(c: Spool.Codec<T>, group: seq<T>, records: seq<Utf8.Byte>)
    ensures records + Spool.Group(c, group[|group|..]) == records
  {
  }

  /** A drain of `items` from slot `sealed` is under way and has stored the first `stored` of them. */
  ghost predicate Runs<T>(f: Flusher<T>, job: Job, sealed: nat, items: seq<T>, stored: nat) {
    f.Storing? && f.job == job && f.sealed == sealed && Values(f.items) == items && f.stored == stored
  }

  /** The drain was refused and still holds `rest`. */
  ghost predicate GivesUp<T>(f: Flusher<T>, job: Job, sealed: nat, rest: seq<T>) {
    f.Refused? && f.job == job && f.sealed == sealed && Values(Held(f)) == rest
  }

  lemma OtherPotential<T(!new)>(cfg: Config<T>, s: State<T>, step: Step<T>)
    requires Proper(cfg) && Reachable(cfg, s) && s.up && Shaped(s) && Enabled(cfg, s, step) && Outside(step)
    ensures Potential(Do(cfg, s, step)) <= Potential(s) + if step.Send? then 8 else 0
  {
    hide Do, Enabled, Reachable, Potential, Sealing;
    ReachableShaped(cfg, s);
    PotentialStep(cfg, s, step);
  }

  /**
   * The shared buffers, the local variables of `run_writer` and the items the clients will still push
   * (`arrivals`). `st` is the protocol state this memory stands for.
   */
  class Batcher<T(==, !new)> {
    const cfg: Config<T>
    const slots: seq<SlotBuffer<T>>
    var active: nat
    var chan: seq<Cmd<T>>
    var closed: bool
    var group: seq<T>
    var cmds: seq<Cmd<T>>
    var sending: Option<nat>
    var acks: seq<nat>
    var arrivals: seq<T>
    var pushed: nat  // identifies a flush by its position among the pushes
    const target: Target
    ghost var st: State<T>
    /** One receipt for every `store` call of this run that returned true. */
    ghost var receipts: seq<Receipt<T>>

    constructor (cfg: Config<T>, slots: seq<SlotBuffer<T>>, arrivals: seq<T>, pushed: nat, target: Target,
                 ghost st: State<T>)
      ensures this.target == target && receipts == []
      ensures this.cfg == cfg && this.slots == slots && this.arrivals == arrivals && this.st == st
      ensures active == 0 && chan == [] && !closed && group == [] && cmds == [] && sending == None && acks == []
      ensures this.pushed == pushed
    {
      this.cfg, this.slots, this.arrivals, this.pushed, this.st := cfg, slots, arrivals, pushed, st;
      this.target, receipts := target, [];
      active, chan, closed, group, cmds, sending, acks := 0, [], false, [], [], None, [];
    }

    ghost predicate Valid()
      reads this, slots
    {
      && |slots| == 2 && slots[0] != slots[1] && Shaped(st)
      && Proper(cfg) && st.up && Reachable(cfg, st)
      && active == st.active && chan == st.chan && closed == st.closed && acks == st.acks
      && Writer(group, cmds, sending) == st.writer && pushed == |st.pushed|
      && Mirrors(slots[0], st.slots[0]) && Mirrors(slots[1], st.slots[1])
      && RowsOf(receipts) == Values(AcceptedEntries(st.accepted)) && Honest(receipts)
    }

    ghost predicate Mirrors(buffer: SlotBuffer<T>, slot: Slot<T>)
      reads buffer
    {
      && buffer.items == Values(slot.items)
      && buffer.file == if cfg.spooling then Some(FileOf(cfg, slot.log)) else None
    }

    /** What is left to do, for `drain_all`: every push still to come counts for eight steps. */
    ghost function Work(): nat
      reads this
      requires Shaped(st)
    {
      Potential(st) + 8 * |arrivals|
    }

    // -------------------------------------------------------------- clients and writer

    method Push()
      requires Valid() && !closed && arrivals != []
      modifies this
      ensures Valid() && st == Do(cfg, old(st), Send(old(arrivals)[0])) && arrivals == old(arrivals)[1..]
    {
      hide Reachable, FileOf, Values, Do, Enabled, Proper, RowsOf, Honest, AcceptedEntries;
      SendEffect(cfg, st, arrivals[0]);
      ReachableStep(cfg, st, Send(arrivals[0]));
      st := Do(cfg, st, Send(arrivals[0]));
      chan := chan + [Cmd.Push(arrivals[0])];
      arrivals, pushed := arrivals[1..], pushed + 1;
    }

    /** `recv_many`: up to `batch_max_size` commands at once. */
    method WriterReceive(n: nat)
      requires Valid() && Enabled(cfg, st, Receive(n))
      modifies this
      ensures Valid() && st == Do(cfg, old(st), Receive(n)) && arrivals == old(arrivals)
    {
      ReachableStep(cfg, st, Receive(n));
      st := Do(cfg, st, Receive(n));
      cmds, chan := chan[..n], chan[n..];
    }

    method WriterCollect()
      requires Valid() && Enabled(cfg, st, Collect)
      modifies this
      ensures Valid() && st == Do(cfg, old(st), Collect) && arrivals == old(arrivals)
    {
      ReachableStep(cfg, st, Collect);
      st := Do(cfg, st, Collect);
      group, cmds := group + [cmds[0].item], cmds[1..];
    }

    /** `push_items` under the lock, and the flush behind the group becomes due. */
    method WriterAppend(cut: nat)
      requires Valid() && Enabled(cfg, st, Append(cut))
      modifies this, slots
      ensures Valid() && st == Do(cfg, old(st), Append(cut)) && arrivals == old(arrivals)
    {
      hide Reachable, FileOf, Values, Spool.Group, Spool.FitsAll, BatchProtocol.PushAll, Do, Enabled, Proper;
      hide RowsOf, Honest, AcceptedEntries;
      ReachableStep(cfg, st, Append(cut));
      AppendWriter(cfg, st, cut);
      ReachableShaped(cfg, st);
      PushAllEffect(cfg, st.slots[active], group, cut);
      if group != [] {
        slots[active].PushAll(cfg.codec, group, cut);
      }
      group := [];
      if cmds != [] {
        sending, cmds := Some(cmds[0].mark), cmds[1..];
      }
      st := Do(cfg, st, Append(cut));
    }

    method WriterForward()
      requires Valid() && Enabled(cfg, st, Forward)
      modifies this
      ensures Valid() && st == Do(cfg, old(st), Forward) && arrivals == old(arrivals)
    {
      ReachableStep(cfg, st, Forward);
      st := Do(cfg, st, Forward);
      acks, sending := acks + [sending.value], None;
    }

    /** Whatever the clients and the writer do while the flusher awaits. */
    method OthersRun(ghost start: State<T>)
      requires Valid() && Shaped(start) && Leads(cfg, start, st)
      modifies this, slots
      ensures Valid() && Leads(cfg, start, st) && Others(old(st), st) && Work() <= old(Work())
    {
      hide Reachable, Do, Enabled, Leads, Potential, FileOf, Values, Proper, Outside;
      var n: int := *;
      while n > 0
        invariant Valid() && Leads(cfg, start, st) && Others(old(st), st) && Work() <= old(Work())
      {
        ghost var before := st;
        ghost var step := OneOther();
        if step.Some? {
          LeadsStep(cfg, start, before, step.value);
          OtherFrame(cfg, before, step.value);
          OtherPotential(cfg, before, step.value);
        }
        n := n - 1;
      }
    }

    /** One step of a client or of the writer, if the chosen one is possible. */
    method OneOther() returns (ghost step: Option<Step<T>>)
      requires Valid()
      modifies this, slots
      ensures Valid()
      ensures step.None? ==> st == old(st) && arrivals == old(arrivals)
      ensures step.Some? ==>
                && Outside(step.value) && Enabled(cfg, old(st), step.value) && st == Do(cfg, old(st), step.value)
                && |arrivals| + (if step.value.Send? then 1 else 0) == |old(arrivals)|
    {
      hide Reachable, Do, FileOf, Values, Proper;
      step := None;
      var choice: int := *;
      if choice == 0 && !closed && arrivals != [] {
        step := Some(Send(arrivals[0]));
        Push();
      } else if choice == 1 && !closed {
        step := Some(SendFlush);
        RequestFlush();
      } else if choice == 2 && !closed {
        step := Some(Close);
        Stop();
      } else if choice >= 3 {
        step := OneOfWriter(choice);
      }
    }

    method OneOfWriter(choice: int) returns (ghost step: Option<Step<T>>)
      requires Valid()
      modifies this, slots
      ensures Valid()
      ensures step.None? ==> st == old(st) && arrivals == old(arrivals)
      ensures step.Some? ==>
                && Outside(step.value) && !step.value.Send? && Enabled(cfg, old(st), step.value)
                && st == Do(cfg, old(st), step.value) && arrivals == old(arrivals)
    {
      hide Reachable, Do, FileOf, Values, Spool.Group;
      step := None;
      if choice == 3 && !WriterBusy(Writer(group, cmds, sending)) && chan != [] {
        var k: int := *;
        var n := Max(1, Min(k, Min(cfg.chunk, |chan|)));
        step := Some(Receive(n));
        WriterReceive(n);
      } else if choice == 4 && sending.None? && cmds != [] && cmds[0].Push? {
        step := Some(Collect);
        WriterCollect();
      } else if choice == 5 && sending.None? && (cmds == [] || cmds[0].Flush?) && (group != [] || cmds != []) {
        var k: int := *;
        var cut := Max(0, Min(k, |Spool.Group(cfg.codec, group)|));
        step := Some(Append(cut));
        WriterAppend(cut);
      } else if choice == 6 && sending.Some? && |acks| < 1 {
        step := Some(Forward);
        WriterForward();
      }
    }

    // -------------------------------------------------------------- flusher

    /** Under the lock: swap unless the sealed slot still holds items, and take what it holds. */
    method TakeSealed() returns (sealed: nat, items: seq<T>)
      requires Valid() && st.flusher.Swap?
      modifies this, slots
      ensures Valid() && st == Do(cfg, old(st), Take) && arrivals == old(arrivals)
      ensures items == [] ==> st.flusher == Drained(old(st).flusher.job)
      ensures items != [] ==> Runs(st.flusher, old(st).flusher.job, sealed, items, 0)
    {
      hide Reachable, FileOf, Do, Enabled, Proper, Values, RowsOf, Honest, AcceptedEntries;
      TakeEffect(cfg, st);
      ReachableStep(cfg, st, Take);
      if slots[1 - active].items == [] {
        active := 1 - active;
      }
      sealed := 1 - active;
      items := slots[sealed].items;
      slots[sealed].items := [];
      st := Do(cfg, st, Take);
    }

    /** Under the lock: what is left of the drained items goes back to their slot. */
    method PutBackRest(sealed: nat, rest: seq<T>)
      requires Valid() && Enabled(cfg, st, PutBack) && st.flusher.Refused? && st.flusher.sealed == sealed
      requires rest == Values(Held(st.flusher))
      modifies this, slots
      ensures Valid() && st == Do(cfg, old(st), PutBack) && arrivals == old(arrivals)
    {
      hide Reachable, FileOf, Do, Enabled, Proper, Values, Held, Sealing;
      ReachableShaped(cfg, st);
      PutBackEffect(cfg, st);
      ReachableStep(cfg, st, PutBack);
      slots[sealed].items := rest;
      st := Do(cfg, st, PutBack);
    }

    /** Under the lock: empty the spool file of the drained slot, which may fail. */
    method TruncateSealed(sealed: nat, ok: bool)
      requires Valid() && Enabled(cfg, st, Truncate(ok)) && st.flusher.Stored? && st.flusher.sealed == sealed
      modifies this, slots
      ensures Valid() && st == Do(cfg, old(st), Truncate(ok)) && arrivals == old(arrivals)
    {
      hide Reachable, FileOf, Do, Enabled, Proper, Values, Held, Sealing;
      ReachableShaped(cfg, st);
      TruncateEffect(cfg, st, ok);
      ReachableStep(cfg, st, Truncate(ok));
      slots[sealed].Truncate(ok);
      st := Do(cfg, st, Truncate(ok));
    }

    /** The result of a `store` call is known; nothing in memory changes. */
    ghost method NoteStore(ok: bool, chunk: seq<T>, calls: seq<Call>)
      requires Valid() && Enabled(cfg, st, Store(ok)) && st.flusher.Storing?
      requires Values(AcceptedEntries(Do(cfg, st, Store(ok)).accepted))
               == Values(AcceptedEntries(st.accepted)) + if ok then chunk else []
      requires ok ==> SettledAll(calls, 0, |chunk|)
      modifies `st, `receipts
      ensures Valid() && st == Do(cfg, old(st), Store(ok))
      ensures receipts == old(receipts) + if ok then [Receipt(chunk, calls)] else []
    {
      hide AcceptedEntries, SettledAll;
      if ok {
        receipts := receipts + [Receipt(chunk, calls)];
        assert receipts[..|receipts| - 1] == old(receipts);
      }
      hide Reachable, FileOf, Do, Enabled, Proper, Values, Held, Sealing;
      ReachableShaped(cfg, st);
      StoreEffect(cfg, st, ok);
      ReachableStep(cfg, st, Store(ok));
      st := Do(cfg, st, Store(ok));
    }

    /** The drain looks whether both slots are empty. */
    method CheckSlots() returns (done: bool)
      requires Valid() && st.flusher.Drained? && !st.flusher.job.kind.Tick? && Enabled(cfg, st, Check)
      modifies this
      ensures Valid() && st == Do(cfg, old(st), Check) && arrivals == old(arrivals)
      ensures st.flusher == if done then Over(old(st).flusher.job) else Swap(old(st).flusher.job)
    {
      hide Reachable, FileOf, Do, Enabled, Proper;
      CheckOutcome(cfg, st);
      ReachableStep(cfg, st, Check);
      done := slots[0].items == [] && slots[1].items == [];
      st := Do(cfg, st, Check);
    }

    /** One `store` call for the next chunk, while the other task goes on. */
    method StoreChunk(ghost start: State<T>, ghost job: Job, ghost sealed: nat, items: seq<T>, stored: nat)
      returns (accepted: bool)
      requires Valid() && Shaped(start) && Leads(cfg, start, st)
      requires stored < |items| && Runs(st.flusher, job, sealed, items, stored)
      modifies this, slots, target
      ensures Valid() && Leads(cfg, start, st) && Work() < old(Work())
      ensures !accepted ==> GivesUp(st.flusher, job, sealed, items[stored..])
      ensures accepted && stored + cfg.chunk < |items| ==> Runs(st.flusher, job, sealed, items, stored + cfg.chunk)
      ensures accepted && stored + cfg.chunk >= |items| ==> st.flusher == Stored(job, sealed)
      ensures accepted ==>
                receipts != []
                && receipts[|receipts| - 1].rows == items[stored..Min(stored + cfg.chunk, |items|)]
    {
      hide Reachable, Do, Enabled, Leads, Potential, FileOf, Proper, Sealing, Held, Values, AcceptedEntries, RowsOf;
      ProperChunk(cfg);
      var next := Min(stored + cfg.chunk, |items|);
      var grants: int := *;
      accepted := target.Store(next - stored, Max(0, grants));
      OthersRun(start);
      StoreOutcome(cfg, st, job, sealed, items, stored, accepted);
      Progress(cfg, start, st, Store(accepted));
      NoteStore(accepted, items[stored..next], target.calls);
    }

    /**
     * `drain_sealed`: swap, then store the sealed items chunk by chunk, the other task running whenever
     * this one awaits. False means the target was unreachable and the rest is back in its slot.
     */
    method DrainSealed(ghost start: State<T>) returns (ok: bool)
      requires Valid() && st.flusher.Swap? && Shaped(start) && Leads(cfg, start, st)
      modifies this, slots, target
      ensures Valid() && Leads(cfg, start, st) && Work() < old(Work())
      ensures var job := old(st).flusher.job;
              st.flusher == if ok then Drained(job) else if job.kind.Tick? then Idle else Over(job)
    {
      hide Reachable, Do, Enabled, Leads, Potential, FileOf, Proper, Sealing, Held;
      hide Values, Honest, RowsOf, AcceptedEntries;
      ghost var job := st.flusher.job;
      ProperChunk(cfg);
      TakeReady(cfg, st);
      Progress(cfg, start, st, Take);
      var sealed, items := TakeSealed();
      if items == [] {
        return true;
      }
      var stored := 0;
      while stored < |items|
        invariant Valid() && Leads(cfg, start, st) && Work() < old(Work()) && stored <= |items|
        invariant stored < |items| ==> Runs(st.flusher, job, sealed, items, stored)
        invariant stored == |items| ==> st.flusher == Stored(job, sealed)
        decreases |items| - stored
      {
        var accepted := StoreChunk(start, job, sealed, items, stored);
        if !accepted {
          OthersRun(start);
          PutBackReady(cfg, st);
          Progress(cfg, start, st, PutBack);
          PutBackRest(sealed, items[stored..]);
          return false;
        }
        stored := Min(stored + cfg.chunk, |items|);
      }
      OthersRun(start);
      var truncated: bool := *;
      TruncateReady(cfg, st, truncated);
      Progress(cfg, start, st, Truncate(truncated));
      TruncateSealed(sealed, truncated);
      return true;
    }

    /** `drain_all`: drain until both slots are empty or the target is unreachable. */
    method DrainAll(ghost start: State<T>)
      requires Valid() && st.flusher.Swap? && !st.flusher.job.kind.Tick? && Shaped(start) && Leads(cfg, start, st)
      modifies this, slots, target
      ensures Valid() && Leads(cfg, start, st) && st.flusher == Over(old(st).flusher.job)
    {
      hide Reachable, Do, Enabled, Leads, Potential, FileOf, Proper, Sealing, Values;
      ghost var job := st.flusher.job;
      var done := false;
      while !done
        invariant Valid() && Leads(cfg, start, st)
        invariant st.flusher == if done then Over(job) else Swap(job)
        decreases Work(), !done
      {
        var ok := DrainSealed(start);
        if !ok {
          return;
        }
        OthersRun(start);
        CheckReady(cfg, st);
        Progress(cfg, start, st, Check);
        done := CheckSlots();
        if !done {
          OthersRun(start);
        }
      }
    }

    /**
     * One flush request: take it, drain everything, acknowledge. When it is acknowledged every item
     * pushed before the flush, by its position in what had been pushed at the call, is accepted, or a `store`
     * call failed since the call.
     */
    method ServeFlush() returns (mark: nat, ghost steps: seq<Step<T>>)
      requires Valid() && st.flusher.Idle? && acks != []
      modifies this, slots, target
      ensures Valid() && st.flusher.Idle? && mark == old(acks)[0]
      ensures mark <= |old(st).pushed|
      ensures old(st).pushed[..mark] <= Values(AcceptedEntries(st.accepted)) || old(st).fails < st.fails
      ensures Served(cfg, FlushChannel, old(st), st) && Grown(old(st), st)
      ensures Stretch(cfg, old(st), steps, st, [old(acks)[0]], 0)
    {
      hide Reachable, Do, Enabled, Leads, Potential, FileOf, Proper, Sealing, Values, Grown, Stretch, RowsOf, Honest;
      ghost var before := st;
      mark := acks[0];
      AckBehindPushes(cfg, st);
      WakeOutcome(cfg, st);
      ReachableStep(cfg, st, WakeFlush);
      OneStep(cfg, st, WakeFlush);
      st := Do(cfg, st, WakeFlush);
      acks := acks[1..];
      ghost var start := st;
      LeadsNowhere(cfg, st);
      DrainAll(start);
      FlushContract(cfg, st);
      ghost var over := st;
      ghost var drain := DrainRun(cfg, start, over);
      FinishOutcome(cfg, st);
      ReachableStep(cfg, st, Finish);
      OneStep(cfg, st, Finish);
      st := Do(cfg, st, Finish);
      steps := TurnSteps(cfg, before, WakeFlush, drain, over);
      StretchGrows(cfg, before, steps, st, [mark], 0);
      FlushedItems(before, st, mark);
    }

    /** The timer or a full slot: one drain, which ends idle whether it got everything stored or not. */
    method ServeTick() returns (ghost steps: seq<Step<T>>)
      requires Valid() && st.flusher.Idle?
      modifies this, slots, target
      ensures Valid() && st.flusher.Idle?
      ensures Served(cfg, Timer, old(st), st) && Grown(old(st), st)
      ensures Stretch(cfg, old(st), steps, st, [], 1)
    {
      hide Reachable, Do, Enabled, Leads, Potential, FileOf, Proper, Sealing, Values, RowsOf, Honest, AcceptedEntries;
      hide Grown, Stretch;
      ghost var before := st;
      TickOutcome(cfg, st);
      ReachableStep(cfg, st, WakeTick);
      OneStep(cfg, st, WakeTick);
      st := Do(cfg, st, WakeTick);
      ghost var start := st;
      LeadsNowhere(cfg, st);
      var ok := DrainSealed(start);
      if ok {
        TickChecked(cfg, st);
        ReachableStep(cfg, st, Check);
        LeadsStep(cfg, start, st, Check);
        st := Do(cfg, st, Check);
      }
      ghost var drain := DrainRun(cfg, start, st);
      StretchJoin(cfg, before, [WakeTick], start, drain, st, [], 1, [], 0);
      ghost var none: seq<nat> := [];
      assert none + none == none;
      steps := [WakeTick] + drain;
      StretchGrows(cfg, before, steps, st, [], 1);
    }

    /**
     * The channel to the flusher is closed and empty: drain once more and exit. Nothing is left behind
     * unless a `store` call of this last drain failed.
     */
    method ServeClosed() returns (ghost steps: seq<Step<T>>)
      requires Valid() && st.flusher.Idle? && closed && chan == [] && acks == []
      requires group == [] && cmds == [] && sending.None?
      modifies this, slots, target
      ensures Valid() && st.flusher.Exited? && acks == []
      ensures Values(AcceptedEntries(st.accepted)) == old(st).pushed || old(st).fails < st.fails
      ensures st.pushed == old(st).pushed && Served(cfg, FlushChannel, old(st), st) && Grown(old(st), st)
      ensures Stretch(cfg, old(st), steps, st, [], 0)
    {
      hide Reachable, Do, Enabled, Leads, Potential, FileOf, Proper, Sealing, Values, RowsOf, Honest, AcceptedEntries;
      hide Stretch;
      ghost var before := st;
      ClosedOutcome(cfg, st);
      ReachableStep(cfg, st, WakeClosed);
      OneStep(cfg, st, WakeClosed);
      st := Do(cfg, st, WakeClosed);
      ghost var start := st;
      LeadsNowhere(cfg, st);
      DrainAll(start);
      ShutdownContract(cfg, st);
      FinalInbox(cfg, st);
      ghost var over := st;
      ghost var drain := DrainRun(cfg, start, over);
      FinishOutcome(cfg, st);
      ReachableStep(cfg, st, Finish);
      OneStep(cfg, st, Finish);
      st := Do(cfg, st, Finish);
      steps := TurnSteps(cfg, before, WakeClosed, drain, over);
      StretchGrows(cfg, before, steps, st, [], 0);
    }

    /** One turn of the loop: whatever has woken the flusher is served. */
    method ServeWake(wake: Wake) returns (exited: bool, answered: seq<nat>, ghost steps: seq<Step<T>>)
      requires Valid() && st.flusher.Idle?
      modifies this, slots, target
      ensures Valid() && st.flusher == if exited then Exited else Idle
      ensures Served(cfg, wake, old(st), st) && Grown(old(st), st)
      ensures Stretch(cfg, old(st), steps, st, answered, if wake.Timer? then 1 else 0)
      ensures answered == if wake.FlushChannel? && old(acks) != [] then [old(acks)[0]] else []
      ensures forall k :: 0 <= k < |answered| ==> answered[k] <= |st.accepted| || old(st).fails < st.fails
      ensures exited <==>
                && wake.FlushChannel? && old(acks) == [] && old(closed) && old(chan) == []
                && old(group) == [] && old(cmds) == [] && old(sending).None?
      ensures exited ==> acks == []
      ensures exited ==> Values(AcceptedEntries(st.accepted)) == st.pushed || old(st).fails < st.fails
    {
      hide Reachable, Do, Enabled, Leads, Potential, FileOf, Proper, Sealing, Values, RowsOf, Honest, AcceptedEntries;
      hide Stretch;
      exited, answered, steps := false, [], [];
      NoStep(cfg, st);
      if wake.Timer? {
        steps := ServeTick();
      } else if acks != [] {
        var mark;
        mark, steps := ServeFlush();
        answered := [mark];
      } else if closed && chan == [] && group == [] && cmds == [] && sending.None? {
        steps := ServeClosed();
        exited := true;
      }
    }

    /** The others run, then the wake-up finds the process in `found` and is served. */
    method NextTurn(wake: Wake)
      returns (exited: bool, answered: seq<nat>, ghost steps: seq<Step<T>>, ghost found: State<T>)
      requires Valid() && st.flusher.Idle?
      modifies this, slots, target
      ensures Valid() && st.flusher == if exited then Exited else Idle
      ensures Leads(cfg, old(st), found) && Shaped(found) && Served(cfg, wake, found, st) && Grown(old(st), st)
      ensures Stretch(cfg, old(st), steps, st, answered, if wake.Timer? then 1 else 0)
      ensures answered == if wake.FlushChannel? && found.acks != [] then [found.acks[0]] else []
      ensures forall k :: 0 <= k < |answered| ==> answered[k] <= |st.accepted| || old(st).fails < st.fails
      ensures old(acks) <= found.acks
      ensures exited <==> wake.FlushChannel? && Deserted(found)
      ensures exited ==> st.acks == []
      ensures exited ==> Values(AcceptedEntries(st.accepted)) == st.pushed || old(st).fails < st.fails
    {
      hide Reachable, Do, Enabled, Leads, Potential, FileOf, Proper, Sealing, Values, RowsOf, Honest, AcceptedEntries;
      hide Stretch, Served;
      ghost var before := st;
      LeadsNowhere(cfg, st);
      OthersRun(st);
      found := st;
      ghost var others := DrainRun(cfg, before, found);
      StretchFlushes(cfg, before, others, found, [], 0);
      StretchGrows(cfg, before, others, found, [], 0);
      exited, answered, steps := ServeWake(wake);
      StretchJoin(cfg, before, others, found, steps, st, [], 0, answered, if wake.Timer? then 1 else 0);
      assert [] + answered == answered;
      steps := others + steps;
    }

    /** What the spool gave back is stored before anything else. */
    method ServeStartup() returns (ghost steps: seq<Step<T>>)
      requires Valid() && st.flusher.Swap? && st.flusher.job.kind.Startup?
      modifies this, slots, target
      ensures Valid() && st.flusher.Idle?
      ensures DrainedAll(cfg, old(st), st) && Grown(old(st), st) && Stretch(cfg, old(st), steps, st, [], 0)
    {
      hide Reachable, Do, Enabled, Leads, Potential, FileOf, Proper, Sealing, Values, RowsOf, Honest, AcceptedEntries;
      hide Stretch;
      ghost var before := st;
      LeadsNowhere(cfg, st);
      DrainAll(st);
      ghost var drain := DrainRun(cfg, before, st);
      FinishOutcome(cfg, st);
      ReachableStep(cfg, st, Finish);
      steps := FinishSteps(cfg, before, drain, st);
      st := Do(cfg, st, Finish);
      StretchGrows(cfg, before, steps, st, [], 0);
    }

    /**
     * `run_flusher`: store what the spool gave back, then serve whatever comes first, again and again, until
     * the writer is gone. `wakes` says what comes first each time; the others run before every wake-up.
     * `found` are the states in which the wake-ups find the process, `rests` those in which they leave it.
     */
    method RunFlusher(wakes: seq<Wake>)
      returns (exited: bool, answered: seq<nat>, ghost steps: seq<Step<T>>, ghost found: seq<State<T>>,
               ghost rests: seq<State<T>>)
      requires Valid() && st.flusher.Swap? && st.flusher.job.kind.Startup?
      modifies this, slots, target
      ensures Valid() && st.flusher == if exited then Exited else Idle
      ensures Possible(cfg, old(st), steps) && st == After(cfg, old(st), steps) && Alive(steps)
      ensures Grown(old(st), st)
      ensures exited ==> Values(AcceptedEntries(st.accepted)) == st.pushed || old(st).fails < st.fails
      // every wake-up is served, in turn, and the loop ends only once the flush channel is closed
      ensures Turns(cfg, wakes, found, rests, answered)
      ensures |rests| == |found| + 1 && DrainedAll(cfg, old(st), rests[0]) && rests[|found|] == st
      ensures exited <==> found != [] && wakes[|found| - 1].FlushChannel? && Deserted(found[|found| - 1])
      ensures !exited ==> |found| == |wakes|
      // every flush handed over is acknowledged in order or still in the channel
      ensures answered == Acked(cfg, old(st), steps)
      ensures old(acks) + Handed(cfg, old(st), steps) == answered + acks
      ensures forall k :: 0 <= k < |answered| ==> answered[k] <= |st.accepted| || old(st).fails < st.fails
      ensures old(acks) != [] && FlushChannel in wakes ==> answered != [] && answered[0] == old(acks)[0]
      ensures multiset(steps)[WakeTick] == multiset(wakes[..|found|])[Timer]
    {
      hide Reachable, Do, Enabled, Leads, Potential, FileOf, Proper, Sealing, Values, RowsOf, Honest, AcceptedEntries;
      hide Stretch, Served, DrainedAll, Turns, Possible, After, Alive, Handed, Acked, Grown;
      ghost var before := st;
      exited, answered, found := false, [], [];
      steps := ServeStartup();
      GrownCounts(before, st);
      rests := [st];
      NoTurns(cfg, wakes, st);
      var i := 0;
      while i < |wakes| && !exited
        invariant Valid() && i <= |wakes| && st.flusher == if exited then Exited else Idle
        invariant Stretch(cfg, before, steps, st, answered, multiset(wakes[..i])[Timer])
        invariant |found| == i && |rests| == i + 1 && rests[i] == st && DrainedAll(cfg, before, rests[0])
        invariant Turns(cfg, wakes, found, rests, answered)
        invariant exited <==> i > 0 && wakes[i - 1].FlushChannel? && Deserted(found[i - 1])
        invariant exited ==> Values(AcceptedEntries(st.accepted)) == st.pushed || before.fails < st.fails
        invariant before.fails <= st.fails && (exited ==> st.acks == [])
        invariant forall k :: 0 <= k < |answered| ==> answered[k] <= |st.accepted| || before.fails < st.fails
        invariant before.acks != [] && answered == [] ==> FlushChannel !in wakes[..i]
        decreases |wakes| - i
      {
        hide Deserted;
        ghost var rest := st;
        var more;
        ghost var step, at;
        exited, more, step, at := NextTurn(wakes[i]);
        GrownCounts(rest, st);
        StretchTurn(cfg, before, wakes, i, steps, rest, answered, step, st, more, at);
        TurnsSnoc(cfg, wakes, found, rests, answered, at, st);
        answered, steps, found, rests := answered + more, steps + step, found + [at], rests + [st];
        i := i + 1;
      }
      StretchGrows(cfg, before, steps, st, answered, multiset(wakes[..i])[Timer]);
      TurnsFlushes(cfg, before, wakes, i, steps, st, answered);
    }

    method RequestFlush()
      requires Valid() && !closed
      modifies this
      ensures Valid() && st == Do(cfg, old(st), SendFlush) && arrivals == old(arrivals)
    {
      ReachableStep(cfg, st, SendFlush);
      chan := chan + [Flush(pushed)];
      st := Do(cfg, st, SendFlush);
    }

    method Stop()
      requires Valid() && !closed
      modifies this
      ensures Valid() && st == Do(cfg, old(st), Close) && arrivals == old(arrivals)
    {
      ReachableStep(cfg, st, Close);
      st := Do(cfg, st, Close);
      closed := true;
    }
  }

  lemma PushAllEffect<T>(cfg: Config<T>, slot: Slot<T>, items: seq<T>, cut: nat)
    requires Spool.FitsAll(cfg.codec, slot.log) && cut <= |Spool.Group(cfg.codec, items)|
    ensures var slot' := PushAll(cfg, slot, items, cut);
            && Values(slot'.items) == Values(slot.items) + items
            && (cfg.spooling ==>
                  FileOf(cfg, slot'.log) == FileOf(cfg, slot.log) + Spool.Group(cfg.codec, items)[..cut])
            && (!cfg.spooling ==> slot'.log == slot.log)
  {
    var n := if cfg.spooling then Spool.Whole(cfg.codec, items, cut) else 0;
    ValuesConcat(slot.items, Fresh(items, n));
    assert Values(Fresh(items, n)) == items;
    FileAppend(cfg, slot.log, Spool.Write(items, cut));
  }

  /**
   * `Batcher::start`: open both slots from the files a previous run left. It fails exactly when the
   * protocol cannot restart; otherwise the flusher begins with a drain of what was read back.
   */
  method Start<T(==, !new)>(cfg: Config<T>, file0: seq<Utf8.Byte>, file1: seq<Utf8.Byte>, arrivals: seq<T>,
                            target: Target, ghost down: State<T>)
    returns (batcher: Option<Batcher<T>>)
    requires Proper(cfg) && Reachable(cfg, down) && Shaped(down) && !down.up
    requires file0 == FileOf(cfg, down.slots[0].log) && file1 == FileOf(cfg, down.slots[1].log)
    ensures batcher.Some? <==> Enabled(cfg, down, Open)
    ensures batcher.Some? ==>
              fresh(batcher.value) && batcher.value.cfg == cfg && batcher.value.Valid()
              && batcher.value.st == Do(cfg, down, Open)
  {
    hide Reachable, Proper, Do, Enabled, FileOf;
    OpenOutcome(cfg, down);
    var items0 := Spool.LoadLoop(cfg.codec, file0);
    if items0.None? {
      return None;
    }
    var items1 := Spool.LoadLoop(cfg.codec, file1);
    if items1.None? {
      return None;
    }
    ReachableStep(cfg, down, Open);
    var slot0 := new SlotBuffer(if cfg.spooling then Some(file0) else None, items0.value);
    var slot1 := new SlotBuffer(if cfg.spooling then Some(file1) else None, items1.value);
    var b := new Batcher(cfg, [slot0, slot1], arrivals, |items0.value| + |items1.value|, target,
                         Do(cfg, down, Open));
    return Some(b);
  }

  lemma OpenOutcome<T(!new)>(cfg: Config<T>, s: State<T>)
    requires Shaped(s) && !s.up
    ensures Enabled(cfg, s, Open) <==>
              && Spool.Load(cfg.codec, FileOf(cfg, s.slots[0].log)).Some?
              && Spool.Load(cfg.codec, FileOf(cfg, s.slots[1].log)).Some?
    ensures Enabled(cfg, s, Open) ==>
              var t := Do(cfg, s, Open);
              && t.up && t.active == 0 && t.chan == [] && !t.closed && t.acks == [] && t.writer == Writer([], [], None)
              && Values(t.slots[0].items) == Spool.Load(cfg.codec, FileOf(cfg, s.slots[0].log)).value
              && Values(t.slots[1].items) == Spool.Load(cfg.codec, FileOf(cfg, s.slots[1].log)).value
              && t.slots[0].log == s.slots[0].log && t.slots[1].log == s.slots[1].log && t.accepted == []
              && |t.pushed| == |t.slots[0].items| + |t.slots[1].items|
  {
    hide Spool.Load, FileOf, Values, Fresh;
    if Enabled(cfg, s, Open) {
      var r0 := Spool.Load(cfg.codec, FileOf(cfg, s.slots[0].log)).value;
      var r1 := Spool.Load(cfg.codec, FileOf(cfg, s.slots[1].log)).value;
      FreshValues(r0);
      FreshValues(r1);
    }
  }

  lemma FreshValues<T>(items: seq<T>)
    ensures Values(Fresh(items, |items|)) == items
  {
  }

  /** The fields of the writer and the clients, which no drain step touches. */
  ghost predicate SameInbox<T>(s: State<T>, t: State<T>) {
    && t.up == s.up && t.chan == s.chan && t.closed == s.closed && t.acks == s.acks
    && t.writer == s.writer && t.pushed == s.pushed
  }

  /** One step of the drain: the run goes on and the work gets less. */
  lemma Progress<T(!new)>(cfg: Config<T>, start: State<T>, s: State<T>, step: Step<T>)
    requires Proper(cfg) && Shaped(start) && Reachable(cfg, s) && s.up && Shaped(s) && Leads(cfg, start, s)
    requires Enabled(cfg, s, step) && Draining(step)
    ensures Leads(cfg, start, Do(cfg, s, step))
    ensures Potential(Do(cfg, s, step)) < Potential(s)
  {
    hide Leads, Do, Enabled, Reachable, Potential, Sealing;
    LeadsStep(cfg, start, s, step);
    ReachableShaped(cfg, s);
    PotentialStep(cfg, s, step);
  }

  lemma StoreOutcome<T(!new)>(cfg: Config<T>, s: State<T>, job: Job, sealed: nat, items: seq<T>, stored: nat, ok: bool)
    requires Proper(cfg) && Shaped(s) && s.up && Runs(s.flusher, job, sealed, items, stored) && stored < |items|
    ensures Enabled(cfg, s, Store(ok))
    ensures var f := Do(cfg, s, Store(ok)).flusher;
            if !ok then
              GivesUp(f, job, sealed, items[stored..])
            else if stored + cfg.chunk < |items| then Runs(f, job, sealed, items, stored + cfg.chunk)
            else f == Stored(job, sealed)
    ensures Values(AcceptedEntries(Do(cfg, s, Store(ok)).accepted))
            == Values(AcceptedEntries(s.accepted)) + if ok then items[stored..Min(stored + cfg.chunk, |items|)] else []
  {
    ProperChunk(cfg);
    StoreEnabled(cfg, s, ok);
    hide Proper, Enabled, Do;
    Dispatch(cfg, s, Store(ok));
    hide Values, AcceptedEntries, Accept;
    var f := s.flusher;
    if ok {
      var next := Min(stored + cfg.chunk, |items|);
      ValuesSlice(f.items, stored, next);
      AcceptValues(s.accepted, f.items[stored..next], sealed);
    } else {
      ValuesSlice(f.items, stored, |items|);
    }
  }

  lemma StoreEnabled<T>(cfg: Config<T>, s: State<T>, ok: bool)
    requires Shaped(s) && s.up && s.flusher.Storing? && s.flusher.stored < |s.flusher.items|
    ensures Enabled(cfg, s, Store(ok))
  {
  }

  lemma ValuesSlice<T>(es: seq<Entry<T>>, lo: nat, hi: nat)
    requires lo <= hi <= |es|
    ensures Values(es[lo..hi]) == Values(es)[lo..hi]
    ensures hi == |es| ==> es[lo..] == es[lo..hi] && Values(es)[lo..] == Values(es)[lo..hi]
  {
  }

  lemma AcceptValues<T>(log: seq<Acceptance<T>>, chunk: seq<Entry<T>>, slot: nat)
    ensures Values(AcceptedEntries(log + Accept(chunk, slot))) == Values(AcceptedEntries(log)) + Values(chunk)
  {
  }

  lemma PutBackReady<T(!new)>(cfg: Config<T>, s: State<T>)
    requires Proper(cfg) && Reachable(cfg, s) && s.up && Shaped(s) && s.flusher.Refused?
    ensures Enabled(cfg, s, PutBack) && s.flusher.sealed < 2
    ensures Do(cfg, s, PutBack).flusher == if s.flusher.job.kind.Tick? then Idle else Over(s.flusher.job)
  {
    hide Reachable;
    ReachableShaped(cfg, s);
  }

  lemma TruncateReady<T(!new)>(cfg: Config<T>, s: State<T>, ok: bool)
    requires Proper(cfg) && Reachable(cfg, s) && s.up && Shaped(s) && s.flusher.Stored?
    ensures Enabled(cfg, s, Truncate(ok)) && Do(cfg, s, Truncate(ok)).flusher == Drained(s.flusher.job)
  {
    hide Reachable;
    ReachableShaped(cfg, s);
  }

  lemma TakeReady<T>(cfg: Config<T>, s: State<T>)
    requires Shaped(s) && s.up && s.flusher.Swap?
    ensures Enabled(cfg, s, Take)
  {
  }

  lemma CheckReady<T>(cfg: Config<T>, s: State<T>)
    requires Shaped(s) && s.up && s.flusher.Drained?
    ensures Enabled(cfg, s, Check)
  {
  }

  lemma CheckOutcome<T>(cfg: Config<T>, s: State<T>)
    requires Shaped(s) && s.up && s.flusher.Drained? && Enabled(cfg, s, Check) && !s.flusher.job.kind.Tick?
    ensures var t := Do(cfg, s, Check);
            && SameInbox(s, t) && t.slots == s.slots && t.active == s.active
            && t.flusher == if Values(s.slots[0].items) == [] && Values(s.slots[1].items) == []
                            then Over(s.flusher.job) else Swap(s.flusher.job)
  {
  }

  /** A flush handed to the flusher is behind its pushes. */
  lemma AckBehindPushes<T(!new)>(cfg: Config<T>, s: State<T>)
    requires Proper(cfg) && Reachable(cfg, s) && s.up && Shaped(s) && s.acks != []
    ensures s.acks[0] <= |s.pushed|
  {
    hide Reachable, Inv, Conserved, Proper, Reached;
    ReachableInv(cfg, s);
    InvParts(cfg, s);
    SettledPrefix(s);
  }

  lemma FlushedItems<T>(s: State<T>, t: State<T>, mark: nat)
    requires Grown(s, t) && mark <= |s.pushed| && |t.accepted| <= |t.pushed|
    requires t.pushed[..|t.accepted|] == Values(AcceptedEntries(t.accepted))
    ensures mark <= |t.accepted| ==> s.pushed[..mark] <= Values(AcceptedEntries(t.accepted))
  {
  }

  lemma TickOutcome<T>(cfg: Config<T>, s: State<T>)
    requires Shaped(s) && s.up && s.flusher.Idle?
    ensures Enabled(cfg, s, WakeTick) && Do(cfg, s, WakeTick) == s.(flusher := Swap(Job(Tick, s.fails)))
  {
  }

  lemma TickChecked<T>(cfg: Config<T>, s: State<T>)
    requires Shaped(s) && s.up && s.flusher.Drained? && s.flusher.job.kind.Tick?
    ensures Enabled(cfg, s, Check) && Do(cfg, s, Check) == s.(flusher := Idle)
  {
  }

  lemma ClosedOutcome<T>(cfg: Config<T>, s: State<T>)
    requires Shaped(s) && s.up && s.flusher.Idle? && s.closed && s.chan == [] && s.acks == []
    requires s.writer == Writer([], [], None)
    ensures Enabled(cfg, s, WakeClosed) && Do(cfg, s, WakeClosed) == s.(flusher := Swap(Job(Final, s.fails)))
  {
  }

  lemma FinishOutcome<T>(cfg: Config<T>, s: State<T>)
    requires Shaped(s) && s.up && s.flusher.Over?
    ensures Enabled(cfg, s, Finish)
    ensures Do(cfg, s, Finish) == s.(flusher := if s.flusher.job.kind.Final? then Exited else Idle)
  {
  }

  lemma SendEffect<T>(cfg: Config<T>, s: State<T>, x: T)
    requires Shaped(s) && s.up && !s.closed
    ensures Enabled(cfg, s, Send(x))
    ensures Do(cfg, s, Send(x)) == s.(chan := s.chan + [Cmd.Push(x)], pushed := s.pushed + [x])
  {
  }

  lemma WakeOutcome<T>(cfg: Config<T>, s: State<T>)
    requires Shaped(s) && s.up && s.flusher.Idle? && s.acks != []
    ensures Enabled(cfg, s, WakeFlush)
    ensures Do(cfg, s, WakeFlush) == s.(flusher := Swap(Job(Request(s.acks[0]), s.fails)), acks := s.acks[1..])
  {
  }

  lemma TakeEffect<T>(cfg: Config<T>, s: State<T>)
    requires Shaped(s) && s.up && s.flusher.Swap?
    ensures var active := if Values(s.slots[1 - s.active].items) == [] then 1 - s.active else s.active;
            var t, items := Do(cfg, s, Take), s.slots[1 - active].items;
            && Enabled(cfg, s, Take) && SameInbox(s, t) && t.active == active
            && t.slots == s.slots[1 - active := s.slots[1 - active].(items := [])]
            && t.flusher == (if Values(items) == [] then Drained(s.flusher.job)
                             else Storing(s.flusher.job, 1 - active, items, 0))
    ensures Values<T>([]) == []
  {
  }

  lemma PutBackEffect<T>(cfg: Config<T>, s: State<T>)
    requires Shaped(s) && s.up && s.flusher.Refused? && Sealing(s)
    ensures var t, f := Do(cfg, s, PutBack), s.flusher;
            && Enabled(cfg, s, PutBack) && SameInbox(s, t) && t.active == s.active && f.sealed == 1 - s.active
            && t.slots == s.slots[f.sealed := s.slots[f.sealed].(items := Held(f))]
  {
  }

  lemma TruncateEffect<T>(cfg: Config<T>, s: State<T>, ok: bool)
    requires Shaped(s) && s.up && s.flusher.Stored? && Sealing(s)
    ensures var t, j := Do(cfg, s, Truncate(ok)), s.flusher.sealed;
            && Enabled(cfg, s, Truncate(ok)) && SameInbox(s, t) && t.active == s.active && j == 1 - s.active
            && t.slots == (if cfg.spooling && ok then s.slots[j := s.slots[j].(log := [])] else s.slots)
    ensures FileOf(cfg, []) == []
  {
  }

  lemma StoreEffect<T>(cfg: Config<T>, s: State<T>, ok: bool)
    requires Shaped(s) && s.up && s.flusher.Storing? && Sealing(s)
    ensures var t := Do(cfg, s, Store(ok));
            Enabled(cfg, s, Store(ok)) && SameInbox(s, t) && t.active == s.active && t.slots == s.slots
  {
  }

  lemma AppendWriter<T>(cfg: Config<T>, s: State<T>, cut: nat)
    requires Shaped(s) && s.up && Enabled(cfg, s, Append(cut))
    ensures cut <= |Spool.Group(cfg.codec, s.writer.items)|
    ensures s.writer.cmds == [] || s.writer.cmds[0].Flush?
    ensures s.writer.sending.None?
    ensures var s', w := Do(cfg, s, Append(cut)), s.writer;
            && s'.up && s'.active == s.active && s'.chan == s.chan && s'.closed == s.closed
            && s'.acks == s.acks && s'.pushed == s.pushed
            && s'.writer == (if w.cmds == [] then Writer([], [], None)
                             else Writer([], w.cmds[1..], Some(w.cmds[0].mark)))
            && s'.slots == (if w.items == [] then s.slots
                            else s.slots[s.active := PushAll(cfg, s.slots[s.active], w.items, cut)])
  {
  }

  lemma FileAppend<T>(cfg: Config<T>, log: seq<Spool.Write<T>>, w: Spool.Write<T>)
    requires Spool.FitsAll(cfg.codec, log) && Spool.Fits(cfg.codec, w)
    ensures FileOf(cfg, log + [w]) == FileOf(cfg, log) + Spool.Bytes(cfg.codec, w)
  {
    assert (log + [w])[..|log|] == log;
  }
}
