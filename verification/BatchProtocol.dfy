/**
 * The two-task protocol of the batcher, one step per lock acquisition, channel operation or
 * `store` call, over any number of crashes and restarts.
 */
module BatchProtocol {
  import opened Prelude
  import Spool
  import Utf8

  /** `chunk` is `batch_max_size` after `.max(1)`; `spooling` is `batch_spool_dir.is_some()`. */
  datatype Config<!T> = Config(codec: Spool.Codec<T>, spooling: bool, chunk: nat)

  ghost predicate Proper<T(!new)>(cfg: Config<T>) { Spool.Good(cfg.codec) && cfg.chunk > 0 }

  /** A buffered item and whether its whole record is in the spool file of its slot. */
  datatype Entry<T> = Entry(value: T, spooled: bool)

  /** One of the two buffers; `log` lists the appends the file has kept since it was emptied. */
  datatype Slot<T> = Slot(items: seq<Entry<T>>, log: seq<Spool.Write<T>>)

  /** A flush carries the number of items pushed before it. */
  datatype Cmd<T> = Push(item: T) | Flush(mark: nat)

  /** Local variables of `run_writer`: the group being built, the received batch, a blocked send. */
  datatype Writer<T> = Writer(items: seq<T>, cmds: seq<Cmd<T>>, sending: Option<nat>)

  datatype Kind = Startup | Tick | Request(mark: nat) | Final

  /** A drain, and how many `store` calls had failed when it began. */
  datatype Job = Job(kind: Kind, since: nat)

  /** Program points of `run_flusher` and `drain_sealed` between two atomic actions. */
  datatype Flusher<T> =
    | Idle
    | Swap(job: Job)
    | Storing(job: Job, sealed: nat, items: seq<Entry<T>>, stored: nat)
    | Refused(job: Job, sealed: nat, items: seq<Entry<T>>, stored: nat)
    | Stored(job: Job, sealed: nat)
    | Drained(job: Job)
    | Over(job: Job)
    | Exited

  /** One item accepted by a `store` call that returned true, and the slot it came from. */
  datatype Acceptance<T> = Acceptance(entry: Entry<T>, slot: nat)

  /** Earlier runs: the spooled items they had accepted, and those of them that a restart replayed all the same. */
  datatype Past<T> = Past(accepted: multiset<T>, replayed: multiset<T>)

  /**
   * The process (`slots` to `flusher`), the history of the current run (`pushed` to `fails`), and
   * the history of all runs: items ever spooled whole, and what became of them in earlier runs.
   */
  datatype State<T> = State(
    up: bool,
    slots: seq<Slot<T>>,
    active: nat,
    chan: seq<Cmd<T>>,
    closed: bool,
    writer: Writer<T>,
    acks: seq<nat>,
    flusher: Flusher<T>,
    pushed: seq<T>,
    accepted: seq<Acceptance<T>>,
    marks: seq<nat>,
    fails: nat,
    ever: multiset<T>,
    past: Past<T>)

  datatype Step<T> =
    | Send(item: T)            // Batcher::push
    | SendFlush                // Batcher::flush
    | Close                    // the last Batcher is dropped
    | Receive(n: nat)          // recv_many
    | Collect                  // BatchCmd::Push in the drained batch
    | Append(cut: nat)         // push_items under the lock
    | Forward                  // flush_tx.send
    | WakeTick | WakeFlush | WakeClosed
    | Take                     // lock: swap and take
    | Store(ok: bool)          // one store call
    | PutBack                  // lock: put the rest back
    | Truncate(ok: bool)       // lock: truncate the spool
    | Check                    // lock: are both slots empty
    | Finish                   // ack, or leave the loop
    | Crash
    | Open                     // Buffers::open at the next start

  // ---------------------------------------------------------------- views

  function Values<T>(es: seq<Entry<T>>): (r: seq<T>)
    ensures |r| == |es|
  {
    seq(|es|, i requires 0 <= i < |es| => es[i].value)
  }

  function Spooled<T>(es: seq<Entry<T>>): seq<T> {
    if es == [] then []
    else Spooled(es[..|es| - 1]) + if es[|es| - 1].spooled then [es[|es| - 1].value] else []
  }

  function Pushes<T>(cmds: seq<Cmd<T>>): seq<T> {
    if cmds == [] then []
    else Pushes(cmds[..|cmds| - 1]) + match cmds[|cmds| - 1] case Push(x) => [x] case Flush(_) => []
  }

  function AcceptedEntries<T>(log: seq<Acceptance<T>>): (r: seq<Entry<T>>)
    ensures |r| == |log|
  {
    seq(|log|, i requires 0 <= i < |log| => log[i].entry)
  }

  /** Entries of `log` taken from slot `i`. */
  function From<T>(log: seq<Acceptance<T>>, i: nat): seq<Entry<T>> {
    if log == [] then []
    else From(log[..|log| - 1], i) + if log[|log| - 1].slot == i then [log[|log| - 1].entry] else []
  }

  /** What the running drain has taken from the sealed slot and not stored yet. */
  function Held<T>(f: Flusher<T>): seq<Entry<T>> {
    if (f.Storing? || f.Refused?) && f.stored <= |f.items| then f.items[f.stored..] else []
  }

  function HeldFrom<T>(f: Flusher<T>, i: nat): seq<Entry<T>> {
    if (f.Storing? || f.Refused?) && f.sealed == i then Held(f) else []
  }

  /** Spooled items accepted from slot `i` since its file was last emptied: the file still holds them. */
  function Since<T>(s: State<T>, i: nat): seq<T> {
    if i < |s.marks| && s.marks[i] <= |s.accepted| then Spooled(From(s.accepted[s.marks[i]..], i)) else []
  }

  /** Items of slot `i` not accepted yet, the running drain included. */
  function Pending<T>(s: State<T>, i: nat): seq<Entry<T>>
    requires i < |s.slots|
  {
    HeldFrom(s.flusher, i) + s.slots[i].items
  }

  /** Everything in or past a slot, in order. */
  function InSlots<T>(s: State<T>): seq<Entry<T>>
    requires |s.slots| == 2 && s.active < 2
  {
    Held(s.flusher) + s.slots[1 - s.active].items + s.slots[s.active].items
  }

  // ---------------------------------------------------------------- steps

  function Fresh<T>(values: seq<T>, spooled: nat): (es: seq<Entry<T>>)
    ensures |es| == |values|
  {
    seq(|values|, i requires 0 <= i < |values| => Entry(values[i], i < spooled))
  }

  /** `push_all`: the group goes to the file, cut anywhere, and always to memory. */
  function PushAll<T>(cfg: Config<T>, slot: Slot<T>, items: seq<T>, cut: nat): Slot<T> {
    if cfg.spooling then
      Slot(slot.items + Fresh(items, Spool.Whole(cfg.codec, items, cut)), slot.log + [Spool.Write(items, cut)])
    else
      Slot(slot.items + Fresh(items, 0), slot.log)
  }

  function Boot<T>(): (s: State<T>) {
    State(false, [Slot([], []), Slot([], [])], 0, [], false, Writer([], [], None), [], Idle,
          [], [], [0, 0], 0, multiset{}, Past(multiset{}, multiset{}))
  }

  predicate WriterBusy<T>(w: Writer<T>) { w.items != [] || w.cmds != [] || w.sending.Some? }

  predicate Enabled<T>(cfg: Config<T>, s: State<T>, step: Step<T>)
    requires |s.slots| == 2 && s.active < 2 && |s.marks| == 2
  {
    if !s.up then
      step.Open? && Opens(cfg, s.slots[0].log) && Opens(cfg, s.slots[1].log)
    else match step
      case Send(_) => !s.closed
      case SendFlush => !s.closed
      case Close => !s.closed
      case Receive(n) => !WriterBusy(s.writer) && 0 < n <= Min(cfg.chunk, |s.chan|)
      case Collect => s.writer.sending.None? && s.writer.cmds != [] && s.writer.cmds[0].Push?
      case Append(cut) =>
        && s.writer.sending.None?
        && (s.writer.cmds == [] || s.writer.cmds[0].Flush?)
        && (s.writer.items != [] || s.writer.cmds != [])
        && cut <= |Spool.Group(cfg.codec, s.writer.items)|
      case Forward => s.writer.sending.Some? && |s.acks| < 1
      case WakeTick => s.flusher.Idle?
      case WakeFlush => s.flusher.Idle? && s.acks != []
      case WakeClosed => s.flusher.Idle? && s.closed && s.chan == [] && !WriterBusy(s.writer) && s.acks == []
      case Take => s.flusher.Swap?
      case Store(_) => s.flusher.Storing? && s.flusher.stored < |s.flusher.items|
      case PutBack => s.flusher.Refused? && s.flusher.sealed < 2 && s.flusher.stored <= |s.flusher.items|
      case Truncate(_) => s.flusher.Stored? && s.flusher.sealed < 2
      case Check => s.flusher.Drained?
      case Finish => s.flusher.Over?
      case Crash => true
      case Open => false
  }

  /** The bytes of a spool file; an append that does not fit cannot have happened. */
  function FileOf<T>(cfg: Config<T>, log: seq<Spool.Write<T>>): seq<Utf8.Byte> {
    if Spool.FitsAll(cfg.codec, log) then Spool.File(cfg.codec, log) else []
  }

  /** `Slot::open` succeeds on the file. */
  predicate Opens<T>(cfg: Config<T>, log: seq<Spool.Write<T>>) {
    Spool.Load(cfg.codec, FileOf(cfg, log)).Some?
  }

  function Do<T>(cfg: Config<T>, s: State<T>, step: Step<T>): (s': State<T>)
    requires |s.slots| == 2 && s.active < 2 && |s.marks| == 2
    requires Enabled(cfg, s, step)
    ensures |s'.slots| == 2 && s'.active < 2 && |s'.marks| == 2
  {
    if step.Receive? then DoReceive(s, step.n)
    else if step.Collect? then DoCollect(s)
    else if step.Append? then DoAppend(cfg, s, step.cut)
    else if step.Forward? then DoForward(s)
    else if step.Take? then DoTake(s)
    else if step.Store? then DoStore(cfg, s, step.ok)
    else if step.PutBack? then DoPutBack(s)
    else if step.Truncate? then DoTruncate(cfg, s, step.ok)
    else if step.Check? then DoCheck(s)
    else if step.Finish? then s.(flusher := if s.flusher.job.kind.Final? then Exited else Idle)
    else if step.Crash? then DoCrash(s)
    else if step.Open? then DoOpen(cfg, s)
    else DoRequest(s, step)
  }

  /** What the clients and the timer of the flusher do. */
  function DoRequest<T>(s: State<T>, step: Step<T>): (s': State<T>)
    requires |s.slots| == 2 && s.active < 2 && |s.marks| == 2
    requires step.WakeFlush? ==> s.acks != []
    ensures |s'.slots| == 2 && s'.active < 2 && |s'.marks| == 2
  {
    match step
    case Send(x) => s.(chan := s.chan + [Push(x)], pushed := s.pushed + [x])
    case SendFlush => s.(chan := s.chan + [Flush(|s.pushed|)])
    case Close => s.(closed := true)
    case WakeTick => s.(flusher := Swap(Job(Tick, s.fails)))
    case WakeFlush => s.(flusher := Swap(Job(Request(s.acks[0]), s.fails)), acks := s.acks[1..])
    case WakeClosed => s.(flusher := Swap(Job(Final, s.fails)))
    case _ => s
  }

  /** `recv_many`. */
  function DoReceive<T>(s: State<T>, n: nat): State<T>
    requires n <= |s.chan|
  {
    s.(writer := s.writer.(cmds := s.chan[..n]), chan := s.chan[n..])
  }

  /** Group consecutive pushes. */
  function DoCollect<T>(s: State<T>): State<T>
    requires s.writer.cmds != [] && s.writer.cmds[0].Push?
  {
    var w := s.writer;
    s.(writer := w.(items := w.items + [w.cmds[0].item], cmds := w.cmds[1..]))
  }

  /** The flush goes to the flusher once every push received before it is in a slot. */
  function DoForward<T>(s: State<T>): State<T>
    requires s.writer.sending.Some?
  {
    s.(acks := s.acks + [s.writer.sending.value], writer := s.writer.(sending := None))
  }

  /** `push_items`: nothing to append when the group is empty; a flush behind it becomes due. */
  function DoAppend<T>(cfg: Config<T>, s: State<T>, cut: nat): (s': State<T>)
    requires |s.slots| == 2 && s.active < 2 && |s.marks| == 2
    ensures |s'.slots| == 2 && s'.active < 2 && |s'.marks| == 2
  {
    var w := s.writer;
    var s1 :=
      if w.items == [] then s
      else s.(slots := s.slots[s.active := PushAll(cfg, s.slots[s.active], w.items, cut)],
              ever := if cfg.spooling
                      then s.ever + multiset(w.items[..Spool.Whole(cfg.codec, w.items, cut)]) else s.ever);
    if w.cmds != [] && w.cmds[0].Flush?
    then s1.(writer := Writer([], w.cmds[1..], Some(w.cmds[0].mark)))
    else s1.(writer := w.(items := []))
  }

  /** Swap unless the sealed slot still holds items, then take the sealed items. */
  function DoTake<T>(s: State<T>): (s': State<T>)
    requires |s.slots| == 2 && s.active < 2 && |s.marks| == 2 && s.flusher.Swap?
    ensures |s'.slots| == 2 && s'.active < 2 && |s'.marks| == 2
  {
    var active := if s.slots[1 - s.active].items == [] then 1 - s.active else s.active;
    var sealed := 1 - active;
    var items := s.slots[sealed].items;
    s.(active := active, slots := s.slots[sealed := s.slots[sealed].(items := [])],
       flusher := if items == [] then Drained(s.flusher.job) else Storing(s.flusher.job, sealed, items, 0))
  }

  function DoStore<T>(cfg: Config<T>, s: State<T>, ok: bool): (s': State<T>)
    requires |s.slots| == 2 && s.active < 2 && |s.marks| == 2
    requires s.flusher.Storing? && s.flusher.stored < |s.flusher.items|
    ensures |s'.slots| == 2 && s'.active < 2 && |s'.marks| == 2
  {
    var f := s.flusher;
    if !ok then
      s.(flusher := Refused(f.job, f.sealed, f.items, f.stored), fails := s.fails + 1)
    else
      var stored := Min(f.stored + cfg.chunk, |f.items|);
      s.(accepted := s.accepted + Accept(f.items[f.stored..stored], f.sealed),
         flusher := if stored == |f.items| then Stored(f.job, f.sealed)
                    else Storing(f.job, f.sealed, f.items, stored))
  }

  /** The unstored rest returns to the sealed slot and the drain gives up. */
  function DoPutBack<T>(s: State<T>): (s': State<T>)
    requires |s.slots| == 2 && s.active < 2 && |s.marks| == 2
    requires s.flusher.Refused? && s.flusher.sealed < 2 && s.flusher.stored <= |s.flusher.items|
    ensures |s'.slots| == 2 && s'.active < 2 && |s'.marks| == 2
  {
    var f := s.flusher;
    s.(slots := s.slots[f.sealed := s.slots[f.sealed].(items := f.items[f.stored..])],
       flusher := if f.job.kind.Tick? then Idle else Over(f.job))
  }

  /** `set_len(0)`, which may fail. */
  function DoTruncate<T>(cfg: Config<T>, s: State<T>, ok: bool): (s': State<T>)
    requires |s.slots| == 2 && s.active < 2 && |s.marks| == 2
    requires s.flusher.Stored? && s.flusher.sealed < 2
    ensures |s'.slots| == 2 && s'.active < 2 && |s'.marks| == 2
  {
    var f := s.flusher;
    if cfg.spooling && ok then
      s.(slots := s.slots[f.sealed := s.slots[f.sealed].(log := [])],
         marks := s.marks[f.sealed := |s.accepted|], flusher := Drained(f.job))
    else s.(flusher := Drained(f.job))
  }

  /** A tick drains once; `drain_all` goes on until both slots are empty. */
  function DoCheck<T>(s: State<T>): (s': State<T>)
    requires |s.slots| == 2 && s.active < 2 && |s.marks| == 2 && s.flusher.Drained?
    ensures |s'.slots| == 2 && s'.active < 2 && |s'.marks| == 2
  {
    var job := s.flusher.job;
    s.(flusher := if job.kind.Tick? then Idle
                  else if s.slots[0].items == [] && s.slots[1].items == [] then Over(job)
                  else Swap(job))
  }

  function Accept<T>(chunk: seq<Entry<T>>, slot: nat): (log: seq<Acceptance<T>>)
    ensures |log| == |chunk|
  {
    seq(|chunk|, i requires 0 <= i < |chunk| => Acceptance(chunk[i], slot))
  }

  /** Memory is gone, the files stay. */
  function DoCrash<T>(s: State<T>): (s': State<T>)
    requires |s.slots| == 2
    ensures |s'.slots| == 2 && s'.active < 2 && |s'.marks| == 2
  {
    State(false, [Slot([], s.slots[0].log), Slot([], s.slots[1].log)], 0, [], false, Writer([], [], None), [],
          Idle, [], [], [0, 0], 0, s.ever,
          Past(s.past.accepted + multiset(Spooled(AcceptedEntries(s.accepted))),
               s.past.replayed + multiset(Since(s, 0)) + multiset(Since(s, 1))))
  }

  /** Both slots start with the items read back from their file, and are drained right away. */
  function DoOpen<T>(cfg: Config<T>, s: State<T>): (s': State<T>)
    requires |s.slots| == 2 && Opens(cfg, s.slots[0].log) && Opens(cfg, s.slots[1].log)
    ensures |s'.slots| == 2 && s'.active < 2 && |s'.marks| == 2
  {
    var r0 := Spool.Load(cfg.codec, FileOf(cfg, s.slots[0].log)).value;
    var r1 := Spool.Load(cfg.codec, FileOf(cfg, s.slots[1].log)).value;
    State(true, [Slot(Fresh(r0, |r0|), s.slots[0].log), Slot(Fresh(r1, |r1|), s.slots[1].log)],
          0, [], false, Writer([], [], None), [], Swap(Job(Startup, 0)),
          r1 + r0, [], [0, 0], 0, s.ever, s.past)
  }

  // ---------------------------------------------------------------- runs

  predicate Shaped<T>(s: State<T>) { |s.slots| == 2 && s.active < 2 && |s.marks| == 2 }

  /** Every step of `steps` is possible in turn from `s`. */
  predicate Possible<T>(cfg: Config<T>, s: State<T>, steps: seq<Step<T>>)
    requires Shaped(s)
    decreases |steps|
  {
    steps == [] || (Enabled(cfg, s, steps[0]) && Possible(cfg, Do(cfg, s, steps[0]), steps[1..]))
  }

  function After<T>(cfg: Config<T>, s: State<T>, steps: seq<Step<T>>): (s': State<T>)
    requires Shaped(s) && Possible(cfg, s, steps)
    ensures Shaped(s')
    decreases |steps|
  {
    if steps == [] then s else After(cfg, Do(cfg, s, steps[0]), steps[1..])
  }
}
