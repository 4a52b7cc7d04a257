/**
 * The persisted time window of the polling sources: which stretches of time the advanced windows
 * cover over polls, failed checkpoint saves, crashes and restarts.
 */
module TimeWindow {
  import opened Prelude

  /** Nanoseconds. */
  type Timestamp = int

  const TIME_MARGIN: Timestamp := 1_000_000_000

  function ComputeTsBefore(limit: Option<Timestamp>, now: Timestamp): (before: Timestamp)
    ensures before <= now - TIME_MARGIN
    ensures limit.Some? ==> before <= limit.value
    ensures before == now - TIME_MARGIN || Some(before) == limit
  {
    if limit.Some? && now - TIME_MARGIN > limit.value then limit.value else now - TIME_MARGIN
  }

  /** `after < t <= before`. */
  datatype Window = Window(after: Timestamp, before: Timestamp)

  predicate In(t: Timestamp, w: Window) { w.after < t <= w.before }

  function Next(w: Window, limit: Option<Timestamp>, now: Timestamp): Window {
    Window(w.before, ComputeTsBefore(limit, now))
  }

  predicate AtLimit(w: Window, limit: Option<Timestamp>) {
    limit.Some? && w.after >= limit.value
  }

  /** `TimeWindowFilter`, and the window part of the opendal `Filter`. */
  class TimeWindowFilter {
    var tsAfter: Timestamp
    var tsBefore: Timestamp
    const limit: Option<Timestamp>

    ghost function Current(): Window
      reads this
    {
      Window(tsAfter, tsBefore)
    }

    constructor (tsAfter: Timestamp, limit: Option<Timestamp>, now: Timestamp)
      ensures Current() == Window(tsAfter, ComputeTsBefore(limit, now)) && this.limit == limit
    {
      this.tsAfter, this.tsBefore, this.limit := tsAfter, ComputeTsBefore(limit, now), limit;
    }

    /** The next window begins where this one ended. */
    method Advance(now: Timestamp)
      modifies this
      ensures Current() == Next(old(Current()), limit, now)
    {
      tsAfter := tsBefore;
      tsBefore := ComputeTsBefore(limit, now);
    }

    method SetTsAfter(ts: Timestamp)
      modifies `tsAfter
      ensures Current() == old(Current()).(after := ts)
    {
      tsAfter := ts;
    }

    method IsAtLimit() returns (stop: bool)
      ensures stop <==> AtLimit(Current(), limit)
      ensures stop <==> limit.Some? && limit.value <= tsAfter
    {
      stop := match limit case Some(l) => tsAfter >= l case None => false;
    }
  }

  // ---------------------------------------------------------------- a source over its whole life

  /** `start` is the configured `ts_after`. */
  datatype Config = Config(start: Timestamp, limit: Option<Timestamp>)

  /**
   * A source and its checkpoint file. `advanced` lists the windows that were advanced past, in all runs;
   * `first` is the number of them when the current process started.
   */
  datatype Source = Source(
    up: bool,
    window: Window,
    clock: Timestamp,
    checkpoint: Option<Timestamp>,
    advanced: seq<Window>,
    first: nat)

  /** Every step carries the clock it happens at. */
  datatype Step =
    | Boot(now: Timestamp, readable: bool)   // new process; the checkpoint may be absent or unreadable
    | Advance(now: Timestamp, saved: bool)   // a poll worth advancing, and whether the save worked
    | Hold(now: Timestamp)                   // a poll that failed softly
    | Stop(now: Timestamp)                   // abort, cancellation or crash

  predicate Enabled(cfg: Config, s: Source, step: Step) {
    && s.clock <= step.now
    && match step
       case Boot(_, _) => !s.up
       case Advance(_, _) => s.up && !AtLimit(s.window, cfg.limit)
       case Hold(_) => s.up && !AtLimit(s.window, cfg.limit)
       case Stop(_) => s.up
  }

  function Do(cfg: Config, s: Source, step: Step): Source
    requires Enabled(cfg, s, step)
  {
    match step
    case Boot(now, readable) =>
      var after := if readable && s.checkpoint.Some? then s.checkpoint.value else cfg.start;
      s.(up := true, window := Window(after, ComputeTsBefore(cfg.limit, now)), clock := now, first := |s.advanced|)
    case Advance(now, saved) =>
      s.(window := Next(s.window, cfg.limit, now), clock := now,
         checkpoint := if saved then Some(s.window.before) else s.checkpoint,
         advanced := s.advanced + [s.window])
    case Hold(now) => s.(clock := now)
    case Stop(now) => s.(up := false, clock := now)
  }

  /** A process starts at the configured time, or where the last saved checkpoint left off. */
  method StartSource(cfg: Config, now: Timestamp, readable: bool, checkpoint: Option<Timestamp>, ghost s: Source)
    returns (filter: TimeWindowFilter)
    requires Enabled(cfg, s, Boot(now, readable)) && checkpoint == s.checkpoint
    ensures fresh(filter) && filter.limit == cfg.limit
    ensures filter.Current() == Do(cfg, s, Boot(now, readable)).window
    ensures filter.tsAfter == if readable && checkpoint.Some? then checkpoint.value else cfg.start
    ensures filter.tsBefore == ComputeTsBefore(cfg.limit, now)
  {
    filter := new TimeWindowFilter(cfg.start, cfg.limit, now);
    if readable && checkpoint.Some? {
      filter.SetTsAfter(checkpoint.value);
    }
  }

  predicate Possible(cfg: Config, s: Source, steps: seq<Step>)
    decreases |steps|
  {
    steps == [] || (Enabled(cfg, s, steps[0]) && Possible(cfg, Do(cfg, s, steps[0]), steps[1..]))
  }

  function After(cfg: Config, s: Source, steps: seq<Step>): Source
    requires Possible(cfg, s, steps)
    decreases |steps|
  {
    if steps == [] then s else After(cfg, Do(cfg, s, steps[0]), steps[1..])
  }

  lemma {:induction false} PossibleSnoc(cfg: Config, s: Source, steps: seq<Step>, last: Step)
    requires Possible(cfg, s, steps) && Enabled(cfg, After(cfg, s, steps), last)
    ensures Possible(cfg, s, steps + [last])
    ensures After(cfg, s, steps + [last]) == Do(cfg, After(cfg, s, steps), last)
    decreases |steps|
  {
    hide Enabled, Do;
    if steps == [] {
      assert [last][1..] == [];
      assert [] + [last] == [last];
    } else {
      PossibleSnoc(cfg, Do(cfg, s, steps[0]), steps[1..], last);
      assert (steps + [last])[1..] == steps[1..] + [last];
    }
  }

  function Unborn(now: Timestamp): Source { Source(false, Window(0, 0), now, None, [], 0) }

  /** A source some life of the collector can be in, the first process starting no earlier than `now`. */
  ghost predicate Reachable(cfg: Config, now: Timestamp, s: Source) {
    exists steps :: Possible(cfg, Unborn(now), steps) && s == After(cfg, Unborn(now), steps)
  }

  // ---------------------------------------------------------------- coverage

  /** How far the advanced windows reach. */
  function HighWater(start: Timestamp, ws: seq<Window>): Timestamp {
    if ws == [] then start
    else Max(HighWater(start, ws[..|ws| - 1]), ws[|ws| - 1].before)
  }

  /** No window begins past what the earlier ones reached. */
  predicate Gapless(start: Timestamp, ws: seq<Window>) {
    forall k :: 0 <= k < |ws| ==>
      start <= ws[k].after <= HighWater(start, ws[..k]) && ws[k].after <= ws[k].before
  }

  predicate Covered(ws: seq<Window>, t: Timestamp) {
    exists k :: 0 <= k < |ws| && In(t, ws[k])
  }

  lemma {:induction false} GaplessCovers(start: Timestamp, ws: seq<Window>, t: Timestamp)
    requires Gapless(start, ws)
    ensures start < t <= HighWater(start, ws) <==> Covered(ws, t)
    decreases |ws|
  {
    if ws != [] {
      var init, last := ws[..|ws| - 1], ws[|ws| - 1];
      GaplessInit(start, ws);
      CoveredInit(ws, t);
      hide Gapless, Covered;
      GaplessCovers(start, init, t);
    }
  }

  lemma GaplessInit(start: Timestamp, ws: seq<Window>)
    requires Gapless(start, ws) && ws != []
    ensures var init, last := ws[..|ws| - 1], ws[|ws| - 1];
            Gapless(start, init) && start <= last.after <= HighWater(start, init) && last.after <= last.before
  {
    var init := ws[..|ws| - 1];
    assert forall k :: 0 <= k < |init| ==> init[k] == ws[k] && init[..k] == ws[..k];
  }

  lemma CoveredInit(ws: seq<Window>, t: Timestamp)
    requires ws != []
    ensures Covered(ws, t) <==> Covered(ws[..|ws| - 1], t) || In(t, ws[|ws| - 1])
  {
    var init := ws[..|ws| - 1];
    if Covered(init, t) {
      var k :| 0 <= k < |init| && In(t, init[k]);
      assert In(t, ws[k]);
    }
    if Covered(ws, t) {
      var k :| 0 <= k < |ws| && In(t, ws[k]);
      assert k < |init| ==> In(t, init[k]);
    }
  }

  predicate Consecutive(ws: seq<Window>) {
    forall k :: 0 < k < |ws| ==> ws[k].after == ws[k - 1].before
  }

  /** What holds of the current window, the checkpoint and the limit, `high` being how far coverage reaches. */
  predicate Bounds(cfg: Config, s: Source, high: Timestamp) {
    && cfg.start <= high <= s.clock - TIME_MARGIN
    && (cfg.limit.Some? && s.advanced != [] ==> high <= cfg.limit.value)
    && (s.advanced == [] ==> high == cfg.start)
    && (s.checkpoint.Some? ==> cfg.start <= s.checkpoint.value <= high && s.advanced != [])
    && (s.up ==>
          && cfg.start <= s.window.after <= high
          && s.window.before <= s.clock - TIME_MARGIN
          && (cfg.limit.Some? ==> s.window.before <= cfg.limit.value)
          && (s.window.after <= s.window.before || AtLimit(s.window, cfg.limit))
          && (AtLimit(s.window, cfg.limit) ==> s.window.before == cfg.limit.value)
          && (AtLimit(s.window, cfg.limit) && cfg.start <= cfg.limit.value ==> s.window.after == cfg.limit.value))
  }

  predicate Abutting(s: Source) {
    s.first <= |s.advanced| && (s.up ==> Consecutive(s.advanced[s.first..] + [s.window]))
  }

  predicate Inv(cfg: Config, s: Source) {
    Gapless(cfg.start, s.advanced) && Bounds(cfg, s, HighWater(cfg.start, s.advanced)) && Abutting(s)
  }

  lemma GaplessExtends(start: Timestamp, ws: seq<Window>, w: Window)
    requires Gapless(start, ws) && start <= w.after <= HighWater(start, ws) && w.after <= w.before
    ensures Gapless(start, ws + [w]) && HighWater(start, ws + [w]) == Max(HighWater(start, ws), w.before)
  {
    var all := ws + [w];
    assert all[..|ws|] == ws;
    assert forall k :: 0 <= k < |ws| ==> all[k] == ws[k] && all[..k] == ws[..k];
  }

  lemma AdvanceBounds(cfg: Config, s: Source, now: Timestamp, saved: bool, high: Timestamp)
    requires Bounds(cfg, s, high) && Enabled(cfg, s, Advance(now, saved))
    ensures Bounds(cfg, Do(cfg, s, Advance(now, saved)), Max(high, s.window.before))
  {
  }

  lemma AdvanceAbuts(cfg: Config, s: Source, now: Timestamp, saved: bool)
    requires Abutting(s) && Enabled(cfg, s, Advance(now, saved))
    ensures Abutting(Do(cfg, s, Advance(now, saved)))
  {
    var s' := Do(cfg, s, Advance(now, saved));
    var ws, ws' := s.advanced[s.first..] + [s.window], s'.advanced[s.first..] + [s'.window];
    assert ws' == ws + [s'.window];
    assert forall k :: 0 <= k < |ws| ==> ws'[k] == ws[k];
  }

  lemma AdvanceKeeps(cfg: Config, s: Source, now: Timestamp, saved: bool)
    requires Inv(cfg, s) && Enabled(cfg, s, Advance(now, saved))
    ensures Inv(cfg, Do(cfg, s, Advance(now, saved)))
  {
    hide Gapless, Abutting, HighWater;
    AdvanceBounds(cfg, s, now, saved, HighWater(cfg.start, s.advanced));
    AdvanceAbuts(cfg, s, now, saved);
    GaplessExtends(cfg.start, s.advanced, s.window);
  }

  lemma StepKeeps(cfg: Config, s: Source, step: Step)
    requires Inv(cfg, s) && Enabled(cfg, s, step)
    ensures Inv(cfg, Do(cfg, s, step))
  {
    if step.Advance? {
      AdvanceKeeps(cfg, s, step.now, step.saved);
    } else if step.Boot? {
      assert s.advanced[|s.advanced|..] == [];
    }
  }

  lemma {:induction false} RunKeeps(cfg: Config, s: Source, steps: seq<Step>)
    requires Inv(cfg, s) && Possible(cfg, s, steps)
    ensures Inv(cfg, After(cfg, s, steps))
    decreases |steps|
  {
    if steps != [] {
      StepKeeps(cfg, s, steps[0]);
      RunKeeps(cfg, Do(cfg, s, steps[0]), steps[1..]);
    }
  }

  lemma ReachableInv(cfg: Config, now: Timestamp, s: Source)
    requires Reachable(cfg, now, s) && cfg.start <= now - TIME_MARGIN
    ensures Inv(cfg, s)
  {
    var steps :| Possible(cfg, Unborn(now), steps) && s == After(cfg, Unborn(now), steps);
    RunKeeps(cfg, Unborn(now), steps);
  }

  /**
   * Gap-free coverage. If the configured start is not in the future, then over any life of the source
   * (polls that advance or hold, saves that fail, unreadable checkpoints, crashes, restarts) the advanced
   * windows cover exactly the time from the start point to the furthest end reached, and the current
   * `ts_after` lies within it.
   */
  lemma GapFreeCoverage(cfg: Config, now: Timestamp, s: Source, t: Timestamp)
    requires Reachable(cfg, now, s) && cfg.start <= now - TIME_MARGIN
    ensures Covered(s.advanced, t) <==> cfg.start < t <= HighWater(cfg.start, s.advanced)
    ensures s.up ==> cfg.start <= s.window.after <= HighWater(cfg.start, s.advanced)
    ensures s.up && cfg.start < t <= s.window.after ==> Covered(s.advanced, t)
  {
    ReachableInv(cfg, now, s);
    GaplessCovers(cfg.start, s.advanced, t);
  }

  lemma {:induction false} RunAbuts(cfg: Config, s: Source, steps: seq<Step>)
    requires Abutting(s) && Possible(cfg, s, steps)
    ensures Abutting(After(cfg, s, steps))
    decreases |steps|
  {
    if steps != [] {
      if steps[0].Advance? { AdvanceAbuts(cfg, s, steps[0].now, steps[0].saved); }
      else if steps[0].Boot? { assert s.advanced[|s.advanced|..] == []; }
      RunAbuts(cfg, Do(cfg, s, steps[0]), steps[1..]);
    }
  }

  /** Within one process each window begins exactly where the previous one ended, the pending one included. */
  lemma WindowsAbut(cfg: Config, now: Timestamp, s: Source, k: nat)
    requires Reachable(cfg, now, s) && s.up && s.first < k <= |s.advanced|
    ensures s.advanced[k - 1].before == if k < |s.advanced| then s.advanced[k].after else s.window.after
  {
    var steps :| Possible(cfg, Unborn(now), steps) && s == After(cfg, Unborn(now), steps);
    RunAbuts(cfg, Unborn(now), steps);
    var ws := s.advanced[s.first..] + [s.window];
    assert ws[k - s.first - 1] == s.advanced[k - 1];
    assert ws[k - s.first] == if k < |s.advanced| then s.advanced[k] else s.window;
  }

  // ---------------------------------------------------------------- restarts

  /** Nothing is saved by these steps. */
  predicate SavesNothing(steps: seq<Step>) {
    forall k :: 0 <= k < |steps| && steps[k].Advance? ==> !steps[k].saved
  }

  predicate AdvancesNothing(steps: seq<Step>) {
    forall k :: 0 <= k < |steps| ==> !steps[k].Advance?
  }

  lemma {:induction false} CheckpointStays(cfg: Config, s: Source, steps: seq<Step>)
    requires Possible(cfg, s, steps) && SavesNothing(steps)
    ensures After(cfg, s, steps).checkpoint == s.checkpoint
    ensures AdvancesNothing(steps) ==> After(cfg, s, steps).advanced == s.advanced
    decreases |steps|
  {
    if steps != [] {
      assert forall k :: 0 <= k < |steps[1..]| ==> steps[1..][k] == steps[k + 1];
      CheckpointStays(cfg, Do(cfg, s, steps[0]), steps[1..]);
    }
  }

  /** No window ends later than one that ends at `t`. */
  predicate EndBy(ws: seq<Window>, t: Timestamp) { forall k :: 0 <= k < |ws| ==> ws[k].before <= t }

  /** Windows end later and later. */
  predicate InTime(cfg: Config, s: Source) {
    && EndBy(s.advanced, ComputeTsBefore(cfg.limit, s.clock))
    && (s.up ==> EndBy(s.advanced, s.window.before) && s.window.before <= ComputeTsBefore(cfg.limit, s.clock))
  }

  lemma {:induction false} RunInTime(cfg: Config, s: Source, steps: seq<Step>)
    requires InTime(cfg, s) && Possible(cfg, s, steps)
    ensures InTime(cfg, After(cfg, s, steps))
    decreases |steps|
  {
    if steps != [] {
      RunInTime(cfg, Do(cfg, s, steps[0]), steps[1..]);
    }
  }

  lemma {:induction false} HighWaterBy(start: Timestamp, ws: seq<Window>, t: Timestamp)
    requires start <= t && EndBy(ws, t)
    ensures HighWater(start, ws) <= t
  {
    if ws != [] { HighWaterBy(start, ws[..|ws| - 1], t); }
  }

  /** A window that is advanced past always ends where coverage ends from then on. */
  lemma AdvanceReachesHighWater(cfg: Config, now: Timestamp, s: Source, t: Timestamp, saved: bool)
    requires Reachable(cfg, now, s) && cfg.start <= now - TIME_MARGIN && Enabled(cfg, s, Advance(t, saved))
    ensures HighWater(cfg.start, Do(cfg, s, Advance(t, saved)).advanced) == s.window.before
  {
    ReachableInv(cfg, now, s);
    var steps :| Possible(cfg, Unborn(now), steps) && s == After(cfg, Unborn(now), steps);
    RunInTime(cfg, Unborn(now), steps);
    HighWaterBy(cfg.start, s.advanced, s.window.before);
    assert (s.advanced + [s.window])[..|s.advanced|] == s.advanced;
  }

  /**
   * A process that can read its checkpoint begins exactly where the last saved advance ended, whatever was
   * polled, held, stopped or restarted in between without saving; one that cannot begins at the start again.
   */
  lemma RestartResumes(cfg: Config, s: Source, t: Timestamp, rest: seq<Step>, n: Timestamp, readable: bool)
    requires Enabled(cfg, s, Advance(t, true))
    requires Possible(cfg, Do(cfg, s, Advance(t, true)), rest) && SavesNothing(rest)
    requires Enabled(cfg, After(cfg, Do(cfg, s, Advance(t, true)), rest), Boot(n, readable))
    ensures var boot := Do(cfg, After(cfg, Do(cfg, s, Advance(t, true)), rest), Boot(n, readable));
            boot.up && boot.window.after == if readable then s.window.before else cfg.start
  {
    CheckpointStays(cfg, Do(cfg, s, Advance(t, true)), rest);
  }

  /** The same from the first process on: what was never saved is polled from the configured start again. */
  lemma UnsavedStartsOver(cfg: Config, now: Timestamp, rest: seq<Step>, n: Timestamp, readable: bool)
    requires Possible(cfg, Unborn(now), rest) && SavesNothing(rest)
    requires Enabled(cfg, After(cfg, Unborn(now), rest), Boot(n, readable))
    ensures Do(cfg, After(cfg, Unborn(now), rest), Boot(n, readable)).window.after == cfg.start
  {
    CheckpointStays(cfg, Unborn(now), rest);
  }

  /** What one step of a process adds lies at or behind the beginning of its window. */
  lemma ProcessStep(cfg: Config, s: Source, step: Step)
    requires Inv(cfg, s) && s.up && Enabled(cfg, s, step) && !step.Boot? && !step.Stop?
    ensures var s' := Do(cfg, s, step);
            && s'.up && s.window.after <= s'.window.after
            && (s'.advanced == s.advanced || s'.advanced == s.advanced + [s.window])
  {
    hide Gapless, Abutting, HighWater;
  }

  predicate Behind(ws: seq<Window>, from: nat, t: Timestamp) {
    forall k :: from <= k < |ws| ==> t <= ws[k].after
  }

  lemma {:induction false} ProcessWindows(cfg: Config, s: Source, steps: seq<Step>, from: nat, t: Timestamp)
    requires Inv(cfg, s) && s.up && Possible(cfg, s, steps)
    requires Behind(s.advanced, from, t) && t <= s.window.after
    requires forall k :: 0 <= k < |steps| ==> !steps[k].Boot? && !steps[k].Stop?
    ensures Behind(After(cfg, s, steps).advanced, from, t) && t <= After(cfg, s, steps).window.after
    decreases |steps|
  {
    hide Inv, Do, Enabled;
    if steps != [] {
      StepKeeps(cfg, s, steps[0]);
      ProcessStep(cfg, s, steps[0]);
      ProcessWindows(cfg, Do(cfg, s, steps[0]), steps[1..], from, t);
    }
  }

  lemma NothingTwiceFrom(cfg: Config, boot: Source, steps: seq<Step>, x: Timestamp)
    requires Inv(cfg, boot) && boot.up && boot.window.after == HighWater(cfg.start, boot.advanced)
    requires Possible(cfg, boot, steps) && forall k :: 0 <= k < |steps| ==> !steps[k].Boot? && !steps[k].Stop?
    requires Covered(boot.advanced, x)
    ensures var e := After(cfg, boot, steps);
            && !In(x, e.window) && forall k :: |boot.advanced| <= k < |e.advanced| ==> !In(x, e.advanced[k])
  {
    GaplessCovers(cfg.start, boot.advanced, x);
    ProcessWindows(cfg, boot, steps, |boot.advanced|, boot.window.after);
  }

  /**
   * Nothing is covered twice across a restart that finds the checkpoint of the last advance: no instant
   * covered by then lies in a window of the new process, advanced or pending, however long it runs.
   */
  lemma NothingTwice(cfg: Config, now: Timestamp, s: Source, t: Timestamp, rest: seq<Step>, n: Timestamp,
                     steps: seq<Step>, x: Timestamp)
    requires Reachable(cfg, now, s) && cfg.start <= now - TIME_MARGIN && Enabled(cfg, s, Advance(t, true))
    requires Possible(cfg, Do(cfg, s, Advance(t, true)), rest) && AdvancesNothing(rest)
    requires Enabled(cfg, After(cfg, Do(cfg, s, Advance(t, true)), rest), Boot(n, true))
    requires Possible(cfg, Do(cfg, After(cfg, Do(cfg, s, Advance(t, true)), rest), Boot(n, true)), steps)
    requires forall k :: 0 <= k < |steps| ==> !steps[k].Boot? && !steps[k].Stop?
    requires Covered(s.advanced + [s.window], x)
    ensures var boot := Do(cfg, After(cfg, Do(cfg, s, Advance(t, true)), rest), Boot(n, true));
            var e := After(cfg, boot, steps);
            && boot.advanced == s.advanced + [s.window] && !In(x, e.window)
            && forall k :: |boot.advanced| <= k < |e.advanced| ==> !In(x, e.advanced[k])
  {
    var s1 := Do(cfg, s, Advance(t, true));
    ReachableInv(cfg, now, s);
    StepKeeps(cfg, s, Advance(t, true));
    AdvanceReachesHighWater(cfg, now, s, t, true);
    hide Inv, Reachable, Possible, After, Gapless, HighWater, In, Covered;
    RunKeeps(cfg, s1, rest);
    CheckpointStays(cfg, s1, rest);
    StepKeeps(cfg, After(cfg, s1, rest), Boot(n, true));
    NothingTwiceFrom(cfg, Do(cfg, After(cfg, s1, rest), Boot(n, true)), steps, x);
  }

  /** No window passes the limit; a source that stops at its limit has covered the time exactly up to it. */
  lemma StopsExactlyAtLimit(cfg: Config, now: Timestamp, s: Source, t: Timestamp)
    requires Reachable(cfg, now, s) && cfg.start <= now - TIME_MARGIN && s.up && cfg.limit.Some?
    ensures s.window.before <= cfg.limit.value
    ensures cfg.start <= cfg.limit.value && AtLimit(s.window, cfg.limit) ==>
              s.window.after == cfg.limit.value && (Covered(s.advanced, t) <==> cfg.start < t <= cfg.limit.value)
  {
    ReachableInv(cfg, now, s);
    GaplessCovers(cfg.start, s.advanced, t);
  }

  /** A source configured to start one hour ahead covers time from before its start point. */
  lemma FutureStartCounterexample()
    ensures var cfg := Config(3600 * TIME_MARGIN, None);
            var steps := [Boot(0, true), Advance(TIME_MARGIN, true), Advance(2 * TIME_MARGIN, true)];
            && Possible(cfg, Unborn(0), steps)
            && Covered(After(cfg, Unborn(0), steps).advanced, 0) && 0 < cfg.start
  {
    var cfg := Config(3600 * TIME_MARGIN, None);
    var a, b, c := Boot(0, true), Advance(TIME_MARGIN, true), Advance(2 * TIME_MARGIN, true);
    var s1 := Do(cfg, Unborn(0), a);
    var s2 := Do(cfg, s1, b);
    var s3 := Do(cfg, s2, c);
    assert Possible(cfg, s3, []) && After(cfg, s3, []) == s3;
    assert [c][1..] == [] && Possible(cfg, s2, [c]) && After(cfg, s2, [c]) == s3;
    assert [b, c][1..] == [c] && Possible(cfg, s1, [b, c]) && After(cfg, s1, [b, c]) == s3;
    assert [a, b, c][1..] == [b, c];
    assert In(0, s3.advanced[1]);
  }

  /** A source that starts at or past its limit never advances. */
  lemma {:induction false} NothingPastLimit(cfg: Config, s: Source, steps: seq<Step>)
    requires AtLimit(Window(cfg.start, cfg.start), cfg.limit) && Possible(cfg, s, steps)
    requires s.advanced == [] && s.checkpoint.None? && (s.up ==> s.window.after == cfg.start)
    ensures After(cfg, s, steps).advanced == []
    decreases |steps|
  {
    if steps != [] {
      NothingPastLimit(cfg, Do(cfg, s, steps[0]), steps[1..]);
    }
  }

  ghost predicate AlwaysCoversExactly(cfg: Config, now: Timestamp) {
    forall s, t :: Reachable(cfg, now, s) ==>
      (Covered(s.advanced, t) <==> cfg.start < t <= HighWater(cfg.start, s.advanced))
  }

  /** Any other start point lets a life of two polls cover a time before it. */
  lemma FutureStartCoversBefore(cfg: Config, now: Timestamp)
    requires cfg.start > now - TIME_MARGIN && !AtLimit(Window(cfg.start, cfg.start), cfg.limit)
    ensures !AlwaysCoversExactly(cfg, now)
  {
    var a, b, c := Boot(now, true), Advance(now + 1, true), Advance(now + 1, true);
    var s1 := Do(cfg, Unborn(now), a);
    var s2 := Do(cfg, s1, b);
    var s3 := Do(cfg, s2, c);
    assert Possible(cfg, s3, []) && After(cfg, s3, []) == s3;
    assert [c][1..] == [] && Possible(cfg, s2, [c]) && After(cfg, s2, [c]) == s3;
    assert [b, c][1..] == [c] && Possible(cfg, s1, [b, c]) && After(cfg, s1, [b, c]) == s3;
    assert [a, b, c][1..] == [b, c];
    assert Possible(cfg, Unborn(now), [a, b, c]) && After(cfg, Unborn(now), [a, b, c]) == s3;
    var t := now + 1 - TIME_MARGIN;
    assert In(t, s3.advanced[1]);
    assert Reachable(cfg, now, s3);
    assert Covered(s3.advanced, t);
  }

  /** When coverage is guaranteed: exactly when the source starts in the past, or at or past its limit. */
  lemma CoverageExactlyWhen(cfg: Config, now: Timestamp)
    ensures AlwaysCoversExactly(cfg, now) <==>
              cfg.start <= now - TIME_MARGIN || AtLimit(Window(cfg.start, cfg.start), cfg.limit)
  {
    if cfg.start <= now - TIME_MARGIN {
      forall s, t | Reachable(cfg, now, s)
        ensures Covered(s.advanced, t) <==> cfg.start < t <= HighWater(cfg.start, s.advanced)
      {
        GapFreeCoverage(cfg, now, s, t);
      }
    } else if AtLimit(Window(cfg.start, cfg.start), cfg.limit) {
      forall s | Reachable(cfg, now, s)
        ensures s.advanced == []
      {
        var steps :| Possible(cfg, Unborn(now), steps) && s == After(cfg, Unborn(now), steps);
        NothingPastLimit(cfg, Unborn(now), steps);
      }
    } else {
      FutureStartCoversBefore(cfg, now);
    }
  }

  // ---------------------------------------------------------------- files (opendal source)

  /** What the filter looks at; `lastModified` is absent when the storage does not report it. */
  datatype Resource = Resource(isFile: bool, lastModified: Option<Timestamp>, length: nat, path: string)

  /** `Filter::accept`; `matches` is the include/exclude glob test. */
  predicate Accept(w: Window, matches: string -> bool, r: Resource) {
    && r.isFile
    && r.lastModified.Some?
    && In(r.lastModified.value, w)
    && r.length > 0
    && matches(r.path)
  }

  /** Windows a process has scanned or is scanning. */
  function Scanned(s: Source): (ws: seq<Window>)
    ensures ws != []
  {
    (if s.first <= |s.advanced| then s.advanced[s.first..] else []) + [s.window]
  }

  lemma {:induction false} ConsecutiveOrdered(ws: seq<Window>, i: nat, j: nat)
    requires Consecutive(ws) && i < j < |ws|
    requires forall k :: 0 <= k < |ws| - 1 ==> ws[k].after <= ws[k].before
    ensures ws[i].before <= ws[j].after
    decreases j
  {
    if i < j - 1 {
      ConsecutiveOrdered(ws, i, j - 1);
    }
  }

  lemma {:induction false} ConsecutiveReach(ws: seq<Window>, t: Timestamp) returns (k: nat)
    requires Consecutive(ws) && ws != [] && ws[0].after < t <= ws[|ws| - 1].before
    ensures k < |ws| && In(t, ws[k])
    decreases |ws|
  {
    if ws[|ws| - 1].after < t {
      k := |ws| - 1;
    } else {
      k := ConsecutiveReach(ws[..|ws| - 1], t);
    }
  }

  /** The windows of a process are in order, and all but the current one are not reversed. */
  lemma ScannedOrdered(cfg: Config, now: Timestamp, s: Source)
    requires Reachable(cfg, now, s) && cfg.start <= now - TIME_MARGIN && s.up
    ensures var ws := Scanned(s);
            && Consecutive(ws) && ws[|ws| - 1] == s.window
            && (forall i :: 0 <= i < |ws| - 1 ==> ws[i].after <= ws[i].before)
            && (forall i, j :: 0 <= i < j < |ws| ==> ws[i].before <= ws[j].after)
            && (|ws| > 1 ==> s.window.after <= s.window.before)
  {
    ReachableInv(cfg, now, s);
    var ws := Scanned(s);
    assert forall k :: 0 <= k < |ws| - 1 ==> ws[k] == s.advanced[s.first + k];
    forall i, j | 0 <= i < j < |ws|
      ensures ws[i].before <= ws[j].after
    {
      ConsecutiveOrdered(ws, i, j);
    }
  }

  /** An instant lies in exactly one window of the process if it is in the range scanned, in none otherwise. */
  lemma InExactlyOne(cfg: Config, now: Timestamp, s: Source, t: Timestamp)
    requires Reachable(cfg, now, s) && cfg.start <= now - TIME_MARGIN && s.up
    ensures var ws := Scanned(s);
            && (forall i, j :: 0 <= i < |ws| && 0 <= j < |ws| && i != j ==> !In(t, ws[i]) || !In(t, ws[j]))
            && ((exists i :: 0 <= i < |ws| && In(t, ws[i])) <==> ws[0].after < t <= s.window.before)
  {
    ScannedOrdered(cfg, now, s);
    hide Scanned, Reachable, Consecutive;
    var ws := Scanned(s);
    if ws[0].after < t <= s.window.before {
      var k := ConsecutiveReach(ws, t);
    }
    assert forall i :: 0 <= i < |ws| - 1 ==> ws[i].before <= ws[|ws| - 1].after;
    assert forall i :: 0 < i < |ws| ==> ws[0].before <= ws[i].after;
  }

  /**
   * File windows partition time: a file whose modification time lies between the start of the process's
   * first window and the end of its current one, with content and an accepted path, is accepted by exactly
   * one of its windows; any other resource by none. This holds at the limit too, which no window passes.
   */
  lemma ExactlyOneWindow(cfg: Config, now: Timestamp, s: Source, matches: string -> bool, r: Resource)
    requires Reachable(cfg, now, s) && cfg.start <= now - TIME_MARGIN && s.up
    ensures var ws := Scanned(s);
            && (forall i, j :: 0 <= i < |ws| && 0 <= j < |ws| && i != j ==>
                  !Accept(ws[i], matches, r) || !Accept(ws[j], matches, r))
            && ((exists i :: 0 <= i < |ws| && Accept(ws[i], matches, r)) <==>
                  r.isFile && r.lastModified.Some? && r.length > 0 && matches(r.path)
                  && ws[0].after < r.lastModified.value <= s.window.before)
            && (cfg.limit.Some? ==> s.window.before <= cfg.limit.value)
  {
    hide Scanned, Reachable, Gapless, Abutting, HighWater, In;
    ReachableInv(cfg, now, s);
    var ws := Scanned(s);
    if r.lastModified.Some? {
      InExactlyOne(cfg, now, s, r.lastModified.value);
      if r.isFile && r.length > 0 && matches(r.path) {
        assert forall i :: 0 <= i < |ws| ==> Accept(ws[i], matches, r) == In(r.lastModified.value, ws[i]);
      }
    }
  }

  // ---------------------------------------------------------------- the documented reading

  /** The reading with both ends exclusive. */
  predicate StrictlyIn(t: Timestamp, w: Window) { w.after < t < w.before }

  /**
   * Read with both ends exclusive, the windows of a process miss exactly the instants at which one of them
   * ends, and no other: the coverage above holds for windows that include their end.
   */
  lemma EndpointsMissed(cfg: Config, now: Timestamp, s: Source, t: Timestamp)
    requires Reachable(cfg, now, s) && cfg.start <= now - TIME_MARGIN && s.up
    ensures var ws := Scanned(s);
            (exists k :: 0 <= k < |ws| && StrictlyIn(t, ws[k])) <==>
              ws[0].after < t <= s.window.before && forall k :: 0 <= k < |ws| ==> t != ws[k].before
  {
    ScannedOrdered(cfg, now, s);
    hide Scanned, Reachable, Consecutive;
    var ws := Scanned(s);
    var n := |ws| - 1;
    if k :| 0 <= k < |ws| && StrictlyIn(t, ws[k]) {
      assert k > 0 ==> ws[0].after <= ws[0].before <= ws[k].after;
      assert k < n ==> ws[k].before <= ws[n].after;
      forall j | 0 <= j < |ws|
        ensures t != ws[j].before
      {
        assert j < k ==> ws[j].before <= ws[k].after;
        assert k < j ==> ws[k].before <= ws[j].after;
        assert k < j < n ==> ws[j].after <= ws[j].before;
      }
    }
    if ws[0].after < t <= s.window.before && forall k :: 0 <= k < |ws| ==> t != ws[k].before {
      var k := ConsecutiveReach(ws, t);
      assert StrictlyIn(t, ws[k]);
    }
  }
}
