/**
 * The polling source as its code runs it: `run_once` with its worklist loop, and the `run` loop around it,
 * proved to take only steps of the model in `Polling` and, for the time window, of the one in `TimeWindow`.
 */
module HttpPolling {
  import opened Prelude
  import opened Polling
  import T = PollingTheorems
  import W = TimeWindow

  /** What the world does while the poll awaits: how long, what starts, which request ends and how. */
  datatype Turn = Turn(delay: nat, started: nat, pick: nat, result: Result)

  ghost predicate Tracks(cfg: Config, s: Poller, steps: seq<Step>, cur: Poller) {
    Possible(cfg, s, steps) && After(cfg, s, steps) == cur
  }

  lemma Extend(cfg: Config, s: Poller, steps: seq<Step>, cur: Poller, step: Step)
    requires Tracks(cfg, s, steps, cur) && Enabled(cfg, cur, step)
    ensures Tracks(cfg, s, steps + [step], Do(cfg, cur, step))
  {
    hide Enabled, Do;
    PossibleSnoc(cfg, s, steps, step);
  }

  /** The loop variables of one poll. */
  datatype Worklist = Worklist(
    queue: seq<Task>,
    waiting: seq<Task>,
    flying: seq<Task>,
    issued: nat,
    progressed: nat,
    nextAllowed: Option<Instant>,
    emitted: seq<Handled>)

  predicate Shows(w: Worklist, s: Poller) {
    && s.phase.InPoll?
    && w == Worklist(s.work.queue, s.work.waiting, s.work.flying, s.work.issued, s.work.progressed,
                     s.nextAllowed, s.work.emitted)
  }

  lemma {:induction false} Concat(
    cfg: Config, s: Poller, steps: seq<Step>, mid: Poller, more: seq<Step>, end: Poller)
    requires Tracks(cfg, s, steps, mid) && Tracks(cfg, mid, more, end)
    ensures Tracks(cfg, s, steps + more, end)
    decreases |more|
  {
    if more == [] {
      assert steps + more == steps;
    } else {
      hide Enabled, Do;
      Extend(cfg, s, steps, mid, more[0]);
      Concat(cfg, s, steps + [more[0]], Do(cfg, mid, more[0]), more[1..], end);
      assert steps + [more[0]] + more[1..] == steps + more;
    }
  }

  /** What the driver answered at the start of each poll. */
  function Bootstraps(steps: seq<Step>): seq<Option<DriverOutput>> {
    if steps == [] then []
    else
      var last := steps[|steps| - 1];
      Bootstraps(steps[..|steps| - 1]) + if last.Begin? then [last.bootstrap] else []
  }

  /** How the requests ended, in the order in which they were concluded. */
  function Results(steps: seq<Step>): seq<Result> {
    if steps == [] then []
    else
      var last := steps[|steps| - 1];
      Results(steps[..|steps| - 1]) + if last.Complete? then [last.result] else []
  }

  lemma OneMore(steps: seq<Step>, step: Step)
    ensures Bootstraps(steps + [step]) == Bootstraps(steps) + if step.Begin? then [step.bootstrap] else []
    ensures Results(steps + [step]) == Results(steps) + if step.Complete? then [step.result] else []
  {
    assert (steps + [step])[..|steps|] == steps;
  }

  lemma {:induction false} BootstrapsConcat(a: seq<Step>, b: seq<Step>)
    ensures Bootstraps(a + b) == Bootstraps(a) + Bootstraps(b)
    decreases |b|
  {
    if b == [] {
      assert a + b == a;
    } else {
      BootstrapsConcat(a, b[..|b| - 1]);
      assert (a + b)[..|a + b| - 1] == a + b[..|b| - 1];
    }
  }

  /** The results were taken from the world in order, each from a later turn than the one before. */
  ghost predicate TakenFrom(world: nat -> Turn, turns: seq<nat>, results: seq<Result>) {
    && |turns| == |results|
    && (forall j :: 0 <= j < |turns| ==> world(turns[j]).result == results[j])
    && (forall i, j :: 0 <= i < j < |turns| ==> turns[i] < turns[j])
  }

  predicate Below(turns: seq<nat>, at: nat) { forall j :: 0 <= j < |turns| ==> turns[j] < at }

  lemma TakenMore(world: nat -> Turn, turns: seq<nat>, results: seq<Result>, at: nat)
    requires TakenFrom(world, turns, results) && Below(turns, at)
    ensures TakenFrom(world, turns + [at], results + [world(at).result]) && Below(turns + [at], at + 1)
  {
  }

  lemma LaterTurn(turns: seq<nat>, at: nat, at': nat)
    requires Below(turns, at) && at <= at'
    ensures Below(turns, at')
  {
  }

  /** One round of `run`: the world of its poll, the wall clock after it and whether the checkpoint save works. */
  datatype Cycle = Cycle(
    idle: nat,
    bootstrap: Option<DriverOutput>,
    world: nat -> Turn,
    wall: W.Timestamp,
    saved: bool)

  predicate InOrder(from: W.Timestamp, cycles: seq<Cycle>)
    decreases |cycles|
  {
    cycles == [] || (from <= cycles[0].wall && InOrder(cycles[0].wall, cycles[1..]))
  }

  lemma InOrderNext(from: W.Timestamp, cycles: seq<Cycle>, n: nat)
    requires n < |cycles| && InOrder(from, cycles[n..])
    ensures from <= cycles[n].wall && InOrder(cycles[n].wall, cycles[n + 1..])
  {
    assert cycles[n..][0] == cycles[n] && cycles[n..][1..] == cycles[n + 1..];
  }

  /** `n` polls were begun, each with the bootstrap of its cycle. */
  ghost predicate Asked(cycles: seq<Cycle>, bootstraps: seq<Option<DriverOutput>>, n: nat) {
    |bootstraps| == n <= |cycles| && forall c :: 0 <= c < n ==> bootstraps[c] == cycles[c].bootstrap
  }

  lemma AskedMore(cycles: seq<Cycle>, bootstraps: seq<Option<DriverOutput>>, n: nat)
    requires Asked(cycles, bootstraps, n) && n < |cycles|
    ensures Asked(cycles, bootstraps + [cycles[n].bootstrap], n + 1)
  {
  }

  /** What a poll's outcome does to the window; an abort is not a move but the end of the source. */
  function Move(outcome: Outcome, cycle: Cycle): W.Step {
    if outcome.Advance? then W.Advance(cycle.wall, cycle.saved) else W.Hold(cycle.wall)
  }

  lemma StartsTracking(cfg: Config, s: Poller, wcfg: W.Config, src: W.Source)
    ensures Tracks(cfg, s, [], s) && W.Possible(wcfg, src, []) && W.After(wcfg, src, []) == src
  {
  }

  lemma NothingAsked(cycles: seq<Cycle>)
    ensures Asked(cycles, Bootstraps([]), 0)
  {
  }

  lemma WindowMoves(
    wcfg: W.Config, src: W.Source, moves: seq<W.Step>, left: W.Source, outcome: Outcome, cycle: Cycle)
    requires W.Possible(wcfg, src, moves) && left == W.After(wcfg, src, moves)
    requires left.up && !W.AtLimit(left.window, wcfg.limit) && left.clock <= cycle.wall
    ensures W.Enabled(wcfg, left, Move(outcome, cycle)) && W.Possible(wcfg, src, moves + [Move(outcome, cycle)])
    ensures W.After(wcfg, src, moves + [Move(outcome, cycle)]) == W.Do(wcfg, left, Move(outcome, cycle))
    ensures var left' := W.Do(wcfg, left, Move(outcome, cycle));
            && left'.up && left'.clock == cycle.wall
            && left'.window == (if outcome.Advance? then W.Next(left.window, wcfg.limit, cycle.wall) else left.window)
            && left'.checkpoint ==
                 if outcome.Advance? && cycle.saved then Some(left.window.before) else left.checkpoint
  {
    hide W.Possible, W.After;
    W.PossibleSnoc(wcfg, src, moves, Move(outcome, cycle));
  }

  lemma VerdictsKept(cfg: Config, s: Poller, now: Instant, k: nat, i: nat, r: Result)
    requires k <= |s.work.waiting| && i < |s.work.flying| + k
    ensures DoComplete(cfg, s, now, k, i, r).verdicts == s.verdicts
  {
  }

  /** Whatever poller a poll begins from, what it emits are the responses routed downstream, in order. */
  lemma PollRouting(cfg: Config, s: Poller, steps: seq<Step>, end: Poller)
    requires Tracks(cfg, s, steps, end) && steps != [] && steps[0].Begin? && steps[0].bootstrap.Some?
    requires end.phase.InPoll? || end.phase.Stopped?
    ensures end.work.emitted ==
              T.Select((h: Handled) => 200 <= h.status < 300 && h.task.spec.route in {Pipeline, Both}, end.work.handled)
  {
    T.BootstrapSound(cfg, steps[0].bootstrap.value);
    hide T.Sound, Bootstrap;
    T.RunKeeps(cfg, Do(cfg, s, steps[0]), steps[1..]);
    SoundRouting(cfg, end.work);
  }

  lemma SoundRouting(cfg: Config, w: Work)
    requires T.Sound(cfg, w)
    ensures w.emitted ==
              T.Select((h: Handled) => 200 <= h.status < 300 && h.task.spec.route in {Pipeline, Both}, w.handled)
  {
    T.RoutingOf(cfg, w);
  }

  class HttpPollingSource {
    const cfg: Config
    var rateLimitedUntil: Option<Instant>
    var clock: Instant

    constructor (cfg: Config, now: Instant)
      ensures this.cfg == cfg && rateLimitedUntil == None && clock == now
    {
      this.cfg, rateLimitedUntil, clock := cfg, None, now;
    }

    /** Between polls the model's clock is the end of the last poll. */
    ghost predicate Idles(s: Poller)
      reads this
    {
      s.phase.Idle? && s.limitedUntil == rateLimitedUntil && s.clock <= clock
    }

    ghost predicate Mirrors(s: Poller)
      reads this
    {
      s.limitedUntil == rateLimitedUntil && s.clock == clock
    }

    /** Pushes the next release out until the reset; never pulls it in. */
    method ApplyRateLimitPause(r: Response, wall: nat, nextAllowed: Option<Instant>)
      returns (applied: bool, next: Option<Instant>)
      modifies `rateLimitedUntil
      ensures applied <==> RateLimitResetIn(r, wall).Some?
      ensures !applied ==> next == nextAllowed && rateLimitedUntil == old(rateLimitedUntil)
      ensures applied ==>
                var at := clock + Min(RateLimitResetIn(r, wall).value, MAX_RATE_LIMIT_WAIT);
                next == Later(nextAllowed, at) && rateLimitedUntil == Later(old(rateLimitedUntil), at)
    {
      var reset := RateLimitResetIn(r, wall);
      if reset.None? { return false, nextAllowed; }
      var at := clock + Min(reset.value, MAX_RATE_LIMIT_WAIT);
      next := Some(match nextAllowed case Some(cur) => Max(cur, at) case None => at);
      rateLimitedUntil := Some(match rateLimitedUntil case Some(cur) => Max(cur, at) case None => at);
      applied := true;
    }

    /** The inner loop: fills the in-flight slots from the queue, honouring budget, spacing and pauses. */
    method Fill(w: Worklist, world: nat -> Turn, at: nat, ghost s: Poller, ghost past: seq<Step>, ghost cur: Poller)
      returns (w': Worklist, at': nat, ghost steps: seq<Step>, ghost end: Poller)
      requires Tracks(cfg, s, past, cur) && Shows(w, cur) && Mirrors(cur) && w.issued <= cfg.maxRequests
      modifies `clock
      ensures Tracks(cfg, s, steps, end) && Shows(w', end) && Mirrors(end) && w'.issued <= cfg.maxRequests
      ensures Filled(cfg, end.work) && end.verdicts == cur.verdicts && at <= at'
      ensures past <= steps && forall x :: x in steps[|past|..] ==> x.Issue? || x.Drop?
      ensures Bootstraps(steps) == Bootstraps(past) && Results(steps) == Results(past)
      ensures 2 * w'.issued - end.work.InFlight() >= 2 * w.issued - cur.work.InFlight()
    {
      hide Tracks, TasksOf, Bootstraps, Results;
      w', at', steps, end := w, at, past, cur;
      while |w'.waiting| + |w'.flying| < Concurrency(cfg)
        invariant Tracks(cfg, s, steps, end) && Shows(w', end) && Mirrors(end) && w'.issued <= cfg.maxRequests
        invariant 2 * w'.issued - end.work.InFlight() >= 2 * w.issued - cur.work.InFlight()
        invariant end.verdicts == cur.verdicts && at <= at'
        invariant past <= steps && forall x :: x in steps[|past|..] ==> x.Issue? || x.Drop?
        invariant Bootstraps(steps) == Bootstraps(past) && Results(steps) == Results(past)
        decreases cfg.maxRequests - w'.issued, |w'.queue|
      {
        if w'.queue == [] { break; }
        var task := w'.queue[0];
        if w'.issued >= cfg.maxRequests {
          Extend(cfg, s, steps, end, Drop);
          OneMore(steps, Drop);
          steps, end := steps + [Drop], Do(cfg, end, Drop);
          w' := w'.(queue := []);
          break;
        }
        clock := clock + world(at').delay;
        at' := at' + 1;
        if w'.nextAllowed.Some? && w'.nextAllowed.value > clock {
          clock := w'.nextAllowed.value;
        }
        Extend(cfg, s, steps, end, Issue(clock));
        OneMore(steps, Issue(clock));
        steps, end := steps + [Issue(clock)], Do(cfg, end, Issue(clock));
        w' := w'.(queue := w'.queue[1..], waiting := w'.waiting + [task], issued := w'.issued + 1,
                  nextAllowed := match cfg.interval case Some(i) => Some(clock + i) case None => None);
      }
    }

    /**
     * One request has ended, as the `i`-th of those under way once the first `k` waiting ones have started:
     * a failure is forgotten, a rate-limited refusal goes back to the queue, any other non-2xx is left to
     * the policy, and a 2xx is emitted and fed back as its route says.
     */
    method Conclude(w: Worklist, k: nat, i: nat, result: Result, ghost cur: Poller)
      returns (w': Worklist, aborted: bool)
      requires Shows(w, cur) && cur.limitedUntil == rateLimitedUntil
      requires k <= |w.waiting| && i < |w.flying| + k
      modifies `rateLimitedUntil
      ensures aborted <==> Aborts(cfg, result)
      ensures var next := DoComplete(cfg, cur, clock, k, i, result);
              && Mirrors(next) && w'.emitted == next.work.emitted
              && if aborted then next.phase.Stopped? else Shows(w', next)
      ensures w'.issued == w.issued && |w'.waiting| + |w'.flying| == |w.waiting| + |w.flying| - 1
    {
      hide TasksOf, Starts, RateLimitResetIn, Resolve;
      aborted := false;
      var started := w.flying + w.waiting[..k];
      var task := started[i];
      w' := w.(waiting := w.waiting[k..], flying := started[..i] + started[i + 1..]);
      if result.Failed? { return; }
      var status := result.response.status;
      var limited, nextAllowed := ApplyRateLimitPause(result.response, result.wall, w'.nextAllowed);
      w' := w'.(nextAllowed := nextAllowed);
      if !Success(status) {
        if limited {
          w' := w'.(queue := [task] + w'.queue);
          return;
        }
        var behavior := Resolve(cfg, status);
        match behavior {
          case Skip => w' := w'.(progressed := w'.progressed + 1);
          case Hold =>
          case Retry =>
          case Abort => aborted := true;
        }
        return;
      }
      w' := w'.(progressed := w'.progressed + 1);
      if task.spec.route.Emits() {
        w' := w'.(emitted := w'.emitted + [Handled(task, status, limited)]);
      }
      if task.spec.route.FeedsBack() && task.depth < cfg.maxDepth {
        w' := w'.(queue := w'.queue + TasksOf(Call(Some(task), task.depth + 1, result.fed)));
      }
    }

    /** Which of the waiting requests start and which request ends, as far as the turn's wish is possible. */
    method Await(w: Worklist, turn: Turn, ghost cur: Poller) returns (k: nat, i: nat)
      requires Shows(w, cur) && Mirrors(cur) && Filled(cfg, cur.work) && cur.work.InFlight() > 0
      modifies `clock
      ensures Enabled(cfg, cur, Complete(clock, k, i, turn.result))
    {
      i := turn.pick % (|w.waiting| + |w.flying|);
      if turn.started < |w.waiting| && (i < |w.flying| || (turn.result.Failed? && i < |w.flying| + turn.started)) {
        k := turn.started;
      } else {
        k := |w.waiting|;
        clock := clock + turn.delay;
      }
    }

    /**
     * `run_once`: ends for every driver and every server, and does nothing the model does not allow: one poll
     * from the given bootstrap, concluding requests as the world answers, with the model's verdict.
     * The caller has waited out the rate limit.
     */
    method RunOnce(bootstrap: Option<DriverOutput>, world: nat -> Turn, ghost s: Poller)
      returns (outcome: Outcome, emitted: seq<Handled>, ghost steps: seq<Step>, ghost end: Poller,
               ghost turns: seq<nat>)
      requires Idles(s) && Passed(rateLimitedUntil, clock)
      modifies this
      ensures Tracks(cfg, s, steps, end) && Mirrors(end)
      ensures end.phase == if outcome.AbortSource? then Stopped else Idle(Some(outcome))
      ensures if bootstrap.Some? then emitted == end.work.emitted else emitted == [] && outcome.HoldWindow?
      ensures bootstrap.Some? ==>
                emitted == T.Select((h: Handled) => 200 <= h.status < 300 && h.task.spec.route in {Pipeline, Both},
                                    end.work.handled)
      ensures end.verdicts == s.verdicts + if outcome.AbortSource? then [] else [outcome]
      ensures Bootstraps(steps) == [bootstrap] && TakenFrom(world, turns, Results(steps))
    {
      hide TasksOf, CompleteTask, DoComplete, RateLimitResetIn, Resolve;
      assert Tracks(cfg, s, [], s);
      Extend(cfg, s, [], s, Begin(clock, bootstrap));
      OneMore([], Begin(clock, bootstrap));
      assert TakenFrom(world, [], Results([Begin(clock, bootstrap)])) && Below([], 0);
      ghost var first := Begin(clock, bootstrap);
      steps, end, turns := [] + [Begin(clock, bootstrap)], Do(cfg, s, Begin(clock, bootstrap)), [];
      if bootstrap.None? { return HoldWindow, [], steps, end, turns; }
      hide Tracks, Bootstraps, Results, TakenFrom, Below;
      var w := Worklist(TasksOf(Call(None, 0, bootstrap)), [], [], 0, 0, rateLimitedUntil, []);
      rateLimitedUntil := None;
      var at := 0;
      while true
        invariant Tracks(cfg, s, steps, end) && Shows(w, end) && Mirrors(end) && w.issued <= cfg.maxRequests
        invariant end.verdicts == s.verdicts && Bootstraps(steps) == [bootstrap] && [first] <= steps
        invariant TakenFrom(world, turns, Results(steps)) && Below(turns, at)
        decreases 2 * (cfg.maxRequests - w.issued) + |w.waiting| + |w.flying|
      {
        ghost var before := at;
        w, at, steps, end := Fill(w, world, at, s, steps, end);
        LaterTurn(turns, before, at);
        if |w.waiting| + |w.flying| == 0 {
          if w.queue == [] { break; }
          assert false;
        }
        var turn := world(at);
        TakenMore(world, turns, Results(steps), at);
        turns := turns + [at];
        at := at + 1;
        var k, i := Await(w, turn, end);
        var aborted;
        var step := Complete(clock, k, i, turn.result);
        w, aborted := Conclude(w, k, i, turn.result, end);
        Extend(cfg, s, steps, end, step);
        OneMore(steps, step);
        VerdictsKept(cfg, end, clock, k, i, turn.result);
        steps, end := steps + [step], Do(cfg, end, step);
        if aborted {
          PollRouting(cfg, s, steps, end);
          return AbortSource, w.emitted, steps, end, turns;
        }
      }
      PollRouting(cfg, s, steps, end);
      Extend(cfg, s, steps, end, Finish);
      OneMore(steps, Finish);
      steps, end := steps + [Finish], Do(cfg, end, Finish);
      outcome := if w.issued > 0 && w.progressed == 0 then HoldWindow else Advance;
      emitted := w.emitted;
    }

    /**
     * `run`: waits out a pause, stops at the limit, polls, and moves the time window as the poll's outcome
     * says. It ends when it is cancelled (after the last cycle), at the limit, or on an abort. The window
     * takes only steps of `TimeWindow`, one for each poll: forward exactly when the outcome is Advance.
     */
    method Run(cycles: seq<Cycle>, wcfg: W.Config, filter: W.TimeWindowFilter, checkpoint: Option<W.Timestamp>,
               ghost s: Poller, ghost src: W.Source)
      returns (outcomes: seq<Outcome>, saved: Option<W.Timestamp>,
               ghost steps: seq<Step>, ghost end: Poller, ghost moves: seq<W.Step>, ghost left: W.Source)
      requires Idles(s)
      requires src.up && filter.Current() == src.window && filter.limit == wcfg.limit && checkpoint == src.checkpoint
      requires InOrder(src.clock, cycles)
      modifies this, filter
      ensures Tracks(cfg, s, steps, end)
      ensures W.Possible(wcfg, src, moves) && left == W.After(wcfg, src, moves)
      ensures filter.Current() == left.window && saved == left.checkpoint
      ensures |moves| == |outcomes| <= |cycles|
      ensures forall c :: 0 <= c < |moves| ==>
                moves[c] == if outcomes[c].Advance? then W.Advance(cycles[c].wall, cycles[c].saved)
                            else W.Hold(cycles[c].wall)
      ensures |outcomes| < |cycles| ==> end.phase.Stopped? || W.AtLimit(filter.Current(), wcfg.limit)
      ensures end.verdicts == s.verdicts + outcomes && (end.phase.Stopped? || Idles(end))
      ensures Asked(cycles, Bootstraps(steps), |outcomes| + if end.phase.Stopped? then 1 else 0)
    {
      hide Tracks, W.Possible, W.After, W.Enabled, W.Do, Polling.Possible, Polling.After, Bootstraps, Results;
      hide Asked, TakenFrom, InOrder, W.AtLimit;
      assert cycles[0..] == cycles;
      StartsTracking(cfg, s, wcfg, src);
      NothingAsked(cycles);
      outcomes, saved, steps, end, moves, left := [], checkpoint, [], s, [], src;
      while |outcomes| < |cycles|
        invariant Tracks(cfg, s, steps, end) && Idles(end)
        invariant W.Possible(wcfg, src, moves) && left == W.After(wcfg, src, moves)
        invariant left.up && filter.Current() == left.window && saved == left.checkpoint
        invariant |moves| == |outcomes| <= |cycles|
        invariant InOrder(left.clock, cycles[|outcomes|..])
        invariant forall c :: 0 <= c < |moves| ==> moves[c] == Move(outcomes[c], cycles[c])
        invariant end.verdicts == s.verdicts + outcomes && Asked(cycles, Bootstraps(steps), |outcomes|)
      {
        var cycle := cycles[|outcomes|];
        InOrderNext(left.clock, cycles, |outcomes|);
        clock := clock + cycle.idle;
        if rateLimitedUntil.Some? && rateLimitedUntil.value > clock {
          clock := rateLimitedUntil.value;
        }
        var stop := filter.IsAtLimit();
        if stop { break; }
        ghost var more, next, turns;
        var outcome, emitted;
        outcome, emitted, more, next, turns := RunOnce(cycle.bootstrap, cycle.world, end);
        Concat(cfg, s, steps, end, more, next);
        BootstrapsConcat(steps, more);
        AskedMore(cycles, Bootstraps(steps), |outcomes|);
        steps, end := steps + more, next;
        if outcome.AbortSource? { break; }
        if outcome.Advance? {
          filter.Advance(cycle.wall);
          if cycle.saved { saved := Some(filter.tsAfter); }
        }
        WindowMoves(wcfg, src, moves, left, outcome, cycle);
        moves, left := moves + [Move(outcome, cycle)], W.Do(wcfg, left, Move(outcome, cycle));
        outcomes := outcomes + [outcome];
      }
    }

    /** The whole life of a process: it starts from its checkpoint, if that can be read, and then runs. */
    method RunProcess(cycles: seq<Cycle>, wcfg: W.Config, now: W.Timestamp, readable: bool,
                      checkpoint: Option<W.Timestamp>, ghost s: Poller, ghost src: W.Source)
      returns (outcomes: seq<Outcome>, saved: Option<W.Timestamp>, ghost moves: seq<W.Step>, ghost left: W.Source)
      requires Idles(s)
      requires !src.up && src.clock <= now && checkpoint == src.checkpoint && InOrder(now, cycles)
      modifies this
      ensures moves != [] && moves[0] == W.Boot(now, readable)
      ensures W.Possible(wcfg, src, moves) && left == W.After(wcfg, src, moves) && saved == left.checkpoint
      ensures |moves| == |outcomes| + 1 <= |cycles| + 1
      ensures W.Enabled(wcfg, src, W.Boot(now, readable))
      ensures W.Do(wcfg, src, W.Boot(now, readable)).window.after
              == if readable && checkpoint.Some? then checkpoint.value else wcfg.start
      ensures forall c :: 0 <= c < |outcomes| ==>
                moves[c + 1] == if outcomes[c].Advance? then W.Advance(cycles[c].wall, cycles[c].saved)
                                else W.Hold(cycles[c].wall)
    {
      var filter := W.StartSource(wcfg, now, readable, checkpoint, src);
      var boot := W.Boot(now, readable);
      ghost var up := W.Do(wcfg, src, boot);
      ghost var steps, end, rest;
      outcomes, saved, steps, end, rest, left := Run(cycles, wcfg, filter, checkpoint, s, up);
      moves := [boot] + rest;
      assert moves[1..] == rest;
    }
  }
}
