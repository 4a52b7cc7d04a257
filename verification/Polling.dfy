/**
 * The HTTP polling engine: one poll works through a queue of requests that a driver program produces,
 * under a request budget, a feedback depth, a concurrency limit, a minimum spacing and rate-limit pauses.
 * The server, the driver and the clock are arbitrary: every step carries what they answered.
 */
module Polling {
  import opened Prelude

  /** Nanoseconds on the monotonic clock. */
  type Instant = nat
  type Json = string

  const SECOND: nat := 1_000_000_000
  const MAX_RATE_LIMIT_WAIT: nat := 3600 * SECOND

  datatype Route = Pipeline | Feedback | Both {
    predicate Emits() { this != Feedback }
    predicate FeedsBack() { this != Pipeline }
  }

  datatype Spec = Spec(url: string, route: Route)
  datatype Task = Task(spec: Spec, state: Json, depth: nat)
  datatype DriverOutput = DriverOutput(state: Json, requests: seq<Spec>)

  datatype Behavior = Skip | Hold | Retry | Abort
  datatype StatusKey = Exact(code: nat) | Class(hundreds: nat)
  datatype Outcome = Advance | HoldWindow | AbortSource

  datatype Config = Config(
    maxConcurrency: nat,
    maxRequests: nat,
    maxDepth: nat,
    interval: Option<nat>,
    onStatus: map<StatusKey, Behavior>)

  function Concurrency(cfg: Config): nat { Max(cfg.maxConcurrency, 1) }

  /** `StatusPolicy::resolve`: exact code, then class, then the built-in default. */
  function Resolve(cfg: Config, status: nat): Behavior {
    if Exact(status) in cfg.onStatus then cfg.onStatus[Exact(status)]
    else if Class(status / 100) in cfg.onStatus then cfg.onStatus[Class(status / 100)]
    else if status == 401 || status == 403 then Behavior.Abort
    else if status >= 500 then Behavior.Hold
    else Skip
  }

  /** A response; `remaining` and `resetAt` are the `x-ratelimit-*` headers when they parse as numbers. */
  datatype Response = Response(status: nat, remaining: Option<int>, resetAt: Option<int>)

  predicate Success(status: nat) { 200 <= status < 300 }

  /** Nanoseconds to wait, `wall` being the wall clock in Unix seconds. */
  function RateLimitResetIn(r: Response, wall: nat): (wait: Option<nat>)
    ensures wait.Some? <==>
              r.remaining.Some? && r.remaining.value <= 0 && r.resetAt.Some? && r.resetAt.value > wall
    ensures wait.Some? ==> wall * 1_000_000_000 + wait.value == (r.resetAt.value + 1) * 1_000_000_000
  {
    if r.remaining.None? || r.remaining.value > 0 || r.resetAt.None? then None
    else if r.resetAt.value - wall > 0 then Some((r.resetAt.value - wall + 1) * SECOND)
    else None
  }

  /** How one request ended; `fed` is what the driver answers if the response is fed back to it. */
  datatype Result =
    | Failed
    | Got(response: Response, wall: nat, fed: Option<DriverOutput>)

  predicate Limited(r: Result) { r.Got? && RateLimitResetIn(r.response, r.wall).Some? }

  /** A refusal that only says the rate limit is spent: no verdict on the request itself. */
  predicate Refused(r: Result) { r.Got? && !Success(r.response.status) && Limited(r) }

  predicate Aborts(cfg: Config, r: Result) {
    r.Got? && !Success(r.response.status) && !Limited(r) && Resolve(cfg, r.response.status).Abort?
  }

  // ---------------------------------------------------------------- the worklist of one poll

  /** A response that was not sent back to the queue; `limited` if it reported a spent rate limit. */
  datatype Handled = Handled(task: Task, status: nat, limited: bool)

  /** One driver invocation; the bootstrap has no parent. A failed one has no output. */
  datatype Call = Call(parent: Option<Task>, depth: nat, output: Option<DriverOutput>)

  /**
   * `waiting` holds requests pushed to the in-flight set but not yet polled, `flying` those under way.
   * From `created` on, the fields are histories.
   */
  datatype Work = Work(
    queue: seq<Task>,
    waiting: seq<Task>,
    flying: seq<Task>,
    issued: nat,
    progressed: nat,
    created: seq<Task>,
    failed: seq<Task>,
    handled: seq<Handled>,
    dropped: seq<Task>,
    emitted: seq<Handled>,
    calls: seq<Call>)
  {
    function InFlight(): nat { |waiting| + |flying| }
  }

  function TasksOf(call: Call): seq<Task> {
    if call.output.None? then []
    else seq(|call.output.value.requests|, j requires 0 <= j < |call.output.value.requests| =>
               Task(call.output.value.requests[j], call.output.value.state, call.depth))
  }

  function Bootstrap(out: DriverOutput): Work {
    var call := Call(None, 0, Some(out));
    Work(TasksOf(call), [], [], 0, 0, TasksOf(call), [], [], [], [], [call])
  }

  predicate HasRoom(cfg: Config, w: Work) { w.InFlight() < Concurrency(cfg) }

  /** Whether the loop that fills the in-flight set has stopped. */
  predicate Filled(cfg: Config, w: Work) { !HasRoom(cfg, w) || w.queue == [] }

  function IssueTask(w: Work): Work
    requires w.queue != []
  {
    w.(queue := w.queue[1..], waiting := w.waiting + [w.queue[0]], issued := w.issued + 1)
  }

  function DropRest(w: Work): Work {
    w.(queue := [], dropped := w.dropped + w.queue)
  }

  function FeedBack(w: Work, call: Call): Work {
    w.(calls := w.calls + [call], created := w.created + TasksOf(call), queue := w.queue + TasksOf(call))
  }

  predicate GoesBack(cfg: Config, h: Handled) {
    Success(h.status) && h.task.spec.route.FeedsBack() && h.task.depth < cfg.maxDepth
  }

  predicate GoesOut(h: Handled) { Success(h.status) && h.task.spec.route.Emits() }

  predicate Progresses(cfg: Config, h: Handled) {
    Success(h.status) || Resolve(cfg, h.status).Skip?
  }

  function TakeOut(w: Work, k: nat, i: nat): (r: (Work, Task))
    requires k <= |w.waiting| && i < |w.flying| + k
    ensures r.0.InFlight() == w.InFlight() - 1
  {
    var started := w.flying + w.waiting[..k];
    (w.(waiting := w.waiting[k..], flying := started[..i] + started[i + 1..]), started[i])
  }

  function Handle(cfg: Config, w: Work, h: Handled, fed: Option<DriverOutput>): Work {
    var w1 := w.(handled := w.handled + [h],
                 progressed := w.progressed + if Progresses(cfg, h) then 1 else 0,
                 emitted := if GoesOut(h) then w.emitted + [h] else w.emitted);
    if GoesBack(cfg, h) then FeedBack(w1, Call(Some(h.task), h.task.depth + 1, fed)) else w1
  }

  /** The first `k` waiting requests start; then the `i`-th of those under way ends with `r`. */
  function CompleteTask(cfg: Config, w: Work, k: nat, i: nat, r: Result): Work
    requires k <= |w.waiting| && i < |w.flying| + k
  {
    var (w1, task) := TakeOut(w, k, i);
    if r.Failed? then w1.(failed := w1.failed + [task])
    else if Refused(r) then w1.(queue := [task] + w1.queue)
    else Handle(cfg, w1, Handled(task, r.response.status, Limited(r)), r.fed)
  }

  /** A poll that worked its queue off: hold the window if requests were issued and none made progress. */
  function Verdict(w: Work): Outcome {
    if w.issued > 0 && w.progressed == 0 then HoldWindow else Advance
  }

  // ---------------------------------------------------------------- the source over many polls

  datatype Event = PollBegan | Issued(at: Instant) | Started(at: Instant) | Reset(at: Instant)
  datatype Phase = Idle(last: Option<Outcome>) | InPoll | Stopped

  /** `verdicts` lists the outcomes of the polls that ended, oldest first. */
  datatype Poller = Poller(
    phase: Phase,
    work: Work,
    nextAllowed: Option<Instant>,
    limitedUntil: Option<Instant>,
    clock: Instant,
    log: seq<Event>,
    verdicts: seq<Outcome>)

  datatype Step =
    | Begin(now: Instant, bootstrap: Option<DriverOutput>)
    | Issue(now: Instant)
    | Drop
    | Complete(now: Instant, k: nat, i: nat, result: Result)
    | Finish

  predicate Passed(at: Option<Instant>, now: Instant) { at.Some? ==> at.value <= now }

  function Later(at: Option<Instant>, other: Instant): Option<Instant> {
    Some(if at.Some? then Max(at.value, other) else other)
  }

  /**
   * When the loop takes which step. The clock moves while the task sleeps or awaits. Requests are started
   * when the in-flight set is awaited, in the order they were pushed: either all waiting ones, or, when
   * one under way is already complete (or fails at once), only those ahead of it.
   */
  predicate Enabled(cfg: Config, s: Poller, step: Step) {
    var w := s.work;
    match step
    case Begin(now, _) => s.phase.Idle? && s.clock <= now && Passed(s.limitedUntil, now)
    case Issue(now) =>
      && s.phase.InPoll? && HasRoom(cfg, w) && w.queue != [] && w.issued < cfg.maxRequests
      && s.clock <= now && Passed(s.nextAllowed, now)
    case Drop => s.phase.InPoll? && HasRoom(cfg, w) && w.queue != [] && w.issued >= cfg.maxRequests
    case Complete(now, k, i, r) =>
      && s.phase.InPoll? && Filled(cfg, w) && s.clock <= now
      && k <= |w.waiting| && i < |w.flying| + k
      && (k < |w.waiting| ==> now == s.clock && (i < |w.flying| || r.Failed?))
    case Finish => s.phase.InPoll? && Filled(cfg, w) && w.InFlight() == 0
  }

  function Starts(k: nat, at: Instant): seq<Event> { seq(k, _ => Started(at)) }

  function DoComplete(cfg: Config, s: Poller, now: Instant, k: nat, i: nat, r: Result): Poller
    requires k <= |s.work.waiting| && i < |s.work.flying| + k
  {
    var s1 := s.(work := CompleteTask(cfg, s.work, k, i, r), clock := now,
                 phase := if Aborts(cfg, r) then Stopped else InPoll,
                 log := s.log + Starts(k, s.clock));
    if !Limited(r) then s1
    else
      var at := now + Min(RateLimitResetIn(r.response, r.wall).value, MAX_RATE_LIMIT_WAIT);
      s1.(nextAllowed := Later(s1.nextAllowed, at), limitedUntil := Later(s1.limitedUntil, at),
          log := s1.log + [Reset(at)])
  }

  function Do(cfg: Config, s: Poller, step: Step): Poller
    requires Enabled(cfg, s, step)
  {
    match step
    case Begin(now, None) =>
      s.(clock := now, phase := Idle(Some(HoldWindow)), verdicts := s.verdicts + [HoldWindow])
    case Begin(now, Some(out)) =>
      s.(clock := now, phase := InPoll, work := Bootstrap(out), nextAllowed := s.limitedUntil,
         limitedUntil := None, log := s.log + [PollBegan])
    case Issue(now) =>
      s.(clock := now, work := IssueTask(s.work), log := s.log + [Issued(now)],
         nextAllowed := if cfg.interval.Some? then Some(now + cfg.interval.value) else None)
    case Drop => s.(work := DropRest(s.work))
    case Complete(now, k, i, r) => DoComplete(cfg, s, now, k, i, r)
    case Finish => s.(phase := Idle(Some(Verdict(s.work))), verdicts := s.verdicts + [Verdict(s.work)])
  }

  predicate Possible(cfg: Config, s: Poller, steps: seq<Step>)
    decreases |steps|
  {
    steps == [] || (Enabled(cfg, s, steps[0]) && Possible(cfg, Do(cfg, s, steps[0]), steps[1..]))
  }

  function After(cfg: Config, s: Poller, steps: seq<Step>): Poller
    requires Possible(cfg, s, steps)
    decreases |steps|
  {
    if steps == [] then s else After(cfg, Do(cfg, s, steps[0]), steps[1..])
  }

  function New(now: Instant): Poller {
    Poller(Idle(None), Work([], [], [], 0, 0, [], [], [], [], [], []), None, None, now, [], [])
  }

  ghost predicate Reachable(cfg: Config, s: Poller) {
    exists now, steps :: Possible(cfg, New(now), steps) && s == After(cfg, New(now), steps)
  }

  lemma {:induction false} PossibleSnoc(cfg: Config, s: Poller, steps: seq<Step>, last: Step)
    requires Possible(cfg, s, steps) && Enabled(cfg, After(cfg, s, steps), last)
    ensures Possible(cfg, s, steps + [last])
    ensures After(cfg, s, steps + [last]) == Do(cfg, After(cfg, s, steps), last)
    decreases |steps|
  {
    hide Enabled, Do;
    if steps == [] {
      assert [last][1..] == [];
      assert [] + [last] == [last];
    } else {
      PossibleSnoc(cfg, Do(cfg, s, steps[0]), steps[1..], last);
      assert (steps + [last])[1..] == steps[1..] + [last];
    }
  }
}
