/**
 * When requests are released from the queue and when they start: rate-limit resets and the minimum
 * spacing, over every life of the polling source.
 */
module PollingTiming {
  import opened Prelude
  import opened Polling
  import T = PollingTheorems

  /** The two moments of a request: it leaves the queue, and its connection is opened. */
  datatype Mark = Release | Start

  predicate Is(m: Mark, e: Event) { if m.Release? then e.Issued? else e.Started? }

  function At(e: Event): Instant { if e.PollBegan? then 0 else e.at }

  function Interval(cfg: Config): nat { if cfg.interval.Some? then cfg.interval.value else 0 }

  /** No poll begins between the two positions. */
  predicate SamePoll(log: seq<Event>, i: nat, j: nat)
    requires i <= j <= |log|
  {
    PollBegan !in log[i..j]
  }

  /** No request passes the mark before a reset instant that was reported earlier. */
  predicate AfterResets(m: Mark, log: seq<Event>) {
    forall i, j :: 0 <= i < j < |log| && log[i].Reset? && Is(m, log[j]) ==> At(log[i]) <= At(log[j])
  }

  /** Any two requests of one poll pass the mark at least the interval apart. */
  predicate Spaced(cfg: Config, m: Mark, log: seq<Event>) {
    forall i, j :: 0 <= i < j < |log| && Is(m, log[i]) && Is(m, log[j]) && SamePoll(log, i, j) ==>
      At(log[i]) + Interval(cfg) <= At(log[j])
  }

  // ---------------------------------------------------------------- bounds that carry the proofs

  function ValueOr(at: Option<Instant>, other: Instant): Instant { if at.Some? then at.value else other }

  /** No request can be released before this. */
  function Due(s: Poller): Instant { Max(s.clock, ValueOr(s.nextAllowed, 0)) }

  predicate ResetsBy(log: seq<Event>, t: Instant) {
    forall i :: 0 <= i < |log| && log[i].Reset? ==> At(log[i]) <= t
  }

  /** A request of the current poll may pass the mark at `t`. */
  predicate SpacedBy(cfg: Config, m: Mark, log: seq<Event>, t: Instant) {
    forall i :: 0 <= i < |log| && Is(m, log[i]) && SamePoll(log, i, |log|) ==> At(log[i]) + Interval(cfg) <= t
  }

  // ---------------------------------------------------------------- appending events

  lemma SamePollSnoc(log: seq<Event>, e: Event, i: nat, j: nat)
    requires i <= j <= |log|
    ensures SamePoll(log + [e], i, j) == SamePoll(log, i, j)
    ensures SamePoll(log + [e], i, |log| + 1) == (SamePoll(log, i, |log|) && e != PollBegan)
  {
    assert (log + [e])[i..j] == log[i..j];
    assert (log + [e])[i..|log| + 1] == log[i..] + [e];
    assert log[i..] == log[i..|log|];
  }

  lemma SnocResets(m: Mark, log: seq<Event>, e: Event, t: Instant)
    ensures AfterResets(m, log) && (Is(m, e) ==> ResetsBy(log, At(e))) ==> AfterResets(m, log + [e])
    ensures ResetsBy(log, t) && (e.Reset? ==> At(e) <= t) ==> ResetsBy(log + [e], t)
  {
  }

  lemma SnocSpaced(cfg: Config, m: Mark, log: seq<Event>, e: Event, t: Instant)
    ensures Spaced(cfg, m, log) && (Is(m, e) ==> SpacedBy(cfg, m, log, At(e))) ==> Spaced(cfg, m, log + [e])
    ensures SpacedBy(cfg, m, log, t) && (Is(m, e) ==> At(e) + Interval(cfg) <= t) ==> SpacedBy(cfg, m, log + [e], t)
    ensures e == PollBegan ==> SpacedBy(cfg, m, log + [e], t)
  {
    forall i, j | 0 <= i <= j <= |log|
      ensures SamePoll(log + [e], i, j) == SamePoll(log, i, j)
      ensures SamePoll(log + [e], i, |log| + 1) == (SamePoll(log, i, |log|) && e != PollBegan)
    {
      SamePollSnoc(log, e, i, j);
    }
    hide SamePoll;
  }

  lemma {:induction false} StartsResets(m: Mark, log: seq<Event>, k: nat, at: Instant, t: Instant)
    ensures AfterResets(m, log) && (m.Start? && k > 0 ==> ResetsBy(log, at)) ==> AfterResets(m, log + Starts(k, at))
    ensures ResetsBy(log, t) ==> ResetsBy(log + Starts(k, at), t)
  {
    hide AfterResets, ResetsBy;
    if k == 0 {
      assert log + Starts(0, at) == log;
    } else {
      StartsResets(m, log, k - 1, at, t);
      StartsResets(m, log, k - 1, at, at);
      assert log + Starts(k, at) == log + Starts(k - 1, at) + [Started(at)];
      SnocResets(m, log + Starts(k - 1, at), Started(at), t);
    }
  }

  /** Starting up to one request, or any number of them without an interval, keeps the spacing. */
  lemma {:induction false} StartsSpaced(cfg: Config, m: Mark, log: seq<Event>, k: nat, at: Instant, t: Instant)
    requires m.Release? || k <= 1 || Interval(cfg) == 0
    ensures Spaced(cfg, m, log) && (m.Start? && k > 0 ==> SpacedBy(cfg, m, log, at)) ==>
              Spaced(cfg, m, log + Starts(k, at))
    ensures SpacedBy(cfg, m, log, t) && (m.Start? && k > 0 ==> at + Interval(cfg) <= t) ==>
              SpacedBy(cfg, m, log + Starts(k, at), t)
  {
    hide Spaced, SpacedBy;
    if k == 0 {
      assert log + Starts(0, at) == log;
    } else {
      StartsSpaced(cfg, m, log, k - 1, at, t);
      StartsSpaced(cfg, m, log, k - 1, at, at);
      assert log + Starts(k, at) == log + Starts(k - 1, at) + [Started(at)];
      SnocSpaced(cfg, m, log + Starts(k - 1, at), Started(at), t);
      if k == 1 { assert log + Starts(0, at) == log; }
    }
  }

  lemma LaterResets(log: seq<Event>, t: Instant, u: Instant)
    requires ResetsBy(log, t) && t <= u
    ensures ResetsBy(log, u)
  {
  }

  lemma LaterSpaced(cfg: Config, m: Mark, log: seq<Event>, t: Instant, u: Instant)
    requires SpacedBy(cfg, m, log, t) && t <= u
    ensures SpacedBy(cfg, m, log, u)
  {
  }

  // ---------------------------------------------------------------- releases

  predicate ResetsKept(s: Poller) {
    && AfterResets(Release, s.log)
    && ResetsBy(s.log, Max(s.clock, ValueOr(s.limitedUntil, 0)))
    && (s.phase.InPoll? ==> ResetsBy(s.log, Due(s)))
  }

  predicate SpacingKept(cfg: Config, s: Poller) {
    Spaced(cfg, Release, s.log) && (s.phase.InPoll? ==> SpacedBy(cfg, Release, s.log, Due(s)))
  }

  /** The event a completion adds after the starts, if its response reports a spent rate limit. */
  function ResetAt(now: Instant, r: Result): Instant
    requires Limited(r)
  {
    now + Min(RateLimitResetIn(r.response, r.wall).value, MAX_RATE_LIMIT_WAIT)
  }

  lemma ResetsStep(cfg: Config, s: Poller, step: Step)
    requires ResetsKept(s) && Enabled(cfg, s, step)
    ensures ResetsKept(Do(cfg, s, step))
  {
    hide AfterResets, ResetsBy, Starts, CompleteTask, RateLimitResetIn, Bootstrap, IssueTask, DropRest, Aborts;
    var s' := Do(cfg, s, step);
    var high, high' := Max(s.clock, ValueOr(s.limitedUntil, 0)), Max(s'.clock, ValueOr(s'.limitedUntil, 0));
    if step.Begin? {
      LaterResets(s.log, high, s'.clock);
      SnocResets(Release, s.log, PollBegan, s'.clock);
      LaterResets(s'.log, s'.clock, Due(s'));
    } else if step.Issue? {
      LaterResets(s.log, Due(s), step.now);
      LaterResets(s.log, high, high');
      SnocResets(Release, s.log, Issued(step.now), high');
      SnocResets(Release, s.log, Issued(step.now), step.now);
      LaterResets(s'.log, step.now, Due(s'));
    } else if step.Complete? {
      var log := s.log + Starts(step.k, s.clock);
      LaterResets(s.log, high, high');
      LaterResets(s.log, Due(s), Due(s'));
      StartsResets(Release, s.log, step.k, s.clock, high');
      StartsResets(Release, s.log, step.k, s.clock, Due(s'));
      if Limited(step.result) {
        SnocResets(Release, log, Reset(ResetAt(step.now, step.result)), high');
        SnocResets(Release, log, Reset(ResetAt(step.now, step.result)), Due(s'));
      }
    }
  }

  lemma SpacingStep(cfg: Config, s: Poller, step: Step)
    requires SpacingKept(cfg, s) && Enabled(cfg, s, step)
    ensures SpacingKept(cfg, Do(cfg, s, step))
  {
    hide Spaced, SpacedBy, Starts, CompleteTask, RateLimitResetIn, Bootstrap, IssueTask, DropRest, Aborts;
    var s' := Do(cfg, s, step);
    if step.Begin? {
      SnocSpaced(cfg, Release, s.log, PollBegan, Due(s'));
    } else if step.Issue? {
      LaterSpaced(cfg, Release, s.log, Due(s), step.now);
      LaterSpaced(cfg, Release, s.log, step.now, Due(s'));
      SnocSpaced(cfg, Release, s.log, Issued(step.now), Due(s'));
    } else if step.Complete? {
      var log := s.log + Starts(step.k, s.clock);
      LaterSpaced(cfg, Release, s.log, Due(s), Due(s'));
      StartsSpaced(cfg, Release, s.log, step.k, s.clock, Due(s'));
      if Limited(step.result) {
        SnocSpaced(cfg, Release, log, Reset(ResetAt(step.now, step.result)), Due(s'));
      }
    }
  }

  lemma {:induction false} RunTiming(cfg: Config, s: Poller, steps: seq<Step>)
    requires ResetsKept(s) && SpacingKept(cfg, s) && Possible(cfg, s, steps)
    ensures ResetsKept(After(cfg, s, steps)) && SpacingKept(cfg, After(cfg, s, steps))
    decreases |steps|
  {
    hide ResetsKept, SpacingKept, Enabled, Do;
    if steps != [] {
      ResetsStep(cfg, s, steps[0]);
      SpacingStep(cfg, s, steps[0]);
      RunTiming(cfg, Do(cfg, s, steps[0]), steps[1..]);
    }
  }

  /**
   * Over every life of the source no request leaves the queue before any reset instant (capped at one hour)
   * reported in this or an earlier poll, and within a poll requests leave it at least the interval apart.
   */
  lemma ReleaseTiming(cfg: Config, s: Poller)
    requires Reachable(cfg, s)
    ensures AfterResets(Release, s.log) && Spaced(cfg, Release, s.log)
  {
    var now, steps :| Possible(cfg, New(now), steps) && s == After(cfg, New(now), steps);
    RunTiming(cfg, New(now), steps);
  }

  /** No request can be released before `t`, in this poll or a later one. */
  predicate Barred(s: Poller, t: Instant) {
    t <= Max(s.clock, ValueOr(s.limitedUntil, 0)) && (s.phase.InPoll? ==> t <= Due(s))
  }

  lemma BarredStep(cfg: Config, s: Poller, step: Step, t: Instant)
    requires Barred(s, t) && Enabled(cfg, s, step)
    ensures Barred(Do(cfg, s, step), t) && (step.Issue? ==> t <= step.now)
  {
    hide CompleteTask, RateLimitResetIn, Starts, Aborts, Bootstrap;
  }

  lemma {:induction false} BarredRun(cfg: Config, s: Poller, steps: seq<Step>, t: Instant)
    requires Barred(s, t) && Possible(cfg, s, steps)
    ensures Barred(After(cfg, s, steps), t)
    decreases |steps|
  {
    hide Enabled, Do, Barred;
    if steps != [] {
      BarredStep(cfg, s, steps[0], t);
      BarredRun(cfg, Do(cfg, s, steps[0]), steps[1..], t);
    }
  }

  /**
   * After a response with no budget left and a reset ahead, no request is released before one second past
   * the reset, an hour at most, whatever happens in between, in this poll or a later one.
   */
  lemma ResetIsWaitedOut(cfg: Config, s: Poller, first: Step, r: Response, steps: seq<Step>, next: Step)
    requires first.Complete? && first.result.Got? && first.result.response == r && Enabled(cfg, s, first)
    requires r.remaining.Some? && r.remaining.value <= 0 && r.resetAt.Some? && r.resetAt.value > first.result.wall
    requires Possible(cfg, Do(cfg, s, first), steps) && Enabled(cfg, After(cfg, Do(cfg, s, first), steps), next)
    ensures next.Issue? ==>
              next.now >= first.now + Min((r.resetAt.value - first.result.wall + 1) * 1_000_000_000, 3_600_000_000_000)
  {
    var t := ResetAt(first.now, first.result);
    ReportBars(cfg, s, first);
    hide Enabled, Do, Barred;
    BarredRun(cfg, Do(cfg, s, first), steps, t);
    BarredStep(cfg, After(cfg, Do(cfg, s, first), steps), next, t);
  }

  lemma ReportBars(cfg: Config, s: Poller, step: Step)
    requires step.Complete? && Limited(step.result) && Enabled(cfg, s, step)
    ensures Barred(Do(cfg, s, step), ResetAt(step.now, step.result))
  {
    hide CompleteTask, RateLimitResetIn, Starts, Aborts;
  }

  predicate SpacedFrom(s: Poller, t: Instant) { s.phase.InPoll? ==> t <= Due(s) }

  lemma {:induction false} SpacedRun(cfg: Config, s: Poller, steps: seq<Step>, t: Instant)
    requires SpacedFrom(s, t) && Possible(cfg, s, steps)
    requires forall k :: 0 <= k < |steps| ==> !steps[k].Begin?
    ensures SpacedFrom(After(cfg, s, steps), t)
    decreases |steps|
  {
    hide CompleteTask, RateLimitResetIn, Starts, Aborts, Bootstrap;
    if steps != [] {
      SpacedRun(cfg, Do(cfg, s, steps[0]), steps[1..], t);
    }
  }

  /** Two requests of one poll are released at least the interval apart, whatever happens between them. */
  lemma ReleasesApart(cfg: Config, s: Poller, first: Step, steps: seq<Step>, next: Step)
    requires first.Issue? && Enabled(cfg, s, first) && cfg.interval.Some?
    requires Possible(cfg, Do(cfg, s, first), steps) && forall k :: 0 <= k < |steps| ==> !steps[k].Begin?
    requires next.Issue? && Enabled(cfg, After(cfg, Do(cfg, s, first), steps), next)
    ensures first.now + cfg.interval.value <= next.now
  {
    SpacedRun(cfg, Do(cfg, s, first), steps, first.now + cfg.interval.value);
  }

  // ---------------------------------------------------------------- starts

  predicate OneAtATime(cfg: Config) { cfg.maxConcurrency <= 1 || cfg.maxRequests <= 1 }

  /** Requests that start are spaced as soon as at most one is in flight, or there is nothing to space. */
  predicate StartSpacingKept(cfg: Config, s: Poller) {
    && Spaced(cfg, Start, s.log)
    && (s.phase.InPoll? ==>
          if Interval(cfg) == 0 then SpacedBy(cfg, Start, s.log, s.clock)
          else if s.work.waiting == [] then SpacedBy(cfg, Start, s.log, Due(s))
          else SpacedBy(cfg, Start, s.log, s.clock) && s.clock + Interval(cfg) <= Due(s))
  }

  predicate InFlightBound(cfg: Config, s: Poller) {
    s.phase.InPoll? ==>
      && s.work.InFlight() <= Max(cfg.maxConcurrency, 1) && s.work.InFlight() <= s.work.issued <= cfg.maxRequests
      && (s.work.flying != [] ==> s.work.InFlight() < s.work.issued)
  }

  lemma InFlightFacts(cfg: Config, s: Poller)
    requires T.Inv(cfg, s)
    ensures InFlightBound(cfg, s)
  {
  }

  lemma SoloWaiting(cfg: Config, s: Poller, step: Step)
    requires OneAtATime(cfg) && InFlightBound(cfg, s) && step.Complete? && Enabled(cfg, s, step)
    ensures step.k == |s.work.waiting| <= 1
    ensures CompleteTask(cfg, s.work, step.k, step.i, step.result).waiting == []
  {
  }

  lemma StartSpacingStep(cfg: Config, s: Poller, step: Step)
    requires OneAtATime(cfg) || Interval(cfg) == 0
    requires StartSpacingKept(cfg, s) && InFlightBound(cfg, s) && Enabled(cfg, s, step)
    ensures StartSpacingKept(cfg, Do(cfg, s, step))
  {
    hide Spaced, SpacedBy, Starts, CompleteTask, RateLimitResetIn, Aborts;
    var s' := Do(cfg, s, step);
    if step.Begin? {
      SnocSpaced(cfg, Start, s.log, PollBegan, Due(s'));
      SnocSpaced(cfg, Start, s.log, PollBegan, s'.clock);
    } else if step.Issue? {
      assert Interval(cfg) > 0 ==> s.work.waiting == [];
      LaterSpaced(cfg, Start, s.log, if Interval(cfg) == 0 then s.clock else Due(s), step.now);
      SnocSpaced(cfg, Start, s.log, Issued(step.now), step.now);
    } else if step.Complete? {
      CompleteSpacing(cfg, s, step);
    }
  }

  lemma CompleteSpacing(cfg: Config, s: Poller, step: Step)
    requires OneAtATime(cfg) || Interval(cfg) == 0
    requires StartSpacingKept(cfg, s) && InFlightBound(cfg, s) && step.Complete? && Enabled(cfg, s, step)
    ensures StartSpacingKept(cfg, Do(cfg, s, step))
  {
    hide Spaced, SpacedBy, Starts, CompleteTask, RateLimitResetIn, Aborts, InFlightBound, OneAtATime;
    var s' := Do(cfg, s, step);
    if Interval(cfg) == 0 {
      CompleteEvents(cfg, s, step, s.clock, s'.clock);
    } else {
      SoloWaiting(cfg, s, step);
      CompleteEvents(cfg, s, step, if s.work.waiting == [] then Due(s) else s.clock, Due(s'));
    }
  }

  lemma CompleteEvents(cfg: Config, s: Poller, step: Step, t: Instant, t': Instant)
    requires step.Complete? && Enabled(cfg, s, step) && (step.k <= 1 || Interval(cfg) == 0) && t <= t'
    requires Spaced(cfg, Start, s.log) && SpacedBy(cfg, Start, s.log, t)
    requires step.k > 0 ==> SpacedBy(cfg, Start, s.log, s.clock) && s.clock + Interval(cfg) <= t'
    ensures Spaced(cfg, Start, Do(cfg, s, step).log) && SpacedBy(cfg, Start, Do(cfg, s, step).log, t')
  {
    hide Spaced, SpacedBy, Starts, CompleteTask, RateLimitResetIn, Aborts, Enabled;
    LaterSpaced(cfg, Start, s.log, t, t');
    StartsSpaced(cfg, Start, s.log, step.k, s.clock, t');
    if Limited(step.result) {
      SnocSpaced(cfg, Start, s.log + Starts(step.k, s.clock), Reset(ResetAt(step.now, step.result)), t');
    }
  }

  lemma {:induction false} RunStartSpacing(cfg: Config, s: Poller, steps: seq<Step>)
    requires OneAtATime(cfg) || Interval(cfg) == 0
    requires StartSpacingKept(cfg, s) && T.Inv(cfg, s) && Possible(cfg, s, steps)
    ensures Spaced(cfg, Start, After(cfg, s, steps).log)
    decreases |steps|
  {
    hide T.Inv, Enabled, Do, Spaced, SpacedBy;
    if steps != [] {
      InFlightFacts(cfg, s);
      StartSpacingStep(cfg, s, steps[0]);
      T.StepKeeps(cfg, s, steps[0]);
      RunStartSpacing(cfg, Do(cfg, s, steps[0]), steps[1..]);
    }
  }

  lemma ReachableStep(cfg: Config, s: Poller, step: Step)
    requires Reachable(cfg, s) && Enabled(cfg, s, step)
    ensures Reachable(cfg, Do(cfg, s, step))
  {
    hide Enabled, Do;
    var now, steps :| Possible(cfg, New(now), steps) && s == After(cfg, New(now), steps);
    PossibleSnoc(cfg, New(now), steps, step);
    assert Possible(cfg, New(now), steps + [step]);
  }

  lemma ReachableNew(cfg: Config)
    ensures Reachable(cfg, New(0))
  {
    assert Possible(cfg, New(0), []) && After(cfg, New(0), []) == New(0);
  }

  function TwoRequests(): DriverOutput {
    DriverOutput("", [Spec("http://a", Pipeline), Spec("http://b", Pipeline)])
  }

  /** Both requests of the bootstrap are released an interval apart and then start at the same instant. */
  lemma BothStartAtOnce(cfg: Config) returns (s: Poller)
    requires cfg.maxConcurrency >= 2 && cfg.maxRequests >= 2 && Interval(cfg) > 0
    ensures Reachable(cfg, s) && !Spaced(cfg, Start, s.log)
  {
    var gap := Interval(cfg);
    s := BothReleased(cfg);
    var last := Complete(gap, 2, 0, Failed);
    var log := s.log;
    ReachableStep(cfg, s, last);
    s := Do(cfg, s, last);
    assert s.log == log + [Started(gap), Started(gap)];
    assert s.log[3..4] == [Started(gap)];
    assert SamePoll(s.log, 3, 4);
  }

  /** Two requests pushed, none started. */
  lemma BothReleased(cfg: Config) returns (s: Poller)
    requires cfg.maxConcurrency >= 2 && cfg.maxRequests >= 2
    ensures Reachable(cfg, s) && s.phase.InPoll? && s.clock == Interval(cfg) && |s.log| == 3
    ensures var call := Call(None, 0, Some(TwoRequests()));
            s.work == Bootstrap(TwoRequests()).(queue := [], waiting := TasksOf(call), issued := 2)
  {
    var gap := Interval(cfg);
    ReachableNew(cfg);
    var begin := Begin(0, Some(TwoRequests()));
    ReachableStep(cfg, New(0), begin);
    var s1 := Do(cfg, New(0), begin);
    ReachableStep(cfg, s1, Issue(0));
    var s2 := Do(cfg, s1, Issue(0));
    ReachableStep(cfg, s2, Issue(gap));
    s := Do(cfg, s2, Issue(gap));
    assert s.log == [PollBegan, Issued(0), Issued(gap)];
    var ts := TasksOf(Call(None, 0, Some(TwoRequests())));
    assert ts == [ts[0], ts[1]];
    assert s.work.waiting == ts && s.work.queue == [];
  }

  /**
   * The minimum interval between request starts: guaranteed exactly when requests go one at a time,
   * or no interval is configured. With more than one slot, requests released an interval apart are only
   * started together once the in-flight set is awaited.
   */
  lemma StartSpacingExactlyWhen(cfg: Config)
    ensures (forall s :: Reachable(cfg, s) ==> Spaced(cfg, Start, s.log)) <==>
              cfg.maxConcurrency <= 1 || cfg.maxRequests <= 1 || Interval(cfg) == 0
  {
    if OneAtATime(cfg) || Interval(cfg) == 0 {
      forall s | Reachable(cfg, s)
        ensures Spaced(cfg, Start, s.log)
      {
        var now, steps :| Possible(cfg, New(now), steps) && s == After(cfg, New(now), steps);
        RunStartSpacing(cfg, New(now), steps);
      }
    } else {
      var s := BothStartAtOnce(cfg);
    }
  }

  /** Nothing waiting to start was released before a reset that is still ahead. */
  predicate StartResetsKept(s: Poller) {
    AfterResets(Start, s.log) && (s.phase.InPoll? && s.work.waiting != [] ==> ResetsBy(s.log, s.clock))
  }

  lemma StartResetsStep(cfg: Config, s: Poller, step: Step)
    requires cfg.maxConcurrency <= 1 || cfg.maxRequests <= 2
    requires StartResetsKept(s) && ResetsKept(s) && InFlightBound(cfg, s) && Enabled(cfg, s, step)
    ensures StartResetsKept(Do(cfg, s, step))
  {
    if step.Complete? {
      hide StartResetsKept, ResetsKept, Do;
      CompleteStartResets(cfg, s, step);
    } else {
      hide AfterResets, ResetsBy, InFlightBound;
      var s' := Do(cfg, s, step);
      if step.Begin? {
        SnocResets(Start, s.log, PollBegan, s'.clock);
      } else if step.Issue? {
        LaterResets(s.log, Due(s), step.now);
        SnocResets(Start, s.log, Issued(step.now), step.now);
      }
    }
  }

  lemma CompleteStartResets(cfg: Config, s: Poller, step: Step)
    requires cfg.maxConcurrency <= 1 || cfg.maxRequests <= 2
    requires StartResetsKept(s) && InFlightBound(cfg, s) && step.Complete? && Enabled(cfg, s, step)
    ensures StartResetsKept(Do(cfg, s, step))
  {
    hide AfterResets, ResetsBy, Starts, RateLimitResetIn, CompleteTask, Aborts, InFlightBound;
    CompleteWaiting(cfg, s, step);
    StartsResets(Start, s.log, step.k, s.clock, s.clock);
    if Limited(step.result) {
      SnocResets(Start, s.log + Starts(step.k, s.clock), Reset(ResetAt(step.now, step.result)), s.clock);
    }
  }

  /** With so few requests, a response leaves none waiting to start. */
  lemma CompleteWaiting(cfg: Config, s: Poller, step: Step)
    requires cfg.maxConcurrency <= 1 || cfg.maxRequests <= 2
    requires InFlightBound(cfg, s) && step.Complete? && Enabled(cfg, s, step)
    ensures var waiting' := CompleteTask(cfg, s.work, step.k, step.i, step.result).waiting;
            && waiting' == s.work.waiting[step.k..]
            && (waiting' != [] ==> step.result.Failed? && step.now == s.clock)
            && (step.k > 0 ==> s.work.waiting != [])
  {
  }

  lemma {:induction false} RunStartResets(cfg: Config, s: Poller, steps: seq<Step>)
    requires cfg.maxConcurrency <= 1 || cfg.maxRequests <= 2
    requires StartResetsKept(s) && ResetsKept(s) && T.Inv(cfg, s) && Possible(cfg, s, steps)
    ensures AfterResets(Start, After(cfg, s, steps).log)
    decreases |steps|
  {
    hide T.Inv, Enabled, Do, AfterResets, ResetsBy;
    if steps != [] {
      InFlightFacts(cfg, s);
      StartResetsStep(cfg, s, steps[0]);
      ResetsStep(cfg, s, steps[0]);
      T.StepKeeps(cfg, s, steps[0]);
      RunStartResets(cfg, Do(cfg, s, steps[0]), steps[1..]);
    }
  }

  /** A response with no budget left, to be waited out for two seconds. */
  function Spent(status: nat): Result { Got(Response(status, Some(0), Some(1)), 0, None) }

  /** The first of two requests under way is refused and goes back to the queue. */
  lemma FirstRefused(cfg: Config) returns (s: Poller)
    requires cfg.maxConcurrency >= 2 && cfg.maxRequests >= 3
    ensures Reachable(cfg, s) && s.phase.InPoll? && |s.work.queue| == 1 && |s.work.flying| == 1
    ensures s.work.waiting == [] && s.work.issued == 2
  {
    var s0 := BothReleased(cfg);
    var refuse := Complete(s0.clock, 2, 0, Spent(403));
    ReachableStep(cfg, s0, refuse);
    s := Do(cfg, s0, refuse);
  }

  /** It is released again once the pause is over, while the other one is still under way. */
  lemma ReleasedAgain(cfg: Config) returns (s: Poller)
    requires cfg.maxConcurrency >= 2 && cfg.maxRequests >= 3
    ensures Reachable(cfg, s) && s.phase.InPoll? && s.work.queue == [] && |s.work.flying| == 1 && |s.work.waiting| == 1
  {
    var s1 := FirstRefused(cfg);
    hide Reachable;
    var again := Issue(Later(s1.nextAllowed, s1.clock).value);
    ReachableStep(cfg, s1, again);
    s := Do(cfg, s1, again);
  }

  lemma AnswerLeavesWaiting(cfg: Config, s: Poller)
    requires s.phase.InPoll? && s.work.queue == [] && |s.work.flying| == 1 && |s.work.waiting| == 1
    ensures Enabled(cfg, s, Complete(s.clock, 0, 0, Spent(200)))
    ensures var s' := Do(cfg, s, Complete(s.clock, 0, 0, Spent(200)));
            && s'.phase.InPoll? && s'.work.queue == [] && s'.work.flying == [] && s'.work.waiting == s.work.waiting
            && s'.log == s.log + [Reset(s.clock + 2 * SECOND)] && s'.clock == s.clock
  {
    assert s.log + Starts(0, s.clock) == s.log;
  }

  lemma LastStarts(cfg: Config, s: Poller)
    requires s.phase.InPoll? && s.work.queue == [] && s.work.flying == [] && |s.work.waiting| == 1
    ensures Enabled(cfg, s, Complete(s.clock, 1, 0, Failed))
    ensures Do(cfg, s, Complete(s.clock, 1, 0, Failed)).log == s.log + [Started(s.clock)]
  {
    assert Starts(1, s.clock) == [Started(s.clock)];
  }

  /** A request released after one reset is still waiting to start when another response reports the next. */
  lemma StartsBeforeReset(cfg: Config) returns (s: Poller)
    requires cfg.maxConcurrency >= 2 && cfg.maxRequests >= 3
    ensures Reachable(cfg, s) && !AfterResets(Start, s.log)
  {
    hide Reachable, Enabled, Do;
    var s2 := ReleasedAgain(cfg);
    AnswerLeavesWaiting(cfg, s2);
    var answer := Complete(s2.clock, 0, 0, Spent(200));
    ReachableStep(cfg, s2, answer);
    var s3 := Do(cfg, s2, answer);
    LastStarts(cfg, s3);
    ReachableStep(cfg, s3, Complete(s3.clock, 1, 0, Failed));
    s := Do(cfg, s3, Complete(s3.clock, 1, 0, Failed));
    assert s.log[|s2.log|] == Reset(s2.clock + 2 * SECOND) && s.log[|s2.log| + 1] == Started(s2.clock);
  }

  /** No request starts before a reset reported earlier: guaranteed exactly with one slot or at most two requests. */
  lemma StartAfterResetsExactlyWhen(cfg: Config)
    ensures (forall s :: Reachable(cfg, s) ==> AfterResets(Start, s.log)) <==>
              cfg.maxConcurrency <= 1 || cfg.maxRequests <= 2
  {
    if cfg.maxConcurrency <= 1 || cfg.maxRequests <= 2 {
      forall s | Reachable(cfg, s)
        ensures AfterResets(Start, s.log)
      {
        var now, steps :| Possible(cfg, New(now), steps) && s == After(cfg, New(now), steps);
        RunStartResets(cfg, New(now), steps);
      }
    } else {
      var s := StartsBeforeReset(cfg);
    }
  }
}
