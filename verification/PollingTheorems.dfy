/** What every life of the polling source keeps: the request budget, the fate of every task, the outcome of a poll. */
module PollingTheorems {
  import opened Prelude
  import opened Polling

  // ---------------------------------------------------------------- specification of the histories

  function AllTasks(calls: seq<Call>): seq<Task> {
    if calls == [] then [] else AllTasks(calls[..|calls| - 1]) + TasksOf(calls[|calls| - 1])
  }

  function Select(p: Handled -> bool, hs: seq<Handled>): seq<Handled> {
    if hs == [] then []
    else
      var rest := Select(p, hs[..|hs| - 1]);
      if p(hs[|hs| - 1]) then rest + [hs[|hs| - 1]] else rest
  }

  function TasksIn(hs: seq<Handled>): seq<Task> { seq(|hs|, j requires 0 <= j < |hs| => hs[j].task) }

  function Parents(calls: seq<Call>): seq<Option<Task>> {
    seq(|calls|, j requires 0 <= j < |calls| => calls[j].parent)
  }

  function Somes(ts: seq<Task>): seq<Option<Task>> { seq(|ts|, j requires 0 <= j < |ts| => Some(ts[j])) }

  function Count(ts: seq<Task>, t: Task): nat { multiset(ts)[t] }

  /** How many copies of `t` are queued, pushed, under way, failed, handled or dropped. */
  function Places(w: Work, t: Task): nat {
    Count(w.queue, t) + Count(w.waiting, t) + Count(w.flying, t) + Count(w.failed, t)
    + Count(TasksIn(w.handled), t) + Count(w.dropped, t)
  }

  /** Every task ever created is in exactly one place. */
  ghost predicate Conserved(w: Work) {
    forall t :: Count(w.created, t) == Places(w, t)
  }

  predicate Bounded(cfg: Config, w: Work) {
    && w.issued <= cfg.maxRequests
    && w.InFlight() <= Concurrency(cfg)
    && w.InFlight() + |w.failed| + |w.handled| <= w.issued
    && (w.flying != [] ==> w.InFlight() < w.issued)
    && (w.dropped != [] ==> w.issued == cfg.maxRequests)
    && (w.issued > 0 ==> w.created != [])
  }

  /** The driver is asked once for the bootstrap, then once per 2xx response that is routed back and not too deep. */
  predicate CallsMatch(cfg: Config, w: Work) {
    && w.calls != []
    && w.calls[0].parent.None? && w.calls[0].depth == 0
    && Parents(w.calls[1..]) == Somes(TasksIn(Select(h => GoesBack(cfg, h), w.handled)))
    && (forall j :: 0 < j < |w.calls| ==>
          w.calls[j].parent.Some? && w.calls[j].depth == w.calls[j].parent.value.depth + 1 <= cfg.maxDepth)
  }

  predicate Recorded(cfg: Config, w: Work) {
    && w.created == AllTasks(w.calls)
    && w.emitted == Select(GoesOut, w.handled)
    && w.progressed == |Select(h => Progresses(cfg, h), w.handled)|
  }

  ghost predicate Sound(cfg: Config, w: Work) {
    Conserved(w) && Bounded(cfg, w) && CallsMatch(cfg, w) && Recorded(cfg, w)
  }

  // ---------------------------------------------------------------- each change of the worklist keeps them

  lemma CountConcat(a: seq<Task>, b: seq<Task>, t: Task)
    ensures Count(a + b, t) == Count(a, t) + Count(b, t)
  {
  }

  lemma CountTake(s: seq<Task>, i: nat, t: Task)
    requires i < |s|
    ensures Count(s, t) == Count(s[..i] + s[i + 1..], t) + Count([s[i]], t)
  {
    assert s == s[..i] + ([s[i]] + s[i + 1..]);
  }

  lemma TakeOutConserves(w: Work, k: nat, i: nat, t: Task)
    requires k <= |w.waiting| && i < |w.flying| + k
    ensures var (w', task) := TakeOut(w, k, i);
            Count(w.waiting, t) + Count(w.flying, t) == Count(w'.waiting, t) + Count(w'.flying, t) + Count([task], t)
  {
    hide Count;
    assert w.waiting == w.waiting[..k] + w.waiting[k..];
    CountConcat(w.waiting[..k], w.waiting[k..], t);
    CountConcat(w.flying, w.waiting[..k], t);
    CountTake(w.flying + w.waiting[..k], i, t);
  }

  lemma SelectSnoc(p: Handled -> bool, hs: seq<Handled>, h: Handled)
    ensures Select(p, hs + [h]) == Select(p, hs) + if p(h) then [h] else []
  {
    assert (hs + [h])[..|hs|] == hs;
  }

  lemma TasksInSnoc(hs: seq<Handled>, h: Handled)
    ensures TasksIn(hs + [h]) == TasksIn(hs) + [h.task]
    ensures Somes(TasksIn(hs + [h])) == Somes(TasksIn(hs)) + [Some(h.task)]
  {
  }

  lemma HandleKeeps(cfg: Config, w: Work, h: Handled, fed: Option<DriverOutput>)
    requires CallsMatch(cfg, w) && Recorded(cfg, w)
    ensures CallsMatch(cfg, Handle(cfg, w, h, fed)) && Recorded(cfg, Handle(cfg, w, h, fed))
  {
    SelectSnoc(GoesOut, w.handled, h);
    SelectSnoc(x => Progresses(cfg, x), w.handled, h);
    SelectSnoc(x => GoesBack(cfg, x), w.handled, h);
    var w' := Handle(cfg, w, h, fed);
    if GoesBack(cfg, h) {
      var call := Call(Some(h.task), h.task.depth + 1, fed);
      TasksInSnoc(Select(x => GoesBack(cfg, x), w.handled), h);
      assert w'.calls == w.calls + [call] && w'.calls[..|w.calls|] == w.calls;
      assert Parents(w'.calls[1..]) == Parents(w.calls[1..]) + [Some(h.task)];
    }
  }

  function Fed(cfg: Config, h: Handled, fed: Option<DriverOutput>): seq<Task> {
    if GoesBack(cfg, h) then TasksOf(Call(Some(h.task), h.task.depth + 1, fed)) else []
  }

  lemma HandleEffect(cfg: Config, w: Work, h: Handled, fed: Option<DriverOutput>)
    ensures var w' := Handle(cfg, w, h, fed);
            && w'.created == w.created + Fed(cfg, h, fed) && w'.queue == w.queue + Fed(cfg, h, fed)
            && w'.handled == w.handled + [h]
            && w'.waiting == w.waiting && w'.flying == w.flying && w'.failed == w.failed && w'.dropped == w.dropped
            && w'.issued == w.issued
  {
  }

  lemma CompleteConserves(cfg: Config, w: Work, k: nat, i: nat, r: Result)
    requires Conserved(w) && k <= |w.waiting| && i < |w.flying| + k
    ensures Conserved(CompleteTask(cfg, w, k, i, r))
  {
    forall t
      ensures Count(CompleteTask(cfg, w, k, i, r).created, t) == Places(CompleteTask(cfg, w, k, i, r), t)
    {
      CompleteConservesOne(cfg, w, k, i, r, t);
    }
  }

  lemma CompleteConservesOne(cfg: Config, w: Work, k: nat, i: nat, r: Result, t: Task)
    requires Count(w.created, t) == Places(w, t) && k <= |w.waiting| && i < |w.flying| + k
    ensures Count(CompleteTask(cfg, w, k, i, r).created, t) == Places(CompleteTask(cfg, w, k, i, r), t)
  {
    hide TakeOut, Handle, TasksIn, Refused, Fed, Count;
    TakeOutConserves(w, k, i, t);
    TakeOutRest(w, k, i);
    var (w1, task) := TakeOut(w, k, i);
    if r.Got? && !Refused(r) {
      var h := Handled(task, r.response.status, Limited(r));
      HandleEffect(cfg, w1, h, r.fed);
      CountConcat(w.created, Fed(cfg, h, r.fed), t);
      CountConcat(w.queue, Fed(cfg, h, r.fed), t);
      TasksInSnoc(w.handled, h);
      CountConcat(TasksIn(w.handled), [task], t);
    } else if r.Got? {
      CountConcat([task], w1.queue, t);
    } else {
      CountConcat(w.failed, [task], t);
    }
  }

  lemma TakeOutRest(w: Work, k: nat, i: nat)
    requires k <= |w.waiting| && i < |w.flying| + k
    ensures var (w', _) := TakeOut(w, k, i);
            w' == w.(waiting := w'.waiting, flying := w'.flying)
  {
  }

  lemma CompleteBounds(cfg: Config, w: Work, k: nat, i: nat, r: Result)
    requires Bounded(cfg, w) && k <= |w.waiting| && i < |w.flying| + k
    ensures Bounded(cfg, CompleteTask(cfg, w, k, i, r))
  {
  }

  lemma CompleteMatches(cfg: Config, w: Work, k: nat, i: nat, r: Result)
    requires CallsMatch(cfg, w) && Recorded(cfg, w) && k <= |w.waiting| && i < |w.flying| + k
    ensures CallsMatch(cfg, CompleteTask(cfg, w, k, i, r)) && Recorded(cfg, CompleteTask(cfg, w, k, i, r))
  {
    var (w1, task) := TakeOut(w, k, i);
    assert CallsMatch(cfg, w1) && Recorded(cfg, w1) by { hide Select, AllTasks; }
    hide TakeOut, Handle, Select, AllTasks;
    if r.Got? && !Refused(r) {
      HandleKeeps(cfg, w1, Handled(task, r.response.status, Limited(r)), r.fed);
    }
  }

  lemma CompleteKeeps(cfg: Config, w: Work, k: nat, i: nat, r: Result)
    requires Sound(cfg, w) && k <= |w.waiting| && i < |w.flying| + k
    ensures Sound(cfg, CompleteTask(cfg, w, k, i, r))
  {
    hide Conserved, Bounded, CallsMatch, Recorded, CompleteTask;
    CompleteConserves(cfg, w, k, i, r);
    CompleteBounds(cfg, w, k, i, r);
    CompleteMatches(cfg, w, k, i, r);
  }

  lemma IssueConserves(w: Work)
    requires Conserved(w) && w.queue != []
    ensures Conserved(IssueTask(w)) && w.created != []
  {
    assert w.queue == [w.queue[0]] + w.queue[1..];
    assert Count(w.created, w.queue[0]) == Places(w, w.queue[0]) > 0;
    hide TasksIn, Count;
    forall t
      ensures Count(IssueTask(w).created, t) == Places(IssueTask(w), t)
    {
      CountConcat([w.queue[0]], w.queue[1..], t);
      CountConcat(w.waiting, [w.queue[0]], t);
      assert Count(w.created, t) == Places(w, t);
    }
  }

  lemma IssueKeeps(cfg: Config, w: Work)
    requires Sound(cfg, w) && w.queue != [] && HasRoom(cfg, w) && w.issued < cfg.maxRequests
    ensures Sound(cfg, IssueTask(w))
  {
    hide Select, AllTasks, TasksIn, Conserved;
    IssueConserves(w);
  }

  lemma DropConserves(w: Work)
    requires Conserved(w)
    ensures Conserved(DropRest(w))
  {
    hide TasksIn, Count;
    forall t
      ensures Count(DropRest(w).created, t) == Places(DropRest(w), t)
    {
      CountConcat(w.dropped, w.queue, t);
      CountNone(t);
      assert Count(w.created, t) == Places(w, t);
    }
  }

  lemma CountNone(t: Task)
    ensures Count([], t) == 0
  {
  }

  lemma DropKeeps(cfg: Config, w: Work)
    requires Sound(cfg, w) && w.issued >= cfg.maxRequests
    ensures Sound(cfg, DropRest(w))
  {
    hide Select, AllTasks, TasksIn, Conserved;
    DropConserves(w);
  }

  lemma BootstrapSound(cfg: Config, out: DriverOutput)
    ensures Sound(cfg, Bootstrap(out))
  {
    var w := Bootstrap(out);
    assert w.calls[..0] == [];
    assert AllTasks(w.calls) == [] + TasksOf(w.calls[0]);
  }

  // ---------------------------------------------------------------- every reachable state

  ghost predicate Inv(cfg: Config, s: Poller) {
    && (s.phase.InPoll? ==> Sound(cfg, s.work))
    && (s.phase.Stopped? ==> Sound(cfg, s.work) && AbortedBy(cfg, s.work))
    && (s.phase.Idle? && s.phase.last.Some? ==> s.phase.last.value.HoldWindow? || s.phase.last.value.Advance?)
  }

  /** The last response handled was a non-2xx one that resolves to abort and is no rate-limit refusal. */
  predicate AbortedBy(cfg: Config, w: Work) {
    w.handled != [] && var last := w.handled[|w.handled| - 1];
    !Success(last.status) && !last.limited && Resolve(cfg, last.status).Abort?
  }

  lemma StepKeeps(cfg: Config, s: Poller, step: Step)
    requires Inv(cfg, s) && Enabled(cfg, s, step)
    ensures Inv(cfg, Do(cfg, s, step))
  {
    hide Sound, Bootstrap, IssueTask, DropRest, TakeOut, Resolve, RateLimitResetIn;
    if step.Begin? {
      if step.bootstrap.Some? { BootstrapSound(cfg, step.bootstrap.value); }
    } else if step.Issue? {
      IssueKeeps(cfg, s.work);
    } else if step.Drop? {
      DropKeeps(cfg, s.work);
    } else if step.Complete? {
      CompleteKeeps(cfg, s.work, step.k, step.i, step.result);
    }
  }

  lemma {:induction false} RunKeeps(cfg: Config, s: Poller, steps: seq<Step>)
    requires Inv(cfg, s) && Possible(cfg, s, steps)
    ensures Inv(cfg, After(cfg, s, steps))
    decreases |steps|
  {
    hide Inv, Enabled, Do;
    if steps != [] {
      StepKeeps(cfg, s, steps[0]);
      RunKeeps(cfg, Do(cfg, s, steps[0]), steps[1..]);
    }
  }

  lemma ReachableInv(cfg: Config, s: Poller)
    requires Reachable(cfg, s)
    ensures Inv(cfg, s)
  {
    var now, steps :| Possible(cfg, New(now), steps) && s == After(cfg, New(now), steps);
    RunKeeps(cfg, New(now), steps);
  }

  /**
   * Task conservation: at every moment of every poll each created task is in exactly one of queued, pushed,
   * under way, failed, handled, or dropped by the budget; and what was created is exactly what the driver
   * calls returned, in order, each task carrying the request, the state and the depth of its own call, one
   * deeper than the response the call was made for.
   */
  lemma TaskConservation(cfg: Config, s: Poller)
    requires Reachable(cfg, s) && (s.phase.InPoll? || s.phase.Stopped?)
    ensures Conserved(s.work) && s.work.created == AllTasks(s.work.calls)
    ensures forall t :: t in s.work.created ==> t.depth <= cfg.maxDepth
    ensures forall t :: t in s.work.created <==> exists call :: call in s.work.calls && Returned(call, t)
    ensures forall c :: 0 <= c < |s.work.calls| ==>
              s.work.calls[c].depth == if c == 0 then 0 else DepthOf(s.work.calls[c].parent) + 1
  {
    ReachableInv(cfg, s);
    hide Conserved, Bounded, Recorded;
    CreatedDepths(cfg, s.work.calls);
    CreatedOrigin(s.work.calls);
  }

  function DepthOf(parent: Option<Task>): int { if parent.Some? then parent.value.depth else -1 }

  /** `t` is one of the requests the call returned, with the state it returned, at its depth. */
  ghost predicate Returned(call: Call, t: Task) {
    && call.output.Some?
    && exists j :: 0 <= j < |call.output.value.requests|
         && t == Task(call.output.value.requests[j], call.output.value.state, call.depth)
  }

  lemma TasksOfReturned(call: Call, t: Task)
    ensures t in TasksOf(call) <==> Returned(call, t)
  {
    if Returned(call, t) {
      var j :| 0 <= j < |call.output.value.requests|
        && t == Task(call.output.value.requests[j], call.output.value.state, call.depth);
      assert TasksOf(call)[j] == t;
    }
  }

  lemma {:induction false} CreatedOrigin(calls: seq<Call>)
    ensures forall t :: t in AllTasks(calls) <==> exists call :: call in calls && Returned(call, t)
  {
    hide TasksOf, Returned;
    if calls != [] {
      var init, last := calls[..|calls| - 1], calls[|calls| - 1];
      CreatedOrigin(init);
      assert calls == init + [last];
      forall t
        ensures t in AllTasks(calls) <==> exists call :: call in calls && Returned(call, t)
      {
        TasksOfReturned(last, t);
      }
    }
  }

  lemma {:induction false} CreatedDepths(cfg: Config, calls: seq<Call>)
    requires forall c :: c in calls ==> c.depth <= cfg.maxDepth
    ensures forall t :: t in AllTasks(calls) ==> t.depth <= cfg.maxDepth
  {
    if calls != [] {
      CreatedDepths(cfg, calls[..|calls| - 1]);
    }
  }

  /** At most `max_requests` requests are issued, and never more than `max_concurrency` at a time. */
  lemma WithinBudget(cfg: Config, s: Poller)
    requires Reachable(cfg, s) && s.phase.InPoll?
    ensures s.work.issued <= cfg.maxRequests && s.work.InFlight() <= Max(cfg.maxConcurrency, 1)
    ensures |s.work.failed| + |s.work.handled| <= s.work.issued
    ensures s.work.dropped != [] ==> s.work.issued == cfg.maxRequests
  {
    ReachableInv(cfg, s);
  }

  /**
   * The driver sees exactly the 2xx responses routed back to it (`feedback` or `both`) at a depth below the
   * limit, once each and in the order they were handled; and exactly the 2xx responses routed to the pipeline
   * (`pipeline` or `both`) go downstream, in that order too.
   */
  lemma Routing(cfg: Config, s: Poller)
    requires Reachable(cfg, s) && (s.phase.InPoll? || s.phase.Stopped?)
    ensures s.work.calls != [] && s.work.calls[0].parent.None?
    ensures s.work.emitted ==
              Select((h: Handled) => 200 <= h.status < 300 && h.task.spec.route in {Pipeline, Both}, s.work.handled)
    ensures Parents(s.work.calls[1..]) ==
              Somes(TasksIn(Select((h: Handled) => 200 <= h.status < 300 && h.task.spec.route in {Feedback, Both}
                                                   && h.task.depth < cfg.maxDepth, s.work.handled)))
    ensures forall h :: h in s.work.emitted <==>
              && h in s.work.handled && 200 <= h.status <= 299
              && (h.task.spec.route == Pipeline || h.task.spec.route == Both)
    ensures forall t :: Some(t) in Parents(s.work.calls) <==>
              exists h :: h in s.work.handled && h.task == t && 200 <= h.status <= 299
                && (t.spec.route == Feedback || t.spec.route == Both) && t.depth < cfg.maxDepth
  {
    ReachableInv(cfg, s);
    hide Inv, Conserved, Bounded;
    RoutingOf(cfg, s.work);
  }

  lemma RoutingOf(cfg: Config, w: Work)
    requires CallsMatch(cfg, w) && Recorded(cfg, w)
    ensures w.emitted ==
              Select((h: Handled) => 200 <= h.status < 300 && h.task.spec.route in {Pipeline, Both}, w.handled)
    ensures Parents(w.calls[1..]) ==
              Somes(TasksIn(Select((h: Handled) => 200 <= h.status < 300 && h.task.spec.route in {Feedback, Both}
                                                   && h.task.depth < cfg.maxDepth, w.handled)))
    ensures forall h :: h in w.emitted <==>
              h in w.handled && 200 <= h.status <= 299 && (h.task.spec.route == Pipeline || h.task.spec.route == Both)
    ensures forall t :: Some(t) in Parents(w.calls) <==>
              exists h :: h in w.handled && h.task == t && 200 <= h.status <= 299
                && (t.spec.route == Feedback || t.spec.route == Both) && t.depth < cfg.maxDepth
  {
    var out := (h: Handled) => 200 <= h.status < 300 && h.task.spec.route in {Pipeline, Both};
    var back := (h: Handled) => 200 <= h.status < 300 && h.task.spec.route in {Feedback, Both}
                                && h.task.depth < cfg.maxDepth;
    RouteMeans();
    SelectSame(GoesOut, out, w.handled);
    SelectSame(h => GoesBack(cfg, h), back, w.handled);
    SelectMembers(out, w.handled);
    SelectMembers(back, w.handled);
    ParentsMembers(w.calls, Select(back, w.handled));
  }

  lemma RouteMeans()
    ensures forall r: Route :: r.Emits() <==> r == Pipeline || r == Both
    ensures forall r: Route :: r.FeedsBack() <==> r == Feedback || r == Both
  {
  }

  lemma ParentsMembers(calls: seq<Call>, hs: seq<Handled>)
    requires calls != [] && calls[0].parent.None? && Parents(calls[1..]) == Somes(TasksIn(hs))
    ensures forall t :: Some(t) in Parents(calls) <==> exists h :: h in hs && h.task == t
  {
    assert Parents(calls) == [None] + Parents(calls[1..]);
    forall t
      ensures Some(t) in Parents(calls) <==> exists h :: h in hs && h.task == t
    {
      if Some(t) in Parents(calls[1..]) {
        var j :| 0 <= j < |hs| && Somes(TasksIn(hs))[j] == Some(t);
        assert hs[j].task == t;
      }
      if h :| h in hs && h.task == t {
        var j :| 0 <= j < |hs| && hs[j] == h;
        assert Somes(TasksIn(hs))[j] == Some(t);
      }
    }
  }

  lemma {:induction false} SelectSame(p: Handled -> bool, q: Handled -> bool, hs: seq<Handled>)
    requires forall h :: p(h) == q(h)
    ensures Select(p, hs) == Select(q, hs)
  {
    if hs != [] { SelectSame(p, q, hs[..|hs| - 1]); }
  }

  lemma {:induction false} SelectMembers(p: Handled -> bool, hs: seq<Handled>)
    ensures forall h :: h in Select(p, hs) <==> h in hs && p(h)
  {
    if hs != [] {
      SelectMembers(p, hs[..|hs| - 1]);
      assert hs == hs[..|hs| - 1] + [hs[|hs| - 1]];
    }
  }

  lemma {:induction false} SelectNone(p: Handled -> bool, hs: seq<Handled>)
    ensures Select(p, hs) == [] <==> forall h :: h in hs ==> !p(h)
  {
    if hs != [] {
      SelectNone(p, hs[..|hs| - 1]);
      assert hs == hs[..|hs| - 1] + [hs[|hs| - 1]];
    }
  }

  /**
   * The outcome of a poll that ran to its end: nothing is left over, and the window is held exactly when
   * the driver asked for something, the budget allowed a request, and no response was a 2xx or skipped.
   */
  lemma PollOutcome(cfg: Config, s: Poller)
    requires Reachable(cfg, s) && Enabled(cfg, s, Finish)
    ensures multiset(s.work.created) ==
              multiset(s.work.failed) + multiset(TasksIn(s.work.handled)) + multiset(s.work.dropped)
    ensures Do(cfg, s, Finish).phase == Idle(Some(HoldWindow)) <==>
              s.work.created != [] && cfg.maxRequests > 0
              && forall h :: h in s.work.handled ==>
                   !(200 <= h.status <= 299) && !Resolve(cfg, h.status).Skip?
    ensures s.work.queue == []
  {
    ReachableInv(cfg, s);
    var w := s.work;
    SelectNone(h => Progresses(cfg, h), w.handled);
    assert w.queue == [] && w.waiting == [] && w.flying == [];
    var total := multiset(w.failed) + multiset(TasksIn(w.handled)) + multiset(w.dropped);
    forall t: Task
      ensures multiset(w.created)[t] == total[t]
    {
      assert Count(w.created, t) == Places(w, t);
    }
    assert multiset(w.created) == total;
    assert |total| == |w.failed| + |w.handled| + |w.dropped|;
    assert |multiset(w.created)| == |w.created|;
  }

  /** What an entry of `on_status` means: an exact code decides for itself alone, a class for its other codes. */
  lemma OnStatusOverrides(cfg: Config, code: nat, hundreds: nat, b: Behavior, status: nat)
    ensures Resolve(cfg.(onStatus := cfg.onStatus[Exact(code) := b]), status) ==
              if status == code then b else Resolve(cfg, status)
    ensures Resolve(cfg.(onStatus := cfg.onStatus[Class(hundreds) := b]), status) ==
              if status / 100 == hundreds && Exact(status) !in cfg.onStatus then b else Resolve(cfg, status)
    ensures cfg.onStatus == map[] ==>
              && (Resolve(cfg, status).Abort? <==> status in {401, 403})
              && (Resolve(cfg, status).Hold? <==> status >= 500) && !Resolve(cfg, status).Retry?
  {
  }

  /**
   * The source aborts only over a response it was not told to wait out, whose status resolves to abort:
   * without any `on_status` that is a 401 or 403, and a code with an entry of its own only if that says so.
   */
  lemma AbortsOnlyOnPolicy(cfg: Config, s: Poller)
    requires Reachable(cfg, s) && s.phase.Stopped?
    ensures AbortedBy(cfg, s.work) && Conserved(s.work)
    ensures var status := s.work.handled[|s.work.handled| - 1].status;
            && (cfg.onStatus == map[] ==> status in {401, 403})
            && (Exact(status) in cfg.onStatus ==> cfg.onStatus[Exact(status)].Abort?)
  {
    ReachableInv(cfg, s);
    var status := s.work.handled[|s.work.handled| - 1].status;
    OnStatusOverrides(cfg, status, 0, Skip, status);
  }

  /**
   * When the source aborts: exactly over a response that is no 2xx, does not say that the rate limit is spent
   * until an instant ahead, and whose status is to abort by its own entry, else by the entry of its class,
   * else because it is a 401 or a 403.
   */
  lemma AbortsExactlyWhen(cfg: Config, s: Poller, now: Instant, k: nat, i: nat, r: Response, wall: nat,
                          fed: Option<DriverOutput>)
    requires Enabled(cfg, s, Complete(now, k, i, Got(r, wall, fed)))
    ensures var limited := r.remaining.Some? && r.remaining.value <= 0 && r.resetAt.Some? && r.resetAt.value > wall;
            var own, kind := Exact(r.status), Class(r.status / 100);
            Do(cfg, s, Complete(now, k, i, Got(r, wall, fed))).phase.Stopped? <==>
              && !(200 <= r.status <= 299) && !limited
              && (own in cfg.onStatus ==> cfg.onStatus[own].Abort?)
              && (own !in cfg.onStatus && kind in cfg.onStatus ==> cfg.onStatus[kind].Abort?)
              && (own !in cfg.onStatus && kind !in cfg.onStatus ==> r.status == 401 || r.status == 403)
    ensures Do(cfg, s, Complete(now, k, i, Got(r, wall, fed))).phase.Stopped?
            || Do(cfg, s, Complete(now, k, i, Got(r, wall, fed))).phase.InPoll?
  {
    hide CompleteTask, Starts;
  }

  /**
   * What becomes of a response: a 2xx goes downstream and back to the driver as its route says and counts as
   * progress; a refusal over a spent rate limit leaves no trace but its task at the head of the queue; any
   * other response is handled and counts as progress only if it is to be skipped.
   */
  lemma CompletionEffect(cfg: Config, s: Poller, now: Instant, k: nat, i: nat, r: Response, wall: nat,
                         fed: Option<DriverOutput>)
    requires Enabled(cfg, s, Complete(now, k, i, Got(r, wall, fed)))
    ensures var task, w := (s.work.flying + s.work.waiting[..k])[i], s.work;
            var w' := Do(cfg, s, Complete(now, k, i, Got(r, wall, fed))).work;
            var limited := r.remaining.Some? && r.remaining.value <= 0 && r.resetAt.Some? && r.resetAt.value > wall;
            var h := Handled(task, r.status, limited);
            if 200 <= r.status <= 299 then
              && w'.handled == w.handled + [h] && w'.progressed == w.progressed + 1
              && w'.emitted == w.emitted + (if task.spec.route in {Pipeline, Both} then [h] else [])
              && w'.queue == w.queue + if task.spec.route in {Feedback, Both} && task.depth < cfg.maxDepth
                                       then TasksOf(Call(Some(task), task.depth + 1, fed)) else []
            else if limited then
              w'.handled == w.handled && w'.progressed == w.progressed && w'.emitted == w.emitted
              && w'.queue == [task] + w.queue
            else
              && w'.handled == w.handled + [h] && w'.emitted == w.emitted && w'.queue == w.queue
              && w'.progressed == w.progressed + if Resolve(cfg, r.status).Skip? then 1 else 0
  {
    hide Resolve, Starts, TasksOf;
  }

  /** A rate-limited refusal puts its own task back at the head of the queue, unclassified, and the poll goes on. */
  lemma RefusalReturns(cfg: Config, s: Poller, step: Step)
    requires step.Complete? && Enabled(cfg, s, step) && Refused(step.result)
    ensures var task := (s.work.flying + s.work.waiting[..step.k])[step.i];
            var s' := Do(cfg, s, step);
            && s'.work.queue == [task] + s.work.queue && s'.phase.InPoll?
            && s'.work.handled == s.work.handled && s'.work.failed == s.work.failed
            && s'.work.progressed == s.work.progressed && s'.work.calls == s.work.calls
  {
  }

  /**
   * A rate-limited refusal is retried and not judged: whatever happens, the next thing the poll does is to
   * release that very task again, and not before one second past the reset, or an hour if that is sooner;
   * only a spent budget drops it instead.
   */
  lemma RefusedGoesNext(cfg: Config, s: Poller, step: Step, r: Response, next: Step)
    requires Reachable(cfg, s) && step.Complete? && Enabled(cfg, s, step)
    requires step.result.Got? && step.result.response == r && !(200 <= r.status <= 299)
    requires r.remaining.Some? && r.remaining.value <= 0 && r.resetAt.Some? && r.resetAt.value > step.result.wall
    requires Enabled(cfg, Do(cfg, s, step), next)
    ensures var task := (s.work.flying + s.work.waiting[..step.k])[step.i];
            var s' := Do(cfg, s, step);
            if next.Issue? then
              && next.now >= step.now + Min((r.resetAt.value - step.result.wall + 1) * 1_000_000_000, 3_600_000_000_000)
              && Do(cfg, s', next).work.waiting == s'.work.waiting + [task]
            else next.Drop? && s.work.issued == cfg.maxRequests
  {
    ReachableInv(cfg, s);
    RefusalReturns(cfg, s, step);
    TakeOutRest(s.work, step.k, step.i);
  }

  // ---------------------------------------------------------------- termination

  /** How many more steps a poll can take. */
  function Energy(cfg: Config, s: Poller): int {
    if !s.phase.InPoll? then 0
    else
      4 * (cfg.maxRequests - s.work.issued) + 2 * s.work.InFlight() + (if s.work.queue != [] then 1 else 0) + 1
  }

  lemma EnergyFalls(cfg: Config, s: Poller, step: Step)
    requires Enabled(cfg, s, step) && !step.Begin? && s.work.issued <= cfg.maxRequests
    ensures Energy(cfg, Do(cfg, s, step)) < Energy(cfg, s)
  {
    hide CompleteTask, Bootstrap, Resolve, RateLimitResetIn, Refused, Limited, Aborts, Starts;
    if step.Complete? {
      CompleteCounts(cfg, s.work, step.k, step.i, step.result);
    }
  }

  lemma CompleteCounts(cfg: Config, w: Work, k: nat, i: nat, r: Result)
    requires k <= |w.waiting| && i < |w.flying| + k
    ensures var w' := CompleteTask(cfg, w, k, i, r); w'.InFlight() == w.InFlight() - 1 && w'.issued == w.issued
  {
    hide TakeOut, Handle, Refused;
    TakeOutRest(w, k, i);
    var (w1, task) := TakeOut(w, k, i);
    if r.Got? && !Refused(r) {
      HandleEffect(cfg, w1, Handled(task, r.response.status, Limited(r)), r.fed);
    }
  }

  /** A poll that has not ended can always take a step: the engine never waits on nothing. */
  lemma NeverStuck(cfg: Config, s: Poller) returns (step: Step)
    requires Reachable(cfg, s) && s.phase.InPoll?
    ensures Enabled(cfg, s, step) && !step.Begin?
  {
    ReachableInv(cfg, s);
    if !Filled(cfg, s.work) {
      step := if s.work.issued < cfg.maxRequests then Issue(Later(s.nextAllowed, s.clock).value) else Drop;
    } else {
      step := if s.work.InFlight() > 0 then Complete(s.clock, |s.work.waiting|, 0, Failed) else Finish;
    }
  }

  lemma {:induction false} PollEnds(cfg: Config, s: Poller, steps: seq<Step>)
    requires Inv(cfg, s) && Possible(cfg, s, steps) && forall step :: step in steps ==> !step.Begin?
    ensures |steps| <= Energy(cfg, s)
    decreases |steps|
  {
    if steps == [] {
      EnergyNonNegative(cfg, s);
    } else {
      hide Inv;
      EnergyNonNegative(cfg, s);
      StepKeeps(cfg, s, steps[0]);
      EnergyFalls(cfg, s, steps[0]);
      PollEnds(cfg, Do(cfg, s, steps[0]), steps[1..]);
    }
  }

  lemma EnergyNonNegative(cfg: Config, s: Poller)
    requires Inv(cfg, s)
    ensures Energy(cfg, s) >= 0 && (s.phase.InPoll? ==> s.work.issued <= cfg.maxRequests)
  {
  }

  /** A poll ends after at most 4 * max_requests + 2 steps, whatever the driver and the server do. */
  lemma PollTerminates(cfg: Config, s: Poller, first: Step, steps: seq<Step>)
    requires Reachable(cfg, s) && first.Begin? && Enabled(cfg, s, first)
    requires Possible(cfg, Do(cfg, s, first), steps) && forall step :: step in steps ==> !step.Begin?
    ensures |steps| <= 4 * cfg.maxRequests + 2
  {
    ReachableInv(cfg, s);
    StepKeeps(cfg, s, first);
    PollEnds(cfg, Do(cfg, s, first), steps);
  }
}
