/**
 * Transformer chains: events pushed one at a time, depth first, through stages that may keep state, drop,
 * multiply or reject them. VRL programs and JSON pointers are arbitrary functions of the event.
 */
module Transformers {
  import opened Prelude

  datatype Event = Event(metadata: string, headers: map<string, string>, body: string)

  /** What a VRL program makes of an event: a runtime failure, null, or an array. */
  datatype Output = Rejected | Unchanged | Outputs(events: seq<Event>)

  datatype Config =
    | Passthrough
    | Log(target: string)
    | Deduplicate(capacity: nat, key: Event -> Option<string>)
    | DiscardAll
    | Vrl(program: Event -> Output)

  /** A transformer and what it remembers: the keys a deduplicating one has seen, oldest first. */
  datatype Stage = Stage(config: Config, seen: seq<string>)

  // ---------------------------------------------------------------- one stage

  /** A stage's reaction to one event: what it hands on, in order, or a rejection. */
  datatype Reaction = Reaction(stage: Stage, outs: seq<Event>, ok: bool)

  function Evicted(seen: seq<string>, capacity: nat): seq<string> {
    if |seen| >= capacity && seen != [] then seen[1..] else seen
  }

  function React(st: Stage, e: Event): Reaction {
    match st.config
    case Passthrough => Reaction(st, [e], true)
    case Log(_) => Reaction(st, [e], true)
    case DiscardAll => Reaction(st, [], true)
    case Vrl(program) =>
      (match program(e)
       case Rejected => Reaction(st, [], false)
       case Unchanged => Reaction(st, [e], true)
       case Outputs(events) => Reaction(st, events, true))
    case Deduplicate(capacity, key) =>
      if capacity == 0 || key(e).None? then Reaction(st, [e], true)
      else if key(e).value in st.seen then Reaction(st, [], true)
      else Reaction(st.(seen := Evicted(st.seen, capacity) + [key(e).value]), [e], true)
  }

  // ---------------------------------------------------------------- the code's order: depth first

  datatype Sent<S> = Sent(stages: seq<Stage>, state: S, ok: bool)

  /** One event through the chain into the terminal `t`, whose state is `s`. */
  function Send<S>(stages: seq<Stage>, s: S, t: (S, Event) -> (S, bool), e: Event): (r: Sent<S>)
    ensures |r.stages| == |stages|
    decreases |stages|, 0, 0
  {
    if stages == [] then Sent([], t(s, e).0, t(s, e).1)
    else
      var first := React(stages[0], e);
      if !first.ok then Sent([first.stage] + stages[1..], s, false)
      else
        var rest := SendAll(stages[1..], s, t, first.outs);
        Sent([first.stage] + rest.stages, rest.state, rest.ok)
  }

  /** Each event in turn, up to the first that fails. */
  function SendAll<S>(stages: seq<Stage>, s: S, t: (S, Event) -> (S, bool), es: seq<Event>): (r: Sent<S>)
    ensures |r.stages| == |stages|
    decreases |stages|, 1, |es|
  {
    if es == [] then Sent(stages, s, true)
    else
      var one := Send(stages, s, t, es[0]);
      if one.ok then SendAll(one.stages, one.state, t, es[1..]) else one
  }

  // ---------------------------------------------------------------- the meaning: stage by stage

  datatype Stream = Stream(stage: Stage, outs: seq<Event>, ok: bool)

  /** All events through one stage, up to the first it rejects. */
  function Through(st: Stage, es: seq<Event>): Stream
    decreases |es|
  {
    if es == [] then Stream(st, [], true)
    else
      var r := React(st, es[0]);
      if !r.ok then Stream(r.stage, [], false)
      else
        var rest := Through(r.stage, es[1..]);
        Stream(rest.stage, r.outs + rest.outs, rest.ok)
  }

  datatype Layered = Layered(stages: seq<Stage>, outs: seq<Event>, ok: bool)

  /** Left to right: the whole output of each stage is the whole input of the next. */
  function Compose(stages: seq<Stage>, es: seq<Event>): (r: Layered)
    decreases |stages|
  {
    if stages == [] then Layered([], es, true)
    else
      var first := Through(stages[0], es);
      var rest := Compose(stages[1..], first.outs);
      Layered([first.stage] + rest.stages, rest.outs, first.ok && rest.ok)
  }

  /** Events into a terminal, up to the first it refuses. */
  function Feed<S>(t: (S, Event) -> (S, bool), s: S, es: seq<Event>): (S, bool)
    decreases |es|
  {
    if es == [] then (s, true)
    else
      var r := t(s, es[0]);
      if r.1 then Feed(t, r.0, es[1..]) else r
  }

  /** A chain with its terminal, seen as a terminal itself. */
  function AsTerminal<S>(t: (S, Event) -> (S, bool)): ((seq<Stage>, S), Event) -> ((seq<Stage>, S), bool) {
    (x: (seq<Stage>, S), e: Event) => var r := Send(x.0, x.1, t, e); ((r.stages, r.state), r.ok)
  }

  lemma {:induction false} SendAllIsFeed<S>(stages: seq<Stage>, s: S, t: (S, Event) -> (S, bool), es: seq<Event>)
    ensures var r := SendAll(stages, s, t, es);
            Feed(AsTerminal(t), (stages, s), es) == ((r.stages, r.state), r.ok)
    decreases |es|
  {
    if es != [] {
      var one := Send(stages, s, t, es[0]);
      SendAllIsFeed(one.stages, one.state, t, es[1..]);
    }
  }

  lemma {:induction false} FeedConcat<S>(t: (S, Event) -> (S, bool), s: S, a: seq<Event>, b: seq<Event>)
    ensures var r := Feed(t, s, a);
            Feed(t, s, a + b) == if r.1 then Feed(t, r.0, b) else r
    decreases |a|
  {
    if a == [] {
      assert a + b == b;
    } else {
      assert (a + b)[1..] == a[1..] + b;
      FeedConcat(t, t(s, a[0]).0, a[1..], b);
    }
  }

  /**
   * One stage in front of any terminal: the terminal is fed exactly the stage's outputs, and the push
   * succeeds when neither the stage nor the terminal refuses.
   */
  lemma {:induction false} StageInFront<S>(stages: seq<Stage>, s: S, t: (S, Event) -> (S, bool), es: seq<Event>)
    requires stages != []
    ensures var r := SendAll(stages, s, t, es);
            var first := Through(stages[0], es);
            var fed := Feed(AsTerminal(t), (stages[1..], s), first.outs);
            && r.stages[1..] == fed.0.0 && r.state == fed.0.1
            && r.ok == (first.ok && fed.1)
            && (r.ok ==> r.stages[0] == first.stage)
    decreases |es|
  {
    if es != [] {
      var r := React(stages[0], es[0]);
      if r.ok {
        SendAllIsFeed(stages[1..], s, t, r.outs);
        var one := Send(stages, s, t, es[0]);
        assert one.stages[0] == r.stage;
        FeedConcat(AsTerminal(t), (stages[1..], s), r.outs, Through(r.stage, es[1..]).outs);
        if one.ok {
          StageInFront(one.stages, one.state, t, es[1..]);
        }
      }
    }
  }

  /**
   * Chain meaning: for any stages and any terminal, pushing a sequence of events depth first feeds the
   * terminal exactly what composing the stages left to right yields, stops and fails exactly when some stage
   * rejects or the terminal refuses, and after a success leaves every stage in the composed state.
   */
  lemma {:induction false} ChainIsComposition<S>(
    stages: seq<Stage>, s: S, t: (S, Event) -> (S, bool), es: seq<Event>)
    ensures var r := SendAll(stages, s, t, es);
            var c := Compose(stages, es);
            var fed := Feed(t, s, c.outs);
            && r.state == fed.0 && r.ok == (c.ok && fed.1)
            && (r.ok ==> r.stages == c.stages)
    decreases |stages|
  {
    if stages == [] {
      NoStages(s, t, es);
    } else {
      var first := Through(stages[0], es);
      StageInFront(stages, s, t, es);
      SendAllIsFeed(stages[1..], s, t, first.outs);
      ChainIsComposition(stages[1..], s, t, first.outs);
      var r := SendAll(stages, s, t, es);
      assert r.stages == [r.stages[0]] + r.stages[1..];
    }
  }

  lemma {:induction false} NoStages<S>(s: S, t: (S, Event) -> (S, bool), es: seq<Event>)
    ensures var r := SendAll([], s, t, es);
            (r.state, r.ok) == Feed(t, s, es) && r.stages == []
    decreases |es|
  {
    if es != [] {
      NoStages(t(s, es[0]).0, t, es[1..]);
    }
  }

  /** Building a chain in two parts changes nothing: chain(a ++ b, t) is chain(a, chain(b, t)). */
  lemma {:induction false} ChainSplits<S>(
    a: seq<Stage>, b: seq<Stage>, s: S, t: (S, Event) -> (S, bool), es: seq<Event>)
    ensures var whole := SendAll(a + b, s, t, es);
            var parts := SendAll(a, (b, s), AsTerminal(t), es);
            && whole.state == parts.state.1 && whole.ok == parts.ok
            && whole.stages == parts.stages + parts.state.0
    decreases |a|, 1, |es|
  {
    if es != [] {
      SplitsOne(a, b, s, t, es[0]);
      var one := Send(a, (b, s), AsTerminal(t), es[0]);
      if one.ok {
        ChainSplits(one.stages, one.state.0, one.state.1, t, es[1..]);
      }
    }
  }

  lemma {:induction false} SplitsOne<S>(a: seq<Stage>, b: seq<Stage>, s: S, t: (S, Event) -> (S, bool), e: Event)
    ensures var whole := Send(a + b, s, t, e);
            var parts := Send(a, (b, s), AsTerminal(t), e);
            && whole.state == parts.state.1 && whole.ok == parts.ok
            && whole.stages == parts.stages + parts.state.0
    decreases |a|, 0, 0
  {
    if a == [] {
      assert a + b == b;
    } else {
      assert (a + b)[0] == a[0] && (a + b)[1..] == a[1..] + b;
      var first := React(a[0], e);
      if first.ok {
        ChainSplits(a[1..], b, s, t, first.outs);
      }
    }
  }

  // ---------------------------------------------------------------- stages without memory

  /** What a VRL program makes of the events up to the first it fails on. */
  function Produced(program: Event -> Output, es: seq<Event>): seq<Event>
    decreases |es|
  {
    if es == [] || program(es[0]).Rejected? then []
    else (if program(es[0]).Unchanged? then [es[0]] else program(es[0]).events) + Produced(program, es[1..])
  }

  /**
   * The stages without memory: one that passes or logs hands every event on, one that discards hands on none,
   * and a VRL stage hands on what its program returns for each event, failing at the first it fails on.
   */
  lemma {:induction false} PlainStages(st: Stage, es: seq<Event>)
    ensures st.config.Passthrough? || st.config.Log? ==> Through(st, es) == Stream(st, es, true)
    ensures st.config.DiscardAll? ==> Through(st, es) == Stream(st, [], true)
    ensures st.config.Vrl? ==>
              Through(st, es) == Stream(st, Produced(st.config.program, es),
                                        forall i :: 0 <= i < |es| ==> !st.config.program(es[i]).Rejected?)
    decreases |es|
  {
    if es != [] {
      assert es == [es[0]] + es[1..];
      PlainStages(st, es[1..]);
      if st.config.Vrl? && !st.config.program(es[0]).Rejected? {
        assert (forall i :: 0 <= i < |es[1..]| ==> !st.config.program(es[1..][i]).Rejected?)
          <==> (forall i :: 1 <= i < |es| ==> !st.config.program(es[i]).Rejected?) by {
          assert forall i :: 1 <= i < |es| ==> es[i] == es[1..][i - 1];
        }
      }
    }
  }

  // ---------------------------------------------------------------- deduplication

  function Keys(key: Event -> Option<string>, es: seq<Event>): seq<string>
    decreases |es|
  {
    if es == [] then []
    else
      var k := key(es[|es| - 1]);
      Keys(key, es[..|es| - 1]) + if k.Some? then [k.value] else []
  }

  /** The last `n` of the keys. */
  function Last(ks: seq<string>, n: nat): seq<string> {
    if |ks| <= n then ks else ks[|ks| - n..]
  }

  /** Equal keys have at least `n` others between them. */
  predicate Apart(ks: seq<string>, n: nat) {
    forall i, j :: 0 <= i < j < |ks| && ks[i] == ks[j] ==> j - i > n
  }

  lemma KeysConcatOne(key: Event -> Option<string>, es: seq<Event>, e: Event)
    ensures Keys(key, es + [e]) == Keys(key, es) + if key(e).Some? then [key(e).value] else []
  {
    assert (es + [e])[..|es|] == es;
  }

  /** The stage remembers exactly the last `capacity` keys of what it has handed on. */
  ghost predicate Remembers(st: Stage, handed: seq<Event>) {
    && st.config.Deduplicate? && st.config.capacity > 0
    && st.seen == Last(Keys(st.config.key, handed), st.config.capacity)
    && Apart(Keys(st.config.key, handed), st.config.capacity)
  }

  lemma LastSnoc(ks: seq<string>, k: string, n: nat)
    requires n > 0
    ensures Last(ks + [k], n) == Evicted(Last(ks, n), n) + [k]
  {
  }

  lemma ApartSnoc(ks: seq<string>, k: string, n: nat)
    requires Apart(ks, n) && k !in Last(ks, n)
    ensures Apart(ks + [k], n)
  {
    forall i | 0 <= i < |ks| && |ks| - i <= n
      ensures ks[i] != k
    {
      assert ks[i] == Last(ks, n)[i - (|ks| - |Last(ks, n)|)];
    }
  }

  lemma DedupStep(st: Stage, handed: seq<Event>, e: Event)
    requires Remembers(st, handed)
    ensures Remembers(React(st, e).stage, handed + React(st, e).outs) && React(st, e).ok
    ensures React(st, e).stage.config == st.config
    ensures React(st, e).outs == if st.config.key(e).Some? && st.config.key(e).value in st.seen then [] else [e]
  {
    hide Keys, Last, Apart, Evicted;
    var k := st.config.key(e);
    KeysConcatOne(st.config.key, handed, e);
    assert handed + [] == handed;
    if k.Some? {
      LastSnoc(Keys(st.config.key, handed), k.value, st.config.capacity);
      if k.value !in st.seen {
        ApartSnoc(Keys(st.config.key, handed), k.value, st.config.capacity);
      }
    }
    assert Keys(st.config.key, handed) + [] == Keys(st.config.key, handed);
  }

  lemma {:induction false} DedupRun(st: Stage, handed: seq<Event>, es: seq<Event>)
    requires Remembers(st, handed)
    ensures var r := Through(st, es); r.ok && Remembers(r.stage, handed + r.outs) && r.stage.config == st.config
    decreases |es|
  {
    hide Remembers, React;
    if es == [] {
      assert handed + [] == handed;
    } else {
      DedupStep(st, handed, es[0]);
      var r := React(st, es[0]);
      DedupRun(r.stage, handed + r.outs, es[1..]);
      var rest := Through(r.stage, es[1..]);
      assert handed + r.outs + rest.outs == handed + (r.outs + rest.outs);
    }
  }

  lemma NothingHanded(st: Stage)
    requires st.config.Deduplicate? && st.config.capacity > 0 && st.seen == []
    ensures Remembers(st, [])
  {
  }

  /**
   * Deduplication window: over any event sequence the remembered keys are exactly the last `capacity` keys
   * handed on, without duplicates, and any two handed-on events with equal keys have at least `capacity`
   * other handed-on keys between them.
   */
  lemma DedupWindow(capacity: nat, key: Event -> Option<string>, es: seq<Event>)
    requires capacity > 0
    ensures var r := Through(Stage(Deduplicate(capacity, key), []), es);
            var ks := Keys(key, r.outs);
            && r.ok && r.stage.seen == Last(ks, capacity) && Apart(ks, capacity)
            && (forall i, j :: 0 <= i < j < |r.stage.seen| ==> r.stage.seen[i] != r.stage.seen[j])
  {
    hide Through, Keys, React;
    var st := Stage(Deduplicate(capacity, key), []);
    NothingHanded(st);
    DedupRun(st, [], es);
    var r := Through(st, es);
    assert [] + r.outs == r.outs;
    var ks := Keys(key, r.outs);
    forall i, j | 0 <= i < j < |r.stage.seen|
      ensures r.stage.seen[i] != r.stage.seen[j]
    {
      var d := |ks| - |r.stage.seen|;
      assert r.stage.seen[i] == ks[i + d] && r.stage.seen[j] == ks[j + d];
    }
  }

  /** After any events, the next one is dropped exactly when its key is among the last `capacity` handed on. */
  lemma DroppedExactlyWhen(capacity: nat, key: Event -> Option<string>, es: seq<Event>, e: Event)
    requires capacity > 0
    ensures var r := Through(Stage(Deduplicate(capacity, key), []), es);
            React(r.stage, e).outs ==
              if key(e).Some? && key(e).value in Last(Keys(key, r.outs), capacity) then [] else [e]
  {
    hide Through, Keys, React, Last;
    NothingHanded(Stage(Deduplicate(capacity, key), []));
    DedupRun(Stage(Deduplicate(capacity, key), []), [], es);
    var r := Through(Stage(Deduplicate(capacity, key), []), es);
    assert [] + r.outs == r.outs;
    DedupStep(r.stage, r.outs, e);
  }

  /** Capacity zero disables deduplication. */
  lemma {:induction false} ZeroCapacityPasses(key: Event -> Option<string>, es: seq<Event>)
    ensures var st := Stage(Deduplicate(0, key), []);
            Through(st, es) == Stream(st, es, true)
    decreases |es|
  {
    if es != [] {
      ZeroCapacityPasses(key, es[1..]);
      assert [es[0]] + es[1..] == es;
    }
  }

  // ---------------------------------------------------------------- any sequence of pushes, failing or not

  datatype Pushed<S> = Pushed(stages: seq<Stage>, state: S, oks: seq<bool>)

  /** A source goes on pushing whether or not the earlier events went through. */
  function PushEach<S>(stages: seq<Stage>, s: S, t: (S, Event) -> (S, bool), es: seq<Event>): (r: Pushed<S>)
    ensures |r.stages| == |stages| && |r.oks| == |es|
    decreases |es|
  {
    if es == [] then Pushed(stages, s, [])
    else
      var one := Send(stages, s, t, es[0]);
      var rest := PushEach(one.stages, one.state, t, es[1..]);
      rest.(oks := [one.ok] + rest.oks)
  }

  /** A terminal that also notes every event it is handed, before it can refuse it. */
  function Logged<S>(t: (S, Event) -> (S, bool)): ((S, seq<Event>), Event) -> ((S, seq<Event>), bool) {
    (x: (S, seq<Event>), e: Event) => var r := t(x.0, e); ((r.0, x.1 + [e]), r.1)
  }

  /** The events that reach the pipe behind the stages `a`, the rest of the chain being `b`. */
  function Arrived<S>(a: seq<Stage>, b: seq<Stage>, s: S, t: (S, Event) -> (S, bool), es: seq<Event>): seq<Event> {
    PushEach(a, ((b, s), []), Logged(AsTerminal(t)), es).state.1
  }

  lemma {:induction false} SendLogged<S>(
    stages: seq<Stage>, s: S, log: seq<Event>, t: (S, Event) -> (S, bool), e: Event)
    ensures var plain, noted := Send(stages, s, t, e), Send(stages, (s, log), Logged(t), e);
            noted.stages == plain.stages && noted.state.0 == plain.state && noted.ok == plain.ok
    decreases |stages|, 0, 0
  {
    if stages != [] {
      var first := React(stages[0], e);
      if first.ok { SendAllLogged(stages[1..], s, log, t, first.outs); }
    }
  }

  lemma {:induction false} SendAllLogged<S>(
    stages: seq<Stage>, s: S, log: seq<Event>, t: (S, Event) -> (S, bool), es: seq<Event>)
    ensures var plain, noted := SendAll(stages, s, t, es), SendAll(stages, (s, log), Logged(t), es);
            noted.stages == plain.stages && noted.state.0 == plain.state && noted.ok == plain.ok
    decreases |stages|, 1, |es|
  {
    if es != [] {
      SendLogged(stages, s, log, t, es[0]);
      var one := Send(stages, (s, log), Logged(t), es[0]);
      if one.ok { SendAllLogged(one.stages, one.state.0, one.state.1, t, es[1..]); }
    }
  }

  /** A chain of two parts, pushed any number of times: noting what passes between them changes nothing. */
  lemma {:induction false} PushEachSplits<S>(
    a: seq<Stage>, b: seq<Stage>, s: S, log: seq<Event>, t: (S, Event) -> (S, bool), es: seq<Event>)
    ensures var whole := PushEach(a + b, s, t, es);
            var parts := PushEach(a, ((b, s), log), Logged(AsTerminal(t)), es);
            && whole.stages == parts.stages + parts.state.0.0
            && whole.state == parts.state.0.1 && whole.oks == parts.oks
    decreases |es|
  {
    if es != [] {
      SplitsOne(a, b, s, t, es[0]);
      SendLogged(a, (b, s), log, AsTerminal(t), es[0]);
      var one := Send(a, ((b, s), log), Logged(AsTerminal(t)), es[0]);
      PushEachSplits(one.stages, one.state.0.0, one.state.0.1, one.state.1, t, es[1..]);
    }
  }

  /** The stage after it has reacted to the events, whatever became of them. */
  function Reacted(st: Stage, es: seq<Event>): Stage {
    if es == [] then st else React(Reacted(st, es[..|es| - 1]), es[|es| - 1]).stage
  }

  ghost predicate Follows<S>(x: ((seq<Stage>, S), seq<Event>), d: Stage) {
    x.0.0 != [] && x.0.0[0] == Reacted(d, x.1)
  }

  lemma {:induction false} SendFollows<S>(
    a: seq<Stage>, x: ((seq<Stage>, S), seq<Event>), t: (S, Event) -> (S, bool), e: Event, d: Stage)
    requires Follows(x, d)
    ensures Follows(Send(a, x, Logged(AsTerminal(t)), e).state, d)
    decreases |a|, 0, 0
  {
    if a == [] {
      assert (x.1 + [e])[..|x.1|] == x.1;
    } else {
      var first := React(a[0], e);
      if first.ok { SendAllFollows(a[1..], x, t, first.outs, d); }
    }
  }

  lemma {:induction false} SendAllFollows<S>(
    a: seq<Stage>, x: ((seq<Stage>, S), seq<Event>), t: (S, Event) -> (S, bool), es: seq<Event>, d: Stage)
    requires Follows(x, d)
    ensures Follows(SendAll(a, x, Logged(AsTerminal(t)), es).state, d)
    decreases |a|, 1, |es|
  {
    if es != [] {
      SendFollows(a, x, t, es[0], d);
      var one := Send(a, x, Logged(AsTerminal(t)), es[0]);
      if one.ok { SendAllFollows(one.stages, one.state, t, es[1..], d); }
    }
  }

  lemma {:induction false} PushEachFollows<S>(
    a: seq<Stage>, x: ((seq<Stage>, S), seq<Event>), t: (S, Event) -> (S, bool), es: seq<Event>, d: Stage)
    requires Follows(x, d)
    ensures Follows(PushEach(a, x, Logged(AsTerminal(t)), es).state, d)
    decreases |es|
  {
    if es != [] {
      SendFollows(a, x, t, es[0], d);
      var one := Send(a, x, Logged(AsTerminal(t)), es[0]);
      PushEachFollows(one.stages, one.state, t, es[1..], d);
    }
  }

  /**
   * Final states without exception: after any pushes, failing or not, every stage of a chain has reacted to
   * exactly the events that arrived at it, in order, and to nothing else.
   */
  lemma StageAfterPushes<S>(
    a: seq<Stage>, d: Stage, b: seq<Stage>, s: S, t: (S, Event) -> (S, bool), es: seq<Event>)
    ensures PushEach(a + ([d] + b), s, t, es).stages[|a|] == Reacted(d, Arrived(a, [d] + b, s, t, es))
  {
    PushEachSplits(a, [d] + b, s, [], t, es);
    PushEachFollows(a, (([d] + b, s), []), t, es, d);
  }

  /** The last stage of a chain remembers the keys of what its terminal has noted. */
  ghost predicate LastRemembers<S>(stages: seq<Stage>, x: (S, seq<Event>)) {
    stages != [] && Remembers(stages[|stages| - 1], x.1)
  }

  lemma {:induction false} SendRemembers<S>(
    stages: seq<Stage>, x: (S, seq<Event>), t: (S, Event) -> (S, bool), e: Event)
    requires LastRemembers(stages, x)
    ensures var r := Send(stages, x, Logged(t), e); LastRemembers(r.stages, r.state)
    decreases |stages|, 0, 0
  {
    hide Remembers, React;
    var first := React(stages[0], e);
    if |stages| == 1 {
      DedupStep(stages[0], x.1, e);
      OneNoted(x, t, first.outs);
    } else if first.ok {
      SendAllRemembers(stages[1..], x, t, first.outs);
    }
  }

  /** A terminal notes the at most one event it is handed even if it then refuses it. */
  lemma OneNoted<S>(x: (S, seq<Event>), t: (S, Event) -> (S, bool), outs: seq<Event>)
    requires |outs| <= 1
    ensures var r := SendAll([], x, Logged(t), outs); r.stages == [] && r.state.1 == x.1 + outs
  {
    if outs == [] {
      assert x.1 + [] == x.1;
    } else {
      assert outs == [outs[0]];
    }
  }

  lemma {:induction false} SendAllRemembers<S>(
    stages: seq<Stage>, x: (S, seq<Event>), t: (S, Event) -> (S, bool), es: seq<Event>)
    requires LastRemembers(stages, x)
    ensures var r := SendAll(stages, x, Logged(t), es); LastRemembers(r.stages, r.state)
    decreases |stages|, 1, |es|
  {
    hide Remembers;
    if es != [] {
      SendRemembers(stages, x, t, es[0]);
      var one := Send(stages, x, Logged(t), es[0]);
      if one.ok { SendAllRemembers(one.stages, one.state, t, es[1..]); }
    }
  }

  lemma {:induction false} PushEachRemembers<S>(
    stages: seq<Stage>, x: (S, seq<Event>), t: (S, Event) -> (S, bool), es: seq<Event>)
    requires LastRemembers(stages, x)
    ensures var r := PushEach(stages, x, Logged(t), es); LastRemembers(r.stages, r.state)
    decreases |es|
  {
    hide LastRemembers;
    if es != [] {
      SendRemembers(stages, x, t, es[0]);
      var one := Send(stages, x, Logged(t), es[0]);
      PushEachRemembers(one.stages, one.state, t, es[1..]);
    }
  }

  /**
   * Deduplication anywhere in a chain, over any pushes: even if the pipes behind it fail, the stage remembers
   * exactly the last `capacity` keys of the events it handed to the next pipe, and equal keys among those
   * have `capacity` others between them. The key is recorded before the next pipe can fail.
   */
  lemma DedupAfterPushes<S>(
    a: seq<Stage>, capacity: nat, key: Event -> Option<string>, b: seq<Stage>, s: S,
    t: (S, Event) -> (S, bool), es: seq<Event>)
    requires capacity > 0
    ensures var d := Stage(Deduplicate(capacity, key), []);
            var handed := Arrived(a + [d], b, s, t, es);
            && PushEach(a + [d] + b, s, t, es).stages[|a|].seen == Last(Keys(key, handed), capacity)
            && Apart(Keys(key, handed), capacity)
  {
    hide PushEach, Keys, Last, Apart;
    var d := Stage(Deduplicate(capacity, key), []);
    NothingHanded(d);
    PushEachSplits(a + [d], b, s, [], t, es);
    PushEachRemembers(a + [d], ((b, s), []), AsTerminal(t), es);
    PushEachConfigs(a + [d], ((b, s), []), Logged(AsTerminal(t)), es);
  }

  /** Pushing changes what stages remember, never what they are. */
  lemma {:induction false} SendConfigs<S>(stages: seq<Stage>, s: S, t: (S, Event) -> (S, bool), e: Event)
    ensures SameConfigs(stages, Send(stages, s, t, e).stages)
    decreases |stages|, 0, 0
  {
    if stages != [] {
      var first := React(stages[0], e);
      if first.ok { SendAllConfigs(stages[1..], s, t, first.outs); }
    }
  }

  lemma {:induction false} SendAllConfigs<S>(stages: seq<Stage>, s: S, t: (S, Event) -> (S, bool), es: seq<Event>)
    ensures SameConfigs(stages, SendAll(stages, s, t, es).stages)
    decreases |stages|, 1, |es|
  {
    if es != [] {
      SendConfigs(stages, s, t, es[0]);
      var one := Send(stages, s, t, es[0]);
      if one.ok { SendAllConfigs(one.stages, one.state, t, es[1..]); }
    }
  }

  lemma {:induction false} PushEachConfigs<S>(stages: seq<Stage>, s: S, t: (S, Event) -> (S, bool), es: seq<Event>)
    ensures SameConfigs(stages, PushEach(stages, s, t, es).stages)
    decreases |es|
  {
    if es != [] {
      SendConfigs(stages, s, t, es[0]);
      var one := Send(stages, s, t, es[0]);
      PushEachConfigs(one.stages, one.state, t, es[1..]);
    }
  }

  ghost predicate SameConfigs(a: seq<Stage>, b: seq<Stage>) {
    |a| == |b| && forall i :: 0 <= i < |a| ==> a[i].config == b[i].config
  }
}
