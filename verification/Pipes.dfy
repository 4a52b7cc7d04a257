/** Transformer chains as the code runs them: pipes that call the next one, the collector, and the HTTP sink. */
module Pipes {
  import opened Prelude
  import opened Transformers

  // ---------------------------------------------------------------- configuration

  datatype NamedConfig = NamedConfig(key: Option<string>, config: Config)

  function Named(refs: seq<string>, registry: map<string, Config>): seq<NamedConfig>
    requires forall ref :: ref in refs ==> ref in registry
  {
    seq(|refs|, i requires 0 <= i < |refs| => NamedConfig(Some(refs[i]), registry[refs[i]]))
  }

  class TransformerChainConfig {
    var transformerRefs: seq<string>
    var transformers: seq<NamedConfig>

    constructor (transformerRefs: seq<string>, transformers: seq<NamedConfig>)
      ensures this.transformerRefs == transformerRefs && this.transformers == transformers
    {
      this.transformerRefs, this.transformers := transformerRefs, transformers;
    }

    /** Appends the referenced transformers after the inline ones, or reports the first unknown name. */
    method Resolve(registry: map<string, Config>) returns (missing: Option<string>)
      modifies `transformers
      ensures missing.None? <==> forall ref :: ref in transformerRefs ==> ref in registry
      ensures missing.None? ==> transformers == old(transformers) + Named(transformerRefs, registry)
      ensures missing.Some? ==> transformers == old(transformers)
      ensures missing.Some? ==>
                exists i :: 0 <= i < |transformerRefs| && missing.value == transformerRefs[i]
                            && missing.value !in registry && forall j :: 0 <= j < i ==> transformerRefs[j] in registry
    {
      var named: seq<NamedConfig> := [];
      for i := 0 to |transformerRefs|
        invariant transformers == old(transformers)
        invariant forall j :: 0 <= j < i ==> transformerRefs[j] in registry
        invariant named == Named(transformerRefs[..i], registry)
      {
        if transformerRefs[i] !in registry { return Some(transformerRefs[i]); }
        named := named + [NamedConfig(Some(transformerRefs[i]), registry[transformerRefs[i]])];
      }
      assert transformerRefs[..|transformerRefs|] == transformerRefs;
      transformers := transformers + named;
      missing := None;
    }

    method Append(extra: seq<NamedConfig>)
      modifies `transformers
      ensures transformers == old(transformers) + extra
    {
      transformers := transformers + extra;
    }
  }

  function FreshStages(configs: seq<NamedConfig>): seq<Stage> {
    seq(|configs|, i requires 0 <= i < |configs| => Stage(configs[i].config, []))
  }

  /** Wraps the terminal from the last transformer to the first; fails if one cannot be made. */
  method BuildTransformerChain(configs: seq<NamedConfig>, makes: Config -> bool) returns (pipe: Option<seq<Stage>>)
    ensures pipe.Some? <==> forall nc :: nc in configs ==> makes(nc.config)
    ensures pipe.Some? ==> pipe.value == FreshStages(configs)
  {
    var stages: seq<Stage> := [];
    for i := |configs| downto 0
      invariant stages == FreshStages(configs[i..])
      invariant forall j :: i <= j < |configs| ==> makes(configs[j].config)
    {
      if !makes(configs[i].config) { return None; }
      stages := [Stage(configs[i].config, [])] + stages;
    }
    assert configs[0..] == configs;
    pipe := Some(stages);
  }

  // ---------------------------------------------------------------- the pipes

  class TransformerChain<T> {
    const terminal: (T, Event) -> (T, bool)
    var stages: seq<Stage>
    var state: T

    constructor (stages: seq<Stage>, state: T, terminal: (T, Event) -> (T, bool))
      ensures this.stages == stages && this.state == state && this.terminal == terminal
    {
      this.stages, this.state, this.terminal := stages, state, terminal;
    }

    /** What the `k`-th pipe itself does with an event before it calls the next one. */
    method Process(k: nat, event: Event) returns (outs: seq<Event>, ok: bool)
      requires k < |stages|
      modifies `stages
      ensures |stages| == |old(stages)| && stages == old(stages)[k := stages[k]]
      ensures Reaction(stages[k], outs, ok) == React(old(stages)[k], event)
      ensures var st := old(stages)[k];
              match st.config
              case Passthrough => ok && outs == [event] && stages[k] == st
              case Log(_) => ok && outs == [event] && stages[k] == st
              case DiscardAll => ok && outs == [] && stages[k] == st
              case Vrl(program) =>
                && stages[k] == st && (ok <==> program(event) != Rejected)
                && outs == (if program(event) == Unchanged then [event]
                            else if program(event).Outputs? then program(event).events else [])
              case Deduplicate(capacity, keyOf) =>
                && ok
                && (outs == [] <==> capacity > 0 && keyOf(event).Some? && keyOf(event).value in st.seen)
                && (outs == [] || outs == [event])
                && (capacity == 0 || keyOf(event).None? || outs == [] ==> stages[k] == st)
                && (capacity > 0 && keyOf(event).Some? && outs != [] ==>
                      var kept := if |st.seen| >= capacity && st.seen != [] then st.seen[1..] else st.seen;
                      stages[k] == st.(seen := kept + [keyOf(event).value]))
    {
      outs, ok := [event], true;
      var config := stages[k].config;
      match config {
        case Passthrough =>
        case Log(_) =>
        case DiscardAll => outs := [];
        case Vrl(program) =>
          var output := program(event);
          if output.Rejected? { return [], false; }
          if output.Outputs? { outs := output.events; }
        case Deduplicate(capacity, keyOf) =>
          if capacity == 0 { return; }
          var key := keyOf(event);
          if key.None? { return; }
          var seen := stages[k].seen;
          if key.value in seen { return [], true; }
          if |seen| >= capacity { seen := seen[1..]; }
          stages := stages[k := Stage(config, seen + [key.value])];
      }
    }

    /** `send` of the `k`-th pipe. */
    method SendFrom(k: nat, event: Event) returns (ok: bool)
      requires k <= |stages|
      modifies this
      ensures var r := Send(old(stages)[k..], old(state), terminal, event);
              stages == old(stages)[..k] + r.stages && state == r.state && ok == r.ok
      decreases |stages| - k, 0
    {
      hide React, SendAll;
      if k == |stages| {
        var r := terminal(state, event);
        state := r.0;
        return r.1;
      }
      ghost var before := stages[k..];
      assert before[0] == stages[k] && before[1..] == stages[k + 1..];
      var outs;
      outs, ok := Process(k, event);
      assert stages[k + 1..] == before[1..];
      if !ok { return; }
      ok := SendOutputs(k + 1, outs);
    }

    /** Hands the outputs on one by one and stops at the first error. */
    method SendOutputs(k: nat, outs: seq<Event>) returns (ok: bool)
      requires k <= |stages|
      modifies this
      ensures var r := SendAll(old(stages)[k..], old(state), terminal, outs);
              stages == old(stages)[..k] + r.stages && state == r.state && ok == r.ok
      decreases |stages| - k, 1
    {
      var i := 0;
      while i < |outs|
        invariant 0 <= i <= |outs| && |stages| == |old(stages)| && stages[..k] == old(stages)[..k]
        invariant SendAll(old(stages)[k..], old(state), terminal, outs)
               == SendAll(stages[k..], state, terminal, outs[i..])
      {
        assert outs[i..][0] == outs[i] && outs[i..][1..] == outs[i + 1..];
        ok := SendFrom(k, outs[i]);
        if !ok { return false; }
        i := i + 1;
      }
      ok := true;
    }

    /** `push`: under the chain's lock. */
    method Push(event: Event) returns (ok: bool)
      modifies this
      ensures var r := Send(old(stages), old(state), terminal, event);
              stages == r.stages && state == r.state && ok == r.ok
      ensures var c := Compose(old(stages), [event]);
              var fed := Feed(terminal, old(state), c.outs);
              state == fed.0 && ok == (c.ok && fed.1) && (ok ==> stages == c.stages)
    {
      ChainIsComposition(stages, state, terminal, [event]);
      assert stages[0..] == stages;
      ghost var one := Send(stages, state, terminal, event);
      assert SendAll(stages, state, terminal, [event]) == one by {
        assert [event][1..] == [];
      }
      ok := SendFrom(0, event);
    }
  }

  // ---------------------------------------------------------------- the collector and the HTTP sink

  function Collect(): (seq<Event>, Event) -> (seq<Event>, bool) {
    (buffer: seq<Event>, e: Event) => (buffer + [e], true)
  }

  lemma {:induction false} CollectFeeds(buffer: seq<Event>, es: seq<Event>)
    ensures Feed(Collect(), buffer, es) == (buffer + es, true)
    decreases |es|
  {
    if es == [] {
      assert buffer + [] == buffer;
    } else {
      CollectFeeds(buffer + [es[0]], es[1..]);
      assert buffer + [es[0]] + es[1..] == buffer + es;
    }
  }

  /** The last one is refused, and no other. */
  predicate FirstRefused(accepts: Event -> bool, es: seq<Event>) {
    es != [] && !accepts(es[|es| - 1]) && forall i :: 0 <= i < |es| - 1 ==> accepts(es[i])
  }

  lemma EndsRefused(accepts: Event -> bool, es: seq<Event>, e: Event)
    requires !accepts(e) && forall x :: x in es ==> accepts(x)
    ensures FirstRefused(accepts, es + [e])
  {
  }

  class HttpSink {
    const chain: TransformerChain<seq<Event>>

    /** Nothing is left in the collector between two messages. */
    ghost predicate Valid()
      reads this, chain
    {
      chain.terminal == Collect() && chain.state == []
    }

    constructor (stages: seq<Stage>)
      ensures Valid() && fresh(chain) && chain.stages == stages
    {
      chain := new TransformerChain(stages, [], Collect());
    }

    method Drain() returns (events: seq<Event>)
      modifies chain
      ensures events == old(chain.state) && chain.state == [] && chain.stages == old(chain.stages)
    {
      events := chain.state;
      chain.state := [];
    }

    /**
     * One message: whatever happened to earlier ones, the requests made are, in order, the events that the
     * chain derives from this message alone: all of them on success, none if a transformer rejected it, and
     * those up to the first refused request otherwise. The collector is empty again in every case.
     */
    method SendMessage(event: Option<Event>, accepts: Event -> bool) returns (ok: bool, posted: seq<Event>)
      requires Valid()
      modifies chain
      ensures Valid()
      ensures event.None? ==> !ok && posted == [] && chain.stages == old(chain.stages)
      ensures event.Some? ==>
                var c := Compose(old(chain.stages), [event.value]);
                && (!c.ok ==> !ok && posted == [])
                && (c.ok ==> posted <= c.outs && chain.stages == c.stages)
                && (ok <==> c.ok && forall e :: e in c.outs ==> accepts(e))
                && (ok ==> posted == c.outs)
                && (c.ok && !ok ==> FirstRefused(accepts, posted))
    {
      hide Compose, Feed, FirstRefused;
      posted := [];
      if event.None? { return false, []; }
      ghost var c := Compose(chain.stages, [event.value]);
      CollectFeeds([], c.outs);
      assert [] + c.outs == c.outs;
      var pushed := chain.Push(event.value);
      var events := Drain();
      if !pushed { return false, []; }
      for i := 0 to |events|
        invariant posted == events[..i] && forall e :: e in posted ==> accepts(e)
      {
        posted := posted + [events[i]];
        if !accepts(events[i]) {
          assert events[i] in events;
          EndsRefused(accepts, events[..i], events[i]);
          return false, posted;
        }
      }
      ok := true;
    }
  }
}
