/**
 Opt-in capture of model events: nested scopes, each with a bounded list, fed by
 one walk along the chain of active scopes.
 */
module ModelCapture {
  import opened Wrappers

  datatype ModelEvent = ModelEvent(callId: string, provider: string, model: string, kind: string, facts: string)

  // None: the event could not be built from the facts given.
  type Emission = Option<ModelEvent>

  datatype Scope = Scope(maxEvents: nat, events: seq<ModelEvent>, dropped: nat)
  {
    predicate Complete() { dropped == 0 }
  }

  function Opened(maxEvents: nat): Scope { Scope(maxEvents, [], 0) }

  function Record(s: Scope, e: Emission): Scope {
    if e.Some? && |s.events| < s.maxEvents then s.(events := s.events + [e.value])
    else s.(dropped := s.dropped + 1)
  }

  class Capture {
    const maxEvents: nat
    var events: seq<ModelEvent>
    var dropped: nat

    constructor (maxEvents: nat)
      ensures this.maxEvents == maxEvents && Value() == Opened(maxEvents)
    {
      this.maxEvents := maxEvents;
      events, dropped := [], 0;
    }

    function Value(): Scope
      reads this
    {
      Scope(maxEvents, events, dropped)
    }
  }

  // The chain of active scopes, innermost first.
  datatype Sink = NoSink | Sink(capture: Capture, parent: Sink)

  function Captures(s: Sink): seq<Capture> {
    match s
    case NoSink => []
    case Sink(capture, parent) => [capture] + Captures(parent)
  }

  lemma {:induction false} CapturesAllocated(s: Sink)
    ensures forall c <- Captures(s) :: allocated(c)
  {
    if s.Sink? {
      CapturesAllocated(s.parent);
    }
  }

  /** Open a scope inside `parent`; a negative bound is refused. */
  method OpenScope(parent: Sink, maxEvents: int) returns (sink: Option<Sink>)
    requires Distinct(Captures(parent))
    ensures sink.None? <==> maxEvents < 0
    ensures sink.Some? ==> sink.value.Sink? && sink.value.parent == parent && fresh(sink.value.capture)
                           && sink.value.capture.Value() == Opened(maxEvents)
    ensures sink.Some? ==> Distinct(Captures(sink.value))
  {
    if maxEvents < 0 {
      return None;
    }
    ghost var outer := Captures(parent);
    CapturesAllocated(parent);
    var capture := new Capture(maxEvents);
    assert capture !in outer;
    sink := Some(Sink(capture, parent));
  }

  /** Every active scope, and no other, records the emission once. */
  method EmitModelEvent(sink: Sink, e: Emission)
    requires Distinct(Captures(sink))
    modifies Captures(sink)
    ensures forall c <- Captures(sink) :: c.Value() == Record(old(c.Value()), e)
  {
    var at := sink;
    ghost var all, n := Captures(sink), 0;
    CapturesAllocated(sink);
    forall i | 0 <= i < |all|
      ensures old(allocated(all[i]))
    {
      assert all[i] in Captures(sink);
    }
    while at.Sink?
      invariant n <= |all| && Captures(at) == all[n..]
      invariant forall i | 0 <= i < |all| :: old(allocated(all[i]))
      invariant forall i | 0 <= i < n :: all[i].Value() == Record(old(all[i].Value()), e)
      invariant forall i | n <= i < |all| :: all[i].Value() == old(all[i].Value())
      decreases at
    {
      var capture := at.capture;
      assert capture == all[n] && Captures(at.parent) == all[n + 1..];
      if e.None? {
        capture.dropped := capture.dropped + 1;
      } else if |capture.events| < capture.maxEvents {
        capture.events := capture.events + [e.value];
      } else {
        capture.dropped := capture.dropped + 1;
      }
      at, n := at.parent, n + 1;
    }
  }

  // ---------------------------------------------------------- any nesting

  datatype Action = Open(maxEvents: nat) | Close | Emit(emission: Emission)

  /** One action on the stack of active scopes, outermost first. */
  function Step(stack: seq<Scope>, a: Action): seq<Scope> {
    match a
    case Open(maxEvents) => stack + [Opened(maxEvents)]
    case Close => if stack == [] then stack else stack[..|stack| - 1]
    case Emit(e) => seq(|stack|, i requires 0 <= i < |stack| => Record(stack[i], e))
  }

  function Run(stack: seq<Scope>, actions: seq<Action>): seq<Scope>
    decreases |actions|
  {
    if actions == [] then stack else Run(Step(stack, actions[0]), actions[1..])
  }

  /** The values of the active scopes, outermost first. */
  function Values(s: Sink): seq<Scope>
    reads Captures(s)
  {
    match s
    case NoSink => []
    case Sink(capture, parent) =>
      assert Captures(s)[0] == capture;
      assert forall i | 0 <= i < |Captures(parent)| :: Captures(parent)[i] == Captures(s)[i + 1];
      Values(parent) + [capture.Value()]
  }

  lemma {:induction false} ValuesAre(s: Sink)
    ensures |Values(s)| == |Captures(s)|
    ensures forall i | 0 <= i < |Values(s)| :: Values(s)[i] == Captures(s)[|Captures(s)| - 1 - i].Value()
  {
    if s.Sink? {
      ValuesAre(s.parent);
    }
  }

  /** One action on the chain: enter a scope, leave the innermost one, or emit. */
  method Perform(sink: Sink, a: Action) returns (after: Sink)
    requires Distinct(Captures(sink))
    modifies Captures(sink)
    ensures Distinct(Captures(after))
    ensures forall i | 0 <= i < |Captures(after)| :: Captures(after)[i] in Captures(sink) || fresh(Captures(after)[i])
    ensures Values(after) == Step(old(Values(sink)), a)
  {
    ghost var before := Values(sink);
    ValuesAre(sink);
    CapturesAllocated(sink);
    ghost var all := Captures(sink);
    assert forall i | 0 <= i < |all| :: allocated(all[i]) by {
      assert forall i | 0 <= i < |all| :: all[i] in Captures(sink);
    }
    match a
    case Open(maxEvents) =>
      var inner := OpenScope(sink, maxEvents);
      ValuesAre(sink);
      assert Values(sink) == before;
      return inner.value;
    case Close =>
      after := if sink.Sink? then sink.parent else sink;
      assert sink.Sink? ==> Captures(sink)[1..] == Captures(after);
    case Emit(e) =>
      EmitModelEvent(sink, e);
      ValuesAre(sink);
      assert Values(sink) == Step(before, a);
      return sink;
  }

  /** Any nesting on the real chain of scopes is the run of the stack of their values. */
  method PerformAll(sink: Sink, actions: seq<Action>) returns (after: Sink)
    requires Distinct(Captures(sink))
    modifies Captures(sink)
    ensures Distinct(Captures(after)) && Values(after) == Run(old(Values(sink)), actions)
  {
    after := sink;
    var i := 0;
    assert actions[0..] == actions;
    while i < |actions|
      invariant i <= |actions| && Distinct(Captures(after))
      invariant forall k | 0 <= k < |Captures(after)| ::
        Captures(after)[k] in Captures(sink) || fresh(Captures(after)[k])
      invariant Run(Values(after), actions[i..]) == Run(old(Values(sink)), actions)
    {
      assert actions[i..][1..] == actions[i + 1..];
      after := Perform(after, actions[i]);
      i := i + 1;
    }
  }

  /** The scope at depth `d` is not closed by any of the actions. */
  predicate StaysOpen(stack: seq<Scope>, actions: seq<Action>, d: nat)
    decreases |actions|
  {
    d < |stack| && (actions != [] ==> StaysOpen(Step(stack, actions[0]), actions[1..], d))
  }

  function Emissions(actions: seq<Action>): seq<Emission> {
    if actions == [] then []
    else (if actions[0].Emit? then [actions[0].emission] else []) + Emissions(actions[1..])
  }

  function RecordAll(s: Scope, es: seq<Emission>): Scope
    decreases |es|
  {
    if es == [] then s else RecordAll(Record(s, es[0]), es[1..])
  }

  /** The events that could be built, in order. */
  function Built(es: seq<Emission>): seq<ModelEvent> {
    if es == [] then [] else (if es[0].Some? then [es[0].value] else []) + Built(es[1..])
  }

  function Take<T>(s: seq<T>, n: nat): seq<T> { if n <= |s| then s[..n] else s }

  /** While a scope is open it records every emission, whatever opens and closes inside it. */
  lemma {:induction false} OpenScopeRecordsAll(stack: seq<Scope>, actions: seq<Action>, d: nat)
    requires StaysOpen(stack, actions, d)
    ensures d < |Run(stack, actions)|
    ensures Run(stack, actions)[d] == RecordAll(stack[d], Emissions(actions))
    decreases |actions|
  {
    if actions != [] {
      OpenScopeRecordsAll(Step(stack, actions[0]), actions[1..], d);
      if actions[0].Emit? {
        assert Emissions(actions)[1..] == Emissions(actions[1..]);
      } else {
        assert Emissions(actions) == Emissions(actions[1..]);
      }
    }
  }

  lemma {:induction false} RecordAllIs(s: Scope, es: seq<Emission>)
    requires |s.events| <= s.maxEvents
    ensures var t := RecordAll(s, es);
            && t.maxEvents == s.maxEvents
            && t.events == s.events + Take(Built(es), s.maxEvents - |s.events|)
            && |t.events| + t.dropped == |s.events| + s.dropped + |es|
    decreases |es|
  {
    if es != [] {
      var room := s.maxEvents - |s.events|;
      RecordAllIs(Record(s, es[0]), es[1..]);
      if es[0].None? {
        assert Built(es) == Built(es[1..]);
      } else if room > 0 {
        assert Take(Built(es), room) == [es[0].value] + Take(Built(es[1..]), room - 1);
      } else {
        assert Take(Built(es), 0) == [] == Take(Built(es[1..]), 0);
      }
    }
  }

  lemma {:induction false} BuiltSize(es: seq<Emission>)
    ensures |Built(es)| <= |es|
    ensures |Built(es)| == |es| <==> forall e <- es :: e.Some?
  {
    if es != [] {
      BuiltSize(es[1..]);
      assert forall e <- es :: e == es[0] || e in es[1..];
      assert es[0] in es && forall e <- es[1..] :: e in es;
    }
  }

  /** Conservation for every nesting: a scope keeps the first events it can hold, in order, counts
      every other emission as dropped, and calls itself complete exactly when it lost none. */
  lemma ScopeConservation(stack: seq<Scope>, maxEvents: nat, actions: seq<Action>)
    requires StaysOpen(Step(stack, Open(maxEvents)), actions, |stack|)
    ensures |stack| < |Run(stack, [Open(maxEvents)] + actions)|
    ensures var s, es := Run(stack, [Open(maxEvents)] + actions)[|stack|], Emissions(actions);
            && |s.events| <= maxEvents
            && s.events == Take(Built(es), maxEvents)
            && |s.events| + s.dropped == |es|
            && (s.Complete() <==> (forall e <- es :: e.Some?) && |es| <= maxEvents)
            && (s.Complete() ==> s.events == Built(es))
  {
    var actions' := [Open(maxEvents)] + actions;
    assert actions'[1..] == actions;
    OpenScopeRecordsAll(Step(stack, Open(maxEvents)), actions, |stack|);
    RecordAllIs(Opened(maxEvents), Emissions(actions));
    BuiltSize(Emissions(actions));
  }

  /** Every scope opened by the actions is closed by them, after `d` that were open before. */
  predicate Balanced(actions: seq<Action>, d: nat)
    decreases |actions|
  {
    if actions == [] then d == 0
    else match actions[0]
      case Open(_) => Balanced(actions[1..], d + 1)
      case Close => d > 0 && Balanced(actions[1..], d - 1)
      case Emit(_) => Balanced(actions[1..], d)
  }

  lemma {:induction false} BalancedRun(stack: seq<Scope>, actions: seq<Action>, d: nat)
    requires Balanced(actions, d) && d <= |stack|
    ensures |Run(stack, actions)| == |stack| - d
    ensures forall i | 0 <= i < |stack| - d :: Run(stack, actions)[i] == RecordAll(stack[i], Emissions(actions))
    decreases |actions|
  {
    if actions != [] {
      var next := match actions[0] case Open(_) => d + 1 case Close => d - 1 case Emit(_) => d;
      BalancedRun(Step(stack, actions[0]), actions[1..], next);
      if actions[0].Emit? {
        assert Emissions(actions)[1..] == Emissions(actions[1..]);
      } else {
        assert Emissions(actions) == Emissions(actions[1..]);
      }
    }
  }

  /** Opening and closing scopes in any nesting leaves the scopes around them as if there had been the
      emissions only: a close ends the innermost scope, and its parents have recorded all it did. */
  lemma NestingIsTransparent(stack: seq<Scope>, actions: seq<Action>)
    requires Balanced(actions, 0)
    ensures Run(stack, actions) == seq(|stack|, i requires 0 <= i < |stack| => RecordAll(stack[i], Emissions(actions)))
  {
    BalancedRun(stack, actions, 0);
  }
}
