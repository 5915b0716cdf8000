/**
 * The text field that keeps an input-method composition (Hangul and other
 * IMEs) away from the parent's state: while a composition is in progress the
 * field shows its own copy of the text and the parent hears nothing; when
 * the composition ends the parent hears the composed text once.
 *
 * The single-line input and the multi-line textarea run the same handlers,
 * so one class models both.
 */
module ComposedInput {
  import opened Wrappers

  /** The field's state: the composing flag, the local copy, and the parent's `value` prop. */
  datatype FieldState = FieldState(composing: bool, local: string, prop: string)

  datatype Event =
    | PropChanged(v: string)     // the parent re-renders with a new `value`
    | CompositionStart
    | CompositionEnd(v: string)  // the element's text when the composition ends
    | Input(v: string)           // an `onChange` event with the element's text

  /** What the field shows: its local copy while composing, the prop otherwise. */
  function Shown(s: FieldState): string
  {
    if s.composing then s.local else s.prop
  }

  /**
   * One event: the next state and what the parent's `onChange` receives, if
   * anything. The parent hears only the end of a composition or typing
   * outside one, and then hears the event's text and the field is not
   * composing; only a prop change changes the prop.
   */
  function Step(s: FieldState, e: Event): (r: (FieldState, Option<string>))
    ensures r.1.Some? <==> e.CompositionEnd? || (e.Input? && !s.composing)
    ensures r.1.Some? ==> r.1.value == e.v && !r.0.composing
    ensures r.0.prop == if e.PropChanged? then e.v else s.prop
  {
    match e
    case PropChanged(v) =>
      // the effect runs when the prop changes and copies it only outside a composition
      (s.(prop := v, local := if v != s.prop && !s.composing then v else s.local), None)
    case CompositionStart => (s.(composing := true, local := s.prop), None)
    case CompositionEnd(v) => (s.(composing := false, local := v), Some(v))
    case Input(v) => if s.composing then (s.(local := v), None) else (s, Some(v))
  }

  /** A sequence of events: the final state and everything the parent heard, in order. */
  function Run(s: FieldState, events: seq<Event>): (FieldState, seq<string>)
    decreases |events|
  {
    if events == [] then (s, [])
    else
      var step := Step(s, events[0]);
      var tail := Run(step.0, events[1..]);
      (tail.0, Heard(step.1) + tail.1)
  }

  function Heard(out: Option<string>): seq<string>
  {
    if out.Some? then [out.value] else []
  }

  /** Events that may happen while the user is composing. */
  predicate DuringComposition(e: Event)
  {
    e.PropChanged? || e.Input?
  }

  class ComposedField {
    var composing: bool
    var local: string
    var prop: string

    function State(): FieldState
      reads this
    {
      FieldState(composing, local, prop)
    }

    constructor (value: string)
      ensures State() == FieldState(false, value, value)
    {
      composing := false;
      local := value;
      prop := value;
    }

    function Shown(): string
      reads this
    {
      if composing then local else prop
    }

    method PropChanged(v: string)
      modifies this
      ensures State() == Step(old(State()), Event.PropChanged(v)).0
    {
      if v != prop && !composing {
        local := v;
      }
      prop := v;
    }

    method CompositionStart()
      modifies this
      ensures State() == Step(old(State()), Event.CompositionStart).0
    {
      composing := true;
      local := prop;
    }

    method CompositionEnd(v: string) returns (emitted: Option<string>)
      modifies this
      ensures (State(), emitted) == Step(old(State()), Event.CompositionEnd(v))
    {
      composing := false;
      local := v;
      emitted := Some(v);
    }

    method Input(v: string) returns (emitted: Option<string>)
      modifies this
      ensures (State(), emitted) == Step(old(State()), Event.Input(v))
    {
      if !composing {
        emitted := Some(v);
      } else {
        local := v;
        emitted := None;
      }
    }
  }

  // ---------------------------------------------------------------------------
  // Properties
  // ---------------------------------------------------------------------------

  /** Typing outside a composition reaches the parent at once, with the typed text. */
  lemma InputOutsideComposition(s: FieldState, v: string)
    requires !s.composing
    ensures Step(s, Input(v)) == (s, Some(v))
  {
  }

  /** Typing inside a composition only updates the local copy, which is what is shown. */
  lemma InputInsideComposition(s: FieldState, v: string)
    requires s.composing
    ensures Step(s, Input(v)).1 == None
    ensures Step(s, Input(v)).0.prop == s.prop && Shown(Step(s, Input(v)).0) == v
  {
  }

  /** Starting a composition shows the current prop; ending it shows and reports the composed text. */
  lemma CompositionBounds(s: FieldState, v: string)
    ensures Shown(Step(s, CompositionStart).0) == s.prop
    ensures Step(s, CompositionStart).0.composing && Step(s, CompositionStart).1 == None
    ensures !Step(s, CompositionEnd(v)).0.composing && Step(s, CompositionEnd(v)).0.local == v
    ensures Step(s, CompositionEnd(v)).1 == Some(v)
  {
  }

  /** A prop update is copied into the local text only outside a composition. */
  lemma PropSync(s: FieldState, v: string)
    ensures s.composing ==> Step(s, PropChanged(v)).0.local == s.local
    ensures !s.composing ==> Step(s, PropChanged(v)).0.local == (if v != s.prop then v else s.local)
    ensures Step(s, PropChanged(v)).0.prop == v && Step(s, PropChanged(v)).1 == None
    ensures Shown(Step(s, PropChanged(v)).0) == if s.composing then s.local else v
  {
  }

  /** While composing, no event of the composition reaches the parent and the field stays composing. */
  lemma {:induction false} Quiet(s: FieldState, events: seq<Event>)
    requires s.composing
    requires forall i :: 0 <= i < |events| ==> DuringComposition(events[i])
    ensures Run(s, events).1 == [] && Run(s, events).0.composing
    decreases |events|
  {
    if events != [] {
      Quiet(Step(s, events[0]).0, events[1..]);
    }
  }

  /** Running two event sequences one after the other. */
  lemma {:induction false} RunAppend(s: FieldState, a: seq<Event>, b: seq<Event>)
    ensures Run(s, a + b) == (Run(Run(s, a).0, b).0, Run(s, a).1 + Run(Run(s, a).0, b).1)
    decreases |a|
  {
    if a == [] {
      assert a + b == b;
      assert [] + Run(s, b).1 == Run(s, b).1;
    } else {
      assert (a + b)[1..] == a[1..] + b;
      var t := Step(s, a[0]).0;
      var o := Heard(Step(s, a[0]).1);
      RunAppend(t, a[1..], b);
      var mid := Run(t, a[1..]);
      assert Run(s, a) == (mid.0, o + mid.1);
      assert o + (mid.1 + Run(mid.0, b).1) == (o + mid.1) + Run(mid.0, b).1;
    }
  }

  /**
   * A whole composition session (start, any typing and prop updates, end)
   * tells the parent exactly once, with the composed text, and leaves the
   * field showing the prop again.
   */
  lemma {:induction false} SessionEmitsOnce(s: FieldState, middle: seq<Event>, v: string)
    requires forall i :: 0 <= i < |middle| ==> DuringComposition(middle[i])
    ensures Run(s, [CompositionStart] + middle + [CompositionEnd(v)]).1 == [v]
    ensures !Run(s, [CompositionStart] + middle + [CompositionEnd(v)]).0.composing
    ensures Run(s, [CompositionStart] + middle + [CompositionEnd(v)]).0.local == v
  {
    var t := Step(s, CompositionStart).0;
    Quiet(t, middle);
    RunAppend(t, middle, [CompositionEnd(v)]);
    assert ([CompositionStart] + middle + [CompositionEnd(v)])[1..] == middle + [CompositionEnd(v)];
    var u := Run(t, middle).0;
    var w := Step(u, CompositionEnd(v)).0;
    assert [CompositionEnd(v)][1..] == [];
    assert Run(w, []) == (w, []);
    assert Heard(Some(v)) + [] == [v];
    assert Run(u, [CompositionEnd(v)]) == (Step(u, CompositionEnd(v)).0, [v]);
  }
}
