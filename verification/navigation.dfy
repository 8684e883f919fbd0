/** Full-page section navigation (`app/page.tsx`): the wheel handler moves
    between the three sections one at a time and then ignores the wheel
    until the lock is released; the indicator and navbar buttons jump
    directly.

    The 1000 ms timer that releases the lock is the `Unlock` input. */
module Navigation {

  /** Sections 0 (profile), 1 (projects) and 2 (contact). */
  const LastSection := 2

  /** `currentSection` and `isScrolling.current`. */
  datatype State = State(section: int, locked: bool)

  datatype Input =
    | Wheel(deltaY: real)       // a wheel event and its vertical delta
    | Unlock                    // the timer set by a move fires
    | IndicatorClick(index: int) // a section indicator or navbar button

  const Initial := State(0, false)

  predicate Valid(s: State) {
    0 <= s.section <= LastSection
  }

  /** Indicator and navbar buttons (both call `setCurrentSection` with a
      fixed index) exist only for the three sections. */
  predicate WellFormed(i: Input) {
    i.IndicatorClick? ==> 0 <= i.index <= LastSection
  }

  /** The reaction to one input. */
  function Step(s: State, i: Input): (t: State)
    ensures i.Wheel? && s.locked ==> t == s
    ensures i.Wheel? && !s.locked && i.deltaY > 0.0 && s.section < LastSection ==>
              t == State(s.section + 1, true)
    ensures i.Wheel? && !s.locked && i.deltaY < 0.0 && s.section > 0 ==>
              t == State(s.section - 1, true)
    ensures (i.Wheel? && i.deltaY == 0.0) ==> t == s
    ensures (i.Wheel? && i.deltaY > 0.0 && s.section >= LastSection) ==> t == s
    ensures (i.Wheel? && i.deltaY < 0.0 && s.section <= 0) ==> t == s
    ensures i.Unlock? ==> t == State(s.section, false)
    ensures i.IndicatorClick? ==> t == State(i.index, s.locked)
  {
    match i
    case Wheel(delta) =>
      if s.locked then s
      else if delta > 0.0 && s.section < LastSection then State(s.section + 1, true)
      else if delta < 0.0 && s.section > 0 then State(s.section - 1, true)
      else s
    case Unlock => s.(locked := false)
    case IndicatorClick(index) => s.(section := index)
  }

  /** Every well-formed input keeps the section within 0..2. */
  lemma StepValid(s: State, i: Input)
    requires Valid(s) && WellFormed(i)
    ensures Valid(Step(s, i))
  {
  }

  /** Wheel moves change the section by exactly one, and only when they
      take the lock. */
  lemma WheelMovesByOne(s: State, d: real)
    ensures var t := Step(s, Wheel(d));
            t.section != s.section ==>
              && !s.locked && t.locked
              && (t.section == s.section + 1 || t.section == s.section - 1)
  {
  }

  /** A sequence of inputs, applied in order. */
  function Run(s: State, inputs: seq<Input>): State
    decreases |inputs|
  {
    if |inputs| == 0 then s else Run(Step(s, inputs[0]), inputs[1..])
  }

  /** The section stays within 0..2 along every run. */
  lemma {:induction false} RunValid(s: State, inputs: seq<Input>)
    requires Valid(s)
    requires forall k :: 0 <= k < |inputs| ==> WellFormed(inputs[k])
    ensures Valid(Run(s, inputs))
    decreases |inputs|
  {
    if |inputs| > 0 {
      StepValid(s, inputs[0]);
      RunValid(Step(s, inputs[0]), inputs[1..]);
    }
  }

  /** From the first render (section 0, unlocked), every run of
      well-formed inputs stays within 0..2. */
  lemma FromInitial(inputs: seq<Input>)
    requires forall k :: 0 <= k < |inputs| ==> WellFormed(inputs[k])
    ensures Valid(Initial) && !Initial.locked
    ensures Valid(Run(Initial, inputs))
  {
    RunValid(Initial, inputs);
  }

  /** Number of `Unlock` inputs. */
  function Unlocks(inputs: seq<Input>): nat {
    if |inputs| == 0 then 0
    else (if inputs[0].Unlock? then 1 else 0) + Unlocks(inputs[1..])
  }

  /** Number of inputs along a run that change the section. */
  function Moves(s: State, inputs: seq<Input>): nat
    decreases |inputs|
  {
    if |inputs| == 0 then 0
    else
      var t := Step(s, inputs[0]);
      (if t.section != s.section then 1 else 0) + Moves(t, inputs[1..])
  }

  /** Debounce: without clicks, the wheel moves the section at most once
      per unlock, plus once if the lock starts released. */
  lemma {:induction false} WheelMovesBounded(s: State, inputs: seq<Input>)
    requires forall k :: 0 <= k < |inputs| ==> !inputs[k].IndicatorClick?
    ensures Moves(s, inputs) <= Unlocks(inputs) + (if s.locked then 0 else 1)
    decreases |inputs|
  {
    if |inputs| > 0 {
      WheelMovesBounded(Step(s, inputs[0]), inputs[1..]);
    }
  }

  /** Each move shifts the section by one, so the net change along a run
      without clicks is bounded by the number of moves. */
  lemma {:induction false} WheelDriftBounded(s: State, inputs: seq<Input>)
    requires forall k :: 0 <= k < |inputs| ==> !inputs[k].IndicatorClick?
    ensures var t := Run(s, inputs);
            var moves: int := Moves(s, inputs);
            -moves <= t.section - s.section <= moves
    decreases |inputs|
  {
    if |inputs| > 0 {
      WheelDriftBounded(Step(s, inputs[0]), inputs[1..]);
    }
  }
}
