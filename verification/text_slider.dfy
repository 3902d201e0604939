/**
 * `TextSlider`: the phase type shared with the field, the four public
 * initialisers that fix bounds and step, the keyboard choice, and the value
 * binding the initialisers wrap around the caller's value.
 */
module TextSlider {
  import opened Wrappers

  /** `TextSlider.Phase`: the interaction the slider is in. */
  datatype Phase = Began | Editing | Dragging | Ended

  /** A `ClosedRange<Double>` built with `uncheckedBounds`: nothing orders its ends. */
  datatype Bounds = Bounds(lower: real, upper: real)

  /** Whether the caller's value is a binary floating-point or a binary integer type. */
  datatype ValueKind = FloatingPoint | Integer

  datatype Keyboard = DecimalPad | NumberPad

  /** What an initialiser fixes: the value's kind, bounds and step, and the phase
      the slider's own state starts in. */
  datatype Slider = Slider(kind: ValueKind, bounds: Bounds, step: real, phase: Phase)

  /** `@State private var phase: Phase = .ended`. */
  const InitialPhase: Phase := Ended

  /** The `in bounds` default of the two initialisers without a step. */
  const DefaultBounds: Bounds := Bounds(0.0, 1.0)

  /** The step the two initialisers without a step parameter use. */
  const ImplicitStep: real := 0.1

  /** The default of the `step` parameter of the other two initialisers. */
  const DefaultStep: real := 1.0

  /** `init(value:bounds:step:format:)`, the memberwise initialiser all four call. */
  function MakeSlider(kind: ValueKind, bounds: Bounds, step: real): Slider
  {
    Slider(kind, bounds, step, InitialPhase)
  }

  /** The floating-point initialiser without a step. */
  function FloatingSlider(bounds: Option<Bounds>): (s: Slider)
    ensures s.phase == Ended && s.kind == FloatingPoint && s.step == ImplicitStep
    ensures s.bounds == bounds.UnwrapOr(DefaultBounds)
  {
    MakeSlider(FloatingPoint, bounds.UnwrapOr(DefaultBounds), ImplicitStep)
  }

  /** The integer initialiser without a step: the integer ends become Doubles. */
  function IntegerSlider(bounds: Option<(int, int)>): (s: Slider)
    ensures s.phase == Ended && s.kind == Integer && s.step == ImplicitStep
    ensures bounds.None? ==> s.bounds == DefaultBounds
    ensures bounds.Some? ==> s.bounds == Bounds(bounds.value.0 as real, bounds.value.1 as real)
    ensures Integral(s.bounds.lower) && Integral(s.bounds.upper)
  {
    var ends := bounds.UnwrapOr((0, 1));
    MakeSlider(Integer, Bounds(ends.0 as real, ends.1 as real), ImplicitStep)
  }

  /** The floating-point initialiser with a step, which defaults to 1. */
  function SteppedFloatingSlider(lower: real, upper: real, step: Option<real>): (s: Slider)
    ensures s.phase == Ended && s.kind == FloatingPoint
    ensures s.bounds == Bounds(lower, upper)
    ensures s.step == step.UnwrapOr(DefaultStep)
  {
    MakeSlider(FloatingPoint, Bounds(lower, upper), step.UnwrapOr(DefaultStep))
  }

  /** The integer initialiser with a step, which defaults to 1. */
  function SteppedIntegerSlider(lower: int, upper: int, step: Option<real>): (s: Slider)
    ensures s.phase == Ended && s.kind == Integer
    ensures s.bounds == Bounds(lower as real, upper as real)
    ensures Integral(s.bounds.lower) && Integral(s.bounds.upper)
    ensures s.step == step.UnwrapOr(DefaultStep)
  {
    MakeSlider(Integer, Bounds(lower as real, upper as real), step.UnwrapOr(DefaultStep))
  }

  /** The keyboard of the slider's text field: decimal digits only when the
      step is fractional. */
  function KeyboardFor(step: real): (k: Keyboard)
    ensures k == DecimalPad <==> step < 1.0
  {
    if step < 1.0 then DecimalPad else NumberPad
  }

  /** The defaults of the four initialisers taken together: every slider starts
      ended; without a step parameter the step is 0.1 and the keyboard is the
      decimal pad; with the step left at its default it is 1 and the keyboard is
      the number pad; and bounds keep their ends even when they are inverted. */
  lemma InitialiserDefaults(bounds: Option<Bounds>, ints: Option<(int, int)>, lower: real, upper: real, step: Option<real>)
    ensures FloatingSlider(bounds).phase == Ended && IntegerSlider(ints).phase == Ended
    ensures SteppedFloatingSlider(lower, upper, step).phase == Ended
    ensures KeyboardFor(FloatingSlider(bounds).step) == DecimalPad
    ensures KeyboardFor(IntegerSlider(ints).step) == DecimalPad
    ensures step.None? ==> KeyboardFor(SteppedFloatingSlider(lower, upper, step).step) == NumberPad
    ensures lower > upper ==> SteppedFloatingSlider(lower, upper, step).bounds.lower > SteppedFloatingSlider(lower, upper, step).bounds.upper
  {
  }

  /** Swift's `BinaryInteger.init(_: Double)`: the fraction is dropped, rounding
      toward zero. */
  function TruncateTowardZero(x: real): (n: int)
    ensures x >= 0.0 ==> n as real <= x < n as real + 1.0
    ensures x < 0.0 ==> n as real - 1.0 < x <= n as real
  {
    if x >= 0.0 then x.Floor else -((-x).Floor)
  }

  /** The setter of the value binding the initialisers build: `Value($0)`.
      An integer value keeps only the whole part of what the field writes. */
  function WriteBack(kind: ValueKind, x: real): (v: real)
    ensures kind == FloatingPoint ==> v == x
    ensures kind == Integer ==> Integral(v) && -1.0 < x - v < 1.0
    ensures kind == Integer ==> (0.0 <= v <= x || x <= v <= 0.0)
  {
    match kind
    case FloatingPoint => x
    case Integer => TruncateTowardZero(x) as real
  }

  /** A whole number. */
  predicate Integral(x: real)
  {
    x.Floor as real == x
  }

  /** The integer clauses of `WriteBack` pin the written value down: the only
      whole number within 1 of `x` and no further from zero than `x` is the
      truncation of `x`. */
  lemma WriteBackIntegerUnique(x: real, v: real)
    requires Integral(v) && -1.0 < x - v < 1.0
    requires 0.0 <= v <= x || x <= v <= 0.0
    ensures v == WriteBack(Integer, x)
  {
    var n := TruncateTowardZero(x);
    var k := v.Floor;
    assert k as real == v;
    if x >= 0.0 {
      assert n as real <= x < n as real + 1.0;
      assert k <= n;
      assert k >= n;
    } else {
      assert n as real - 1.0 < x <= n as real;
      assert k >= n;
      assert k <= n;
    }
  }

  /** Truncation never leaves a range whose ends are whole numbers: a value at
      or above a whole lower end truncates to one at or above it, and likewise
      below a whole upper end. A floating-point value is written unchanged. */
  lemma WriteBackKeepsIntegralBounds(kind: ValueKind, x: real, lower: real, upper: real)
    ensures lower <= x && (kind == Integer ==> Integral(lower)) ==> lower <= WriteBack(kind, x)
    ensures x <= upper && (kind == Integer ==> Integral(upper)) ==> WriteBack(kind, x) <= upper
  {
    if kind == Integer {
      var n := TruncateTowardZero(x);
      if lower <= x && Integral(lower) && x >= 0.0 {
        assert lower.Floor <= n;
      }
      if x <= upper && Integral(upper) && x < 0.0 {
        assert upper.Floor >= n;
      }
    }
  }
}
