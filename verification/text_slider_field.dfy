/**
 * `TextSliderField`: the value arithmetic (affine range map, clamping,
 * snapping to the step) and the phase machine driven by the drag gesture, the
 * tap gesture, submission and the change observers of the field's state.
 *
 * Every closure of the field is one event. The framework invokes the change
 * observers after the watched property took a new value; here such an event
 * carries the new value, stores it and runs the observer's body. Which
 * observers the framework invokes after a handler wrote a watched property is
 * its business, so events are never chained.
 *
 * The field writes its value through the binding the slider's initialiser
 * built, so every write passes through `WriteBack` for the slider's kind of
 * value, and every read sees what the binding kept.
 */
module TextSliderField {
  import opened Wrappers
  import opened Reals
  import opened TextSlider

  /** `logicalWidth`: a drag across this many points moves through the whole bounds. */
  const LogicalWidth: real := 320.0

  /** The `0...1` range the drag position is normalised into. */
  const UnitBounds: Bounds := Bounds(0.0, 1.0)

  /** A range a value can be mapped out of: its width is not zero. */
  predicate NonDegenerate(b: Bounds)
  {
    b.lower != b.upper
  }

  // ---------------------------------------------------------------------------
  // Arithmetic
  // ---------------------------------------------------------------------------

  /** `FloatingPoint.map(from:to:)`: the affine map that sends one range onto
      another, end to end. */
  function MapRange(x: real, source: Bounds, destination: Bounds): (r: real)
    requires NonDegenerate(source)
    ensures x == source.lower ==> r == destination.lower
    ensures x == source.upper ==> r == destination.upper
    ensures (r - destination.lower) * (source.upper - source.lower)
         == (x - source.lower) * (destination.upper - destination.lower)
  {
    var width := source.upper - source.lower;
    var scaled := (x - source.lower) * (destination.upper - destination.lower);
    assert (scaled / width) * width == scaled;
    (scaled / width) + destination.lower
  }

  /** Mapping into a range and back out of it returns the original value. */
  lemma MapRangeRoundTrip(x: real, source: Bounds, destination: Bounds)
    requires NonDegenerate(source) && NonDegenerate(destination)
    ensures MapRange(MapRange(x, source, destination), destination, source) == x
  {
    var ws, wd := source.upper - source.lower, destination.upper - destination.lower;
    var t := (x - source.lower) / ws;
    assert t * ws == x - source.lower;
    var y := MapRange(x, source, destination);
    assert y - destination.lower == t * wd;
    assert (y - destination.lower) / wd == t;
    assert MapRange(y, destination, source) == ((y - destination.lower) * ws) / wd + source.lower;
    assert ((y - destination.lower) * ws) / wd == t * ws;
  }

  /** `ClosedRange.map(from:to:)`: each end mapped on its own. Building the
      result with `...` traps unless the mapped ends are ordered, so callers
      must keep them so. */
  function MapBounds(b: Bounds, source: Bounds, destination: Bounds): (r: Bounds)
    requires NonDegenerate(source)
    requires MapRange(b.lower, source, destination) <= MapRange(b.upper, source, destination)
    ensures r.lower == MapRange(b.lower, source, destination)
    ensures r.upper == MapRange(b.upper, source, destination)
    ensures r.lower <= r.upper
    ensures b == source ==> r == destination
  {
    Bounds(MapRange(b.lower, source, destination), MapRange(b.upper, source, destination))
  }

  /** Mapping a range there and back gives the range again. */
  lemma MapBoundsRoundTrip(b: Bounds, source: Bounds, destination: Bounds)
    requires NonDegenerate(source) && NonDegenerate(destination) && b.lower <= b.upper
    requires MapRange(b.lower, source, destination) <= MapRange(b.upper, source, destination)
    ensures var r := MapBounds(b, source, destination);
      MapRange(r.lower, destination, source) <= MapRange(r.upper, destination, source)
      && MapBounds(r, destination, source) == b
  {
    MapRangeRoundTrip(b.lower, source, destination);
    MapRangeRoundTrip(b.upper, source, destination);
  }

  /** Clamping as `submit` and `update` both write it: at most the upper end,
      then at least the lower end (for reals the order of the arguments of
      `min` and `max` does not matter). With inverted bounds the lower end wins. */
  function Clamp(x: real, bounds: Bounds): (r: real)
    ensures bounds.lower <= bounds.upper ==> bounds.lower <= r <= bounds.upper
    ensures bounds.lower <= x <= bounds.upper ==> r == x
    ensures bounds.lower <= bounds.upper && x < bounds.lower ==> r == bounds.lower
    ensures bounds.lower <= bounds.upper && bounds.upper < x ==> r == bounds.upper
    ensures bounds.upper < bounds.lower ==> r == bounds.lower
  {
    Max(Min(x, bounds.upper), bounds.lower)
  }

  lemma ClampIdempotent(x: real, bounds: Bounds)
    ensures Clamp(Clamp(x, bounds), bounds) == Clamp(x, bounds)
  {
  }

  /** Swift's `round`: the nearest integer, ties away from zero. */
  function RoundHalfAwayFromZero(x: real): (n: int)
    ensures -0.5 <= x - n as real <= 0.5
    ensures x - n as real == 0.5 ==> x < 0.0
    ensures x - n as real == -0.5 ==> x > 0.0
    ensures x >= 0.0 ==> n >= 0
  {
    if x >= 0.0 then (x + 0.5).Floor else -((-x + 0.5).Floor)
  }

  /** `value` is `lower` plus a whole, non-negative number of steps. */
  predicate OnGrid(value: real, lower: real, step: real)
    requires step > 0.0
  {
    var q := (value - lower) / step;
    q >= 0.0 && q.Floor as real == q
  }

  /** The snapping of `update`: the grid point `lower + k * step` nearest to a
      value at or above `lower`; a value halfway between two grid points goes
      to the upper one. */
  function Snap(clamped: real, lower: real, step: real): (r: real)
    requires step > 0.0
    ensures clamped >= lower ==> OnGrid(r, lower, step)
    ensures -step / 2.0 <= r - clamped <= step / 2.0
    ensures clamped >= lower ==> -step / 2.0 < r - clamped
  {
    var q := (clamped - lower) / step;
    var n := RoundHalfAwayFromZero(q);
    SnapNear(clamped, lower, step, q, n);
    (n as real) * step + lower
  }

  lemma SnapNear(clamped: real, lower: real, step: real, q: real, n: int)
    requires step > 0.0 && q == (clamped - lower) / step
    requires -0.5 <= q - n as real <= 0.5
    requires q - n as real == 0.5 ==> q < 0.0
    requires q >= 0.0 ==> n >= 0
    ensures clamped >= lower ==> OnGrid(n as real * step + lower, lower, step)
    ensures -step / 2.0 <= (n as real * step + lower) - clamped <= step / 2.0
    ensures clamped >= lower ==> -step / 2.0 < (n as real * step + lower) - clamped
  {
    var r := n as real * step + lower;
    var d := n as real - q;
    assert q * step == clamped - lower;
    assert r - clamped == d * step;
    ScaleWithin(d, step);
    GridPoint(n, lower, step);
    assert (n as real).Floor == n;
    if clamped >= lower {
      ScaleWithin(q, step);
      assert q >= 0.0;
      assert d > -0.5;
      AboveHalfStep(r - clamped, d, step);
    }
  }

  /** Less than half a unit below zero, scaled by a positive step, is less
      than half a step below zero. */
  lemma AboveHalfStep(e: real, d: real, step: real)
    requires step > 0.0 && e == d * step && d > -0.5
    ensures -step / 2.0 < e
  {
    assert (d + 0.5) * step > 0.0;
  }

  /** The grid point `lower + n * step` lies `n` steps above `lower`. */
  lemma GridPoint(n: int, lower: real, step: real)
    requires step > 0.0
    ensures (n as real * step + lower - lower) / step == n as real
  {
    assert n as real * step + lower - lower == n as real * step;
  }

  /** Multiplying by a positive factor keeps signs and scales a half-unit bound. */
  lemma ScaleWithin(d: real, step: real)
    requires step > 0.0
    ensures -0.5 <= d <= 0.5 ==> -step / 2.0 <= d * step <= step / 2.0
    ensures d * step >= 0.0 ==> d >= 0.0
  {
    if d < 0.0 {
      assert d * step < 0.0;
    }
    if -0.5 <= d <= 0.5 {
      assert (d - 0.5) * step <= 0.0;
      assert (d + 0.5) * step >= 0.0;
    }
  }

  /** Clamp-then-snap, the part of `update` after the range map: the clamped
      value when the step is not positive, otherwise the grid point nearest to
      it, ties going up. */
  function Quantize(bounded: real, bounds: Bounds, step: real): (r: real)
    ensures var clamped := Clamp(bounded, bounds);
      && (step <= 0.0 ==> r == clamped)
      && (step > 0.0 ==> OnGrid(r, bounds.lower, step) && -step / 2.0 < r - clamped <= step / 2.0)
    ensures bounds.lower <= r
  {
    var clamped := Clamp(bounded, bounds);
    if step > 0.0 then
      var r := Snap(clamped, bounds.lower, step);
      OnGridAbove(r, bounds.lower, step);
      r
    else
      clamped
  }

  /** `update(_:)`: maps a normalised position into the bounds, clamps it, and
      snaps it to the step grid when the step is positive. A snapped value can
      lie up to half a step above the upper end when the bounds' width is not a
      multiple of the step, so only the clamped value is in bounds. */
  function Update(newValue: real, bounds: Bounds, step: real): (r: real)
    ensures var clamped := Clamp(MapRange(newValue, UnitBounds, bounds), bounds);
      && (step <= 0.0 ==> r == clamped)
      && (step > 0.0 ==> OnGrid(r, bounds.lower, step) && -step / 2.0 < r - clamped <= step / 2.0)
    ensures bounds.lower <= r
    ensures bounds.lower <= bounds.upper && step <= 0.0 ==> r <= bounds.upper
    ensures bounds.lower <= bounds.upper && step > 0.0 ==> r <= bounds.upper + step / 2.0
  {
    Quantize(MapRange(newValue, UnitBounds, bounds), bounds, step)
  }

  /** A grid point is never below the grid's start. */
  lemma OnGridAbove(r: real, lower: real, step: real)
    ensures step > 0.0 && OnGrid(r, lower, step) ==> lower <= r
  {
    if step > 0.0 && OnGrid(r, lower, step) {
      var q := (r - lower) / step;
      assert r - lower == q * step;
    }
  }

  /** A drag to the far end of the track writes the upper end, snapped. */
  lemma UpdateAtFarEnd(bounds: Bounds, step: real)
    requires bounds.lower < bounds.upper && step > 0.0
    ensures Update(1.0, bounds, step) == Snap(bounds.upper, bounds.lower, step)
  {
    UpdateUnfold(1.0, bounds, step);
    QuantizeUnfold(MapRange(1.0, UnitBounds, bounds), bounds, step);
  }

  /** The snapped value does leave the bounds: with bounds 0...1 and step 0.4,
      the far end of a drag snaps to 1.2. */
  lemma SnapCanExceedUpper(bounds: Bounds, step: real)
    requires bounds == Bounds(0.0, 1.0) && step == 0.4
    ensures Update(1.0, bounds, step) == 1.2 > bounds.upper
  {
    UpdateAtFarEnd(bounds, step);
    SnapExample(bounds.upper, bounds.lower, step);
  }

  lemma UpdateUnfold(x: real, bounds: Bounds, step: real)
    ensures Update(x, bounds, step) == Quantize(MapRange(x, UnitBounds, bounds), bounds, step)
  {
  }

  lemma QuantizeUnfold(x: real, bounds: Bounds, step: real)
    requires step > 0.0
    ensures Quantize(x, bounds, step) == Snap(Clamp(x, bounds), bounds.lower, step)
  {
  }

  /** 1.0 is two and a half steps of 0.4 above 0.0, and the tie goes up. */
  lemma SnapExample(clamped: real, lower: real, step: real)
    requires clamped == 1.0 && lower == 0.0 && step == 0.4
    ensures Snap(clamped, lower, step) == 1.2
  {
    var q := (clamped - lower) / step;
    assert q == 2.5;
    assert RoundHalfAwayFromZero(q) == 3 by {
      assert (q + 0.5).Floor == 3;
    }
  }

  // ---------------------------------------------------------------------------
  // Field state
  // ---------------------------------------------------------------------------

  datatype Axis = Horizontal | Vertical

  /** A point of the drag gesture (`value.startLocation`, `value.location`). */
  datatype Location = Location(x: real, y: real)

  /** The field's state: the slider's phase binding, the axis the current drag
      is locked to, keyboard focus, the value binding, the number in the text
      field, and the normalised value captured when dragging began. */
  datatype Field = Field(
    phase: Phase,
    lockedAxis: Option<Axis>,
    focus: bool,
    value: real,
    adjustedValue: real,
    previousValue: real)

  /** What the slider hands the field and never changes: the kind of value its
      binding stores, the bounds and the step. */
  datatype Config = Config(kind: ValueKind, bounds: Bounds, step: real)

  /** The binding can hold both ends of the bounds: a floating-point value
      always, an integer one when both ends are whole numbers. */
  predicate HoldsBounds(config: Config)
  {
    config.kind == Integer ==> Integral(config.bounds.lower) && Integral(config.bounds.upper)
  }

  /** A freshly built slider and field: ended, no locked axis, no focus, the
      text showing the value, nothing captured. */
  function Initial(value: real): (s: Field)
    ensures s.phase == InitialPhase && s.lockedAxis.None? && !s.focus
    ensures s.value == value && s.adjustedValue == value && s.previousValue == 0.0
  {
    Field(InitialPhase, None, false, value, value, 0.0)
  }

  /** `normalizedValue`: where the text's number sits in the bounds, as a
      fraction of the way from the lower end to the upper end. */
  function NormalizedValue(s: Field, bounds: Bounds): (r: real)
    requires NonDegenerate(bounds)
    ensures s.adjustedValue == bounds.lower ==> r == 0.0
    ensures s.adjustedValue == bounds.upper ==> r == 1.0
    ensures MapRange(r, UnitBounds, bounds) == s.adjustedValue
  {
    MapRangeRoundTrip(s.adjustedValue, bounds, UnitBounds);
    MapRange(s.adjustedValue, bounds, UnitBounds)
  }

  /** `submit()`: nothing when the value already equals the text's number
      (even when it lies outside the bounds); otherwise the clamped number is
      written through the binding and nothing else changes. A floating-point
      value, and an integer one between whole bounds, then lies in the bounds. */
  function Submit(config: Config, s: Field): (t: Field)
    ensures s.value == s.adjustedValue ==> t == s
    ensures s.value != s.adjustedValue ==>
      t == s.(value := WriteBack(config.kind, Clamp(s.adjustedValue, config.bounds)))
    ensures s.value != s.adjustedValue && config.bounds.lower <= config.bounds.upper && HoldsBounds(config) ==>
      config.bounds.lower <= t.value <= config.bounds.upper
    ensures s.value != s.adjustedValue && config.kind == Integer ==> Integral(t.value)
  {
    if s.value == s.adjustedValue then s
    else
      var clamped := Clamp(s.adjustedValue, config.bounds);
      WriteBackKeepsIntegralBounds(config.kind, clamped, config.bounds.lower, config.bounds.upper);
      s.(value := WriteBack(config.kind, clamped))
  }

  /** Submitting twice is submitting once. */
  lemma SubmitIdempotent(config: Config, s: Field)
    ensures Submit(config, Submit(config, s)) == Submit(config, s)
  {
  }

  // ---------------------------------------------------------------------------
  // Drag arithmetic
  // ---------------------------------------------------------------------------

  /** The axis a drag locks to: horizontal only when it has moved strictly
      further across than up or down; a tie locks vertically. */
  function LockAxis(start: Location, location: Location): (a: Axis)
    ensures a == Horizontal <==> Abs(location.x - start.x) > Abs(location.y - start.y)
  {
    var x := Abs(location.x - start.x);
    var y := Abs(location.y - start.y);
    if x > y then Horizontal else Vertical
  }

  /** The argument of `update` while dragging, computed as the gesture handler
      does: the captured value plus `next - previous`, with an adjustment of 1. */
  function DragTarget(previousValue: real, axis: Axis, start: Location, location: Location): (v: real)
    ensures axis == Horizontal ==> v == previousValue + (location.x - start.x) / LogicalWidth
    ensures axis == Vertical ==> v == previousValue + (start.y - location.y) / LogicalWidth
  {
    var adjustment := 1.0;
    var previous := match axis
      case Horizontal => (1.0 - (location.x / LogicalWidth)) * adjustment
      case Vertical => location.y / LogicalWidth * adjustment;
    var next := match axis
      case Horizontal => (1.0 - (start.x / LogicalWidth)) * adjustment
      case Vertical => start.y / LogicalWidth * adjustment;
    previousValue + next - previous
  }

  // ---------------------------------------------------------------------------
  // Event handlers
  // ---------------------------------------------------------------------------

  /** `DragGesture.onChanged`: the first movement begins an edit, the second
      starts dragging (capturing the normalised value and dropping focus),
      later ones lock an axis once and write the updated value through the
      binding; keyboard editing ignores drags. */
  function OnDragChanged(config: Config, s: Field, start: Location, location: Location): (t: Field)
    requires s.phase == Began ==> NonDegenerate(config.bounds)
    ensures s.phase == Ended ==> t == s.(phase := Began)
    ensures s.phase == Began ==>
      t == s.(phase := Dragging, previousValue := NormalizedValue(s, config.bounds), focus := false)
    ensures s.phase == Editing ==> t == s
    ensures s.phase == Dragging ==>
      && t.lockedAxis.Some?
      && (s.lockedAxis.Some? ==> t.lockedAxis == s.lockedAxis)
      && t == s.(lockedAxis := t.lockedAxis,
                 value := WriteBack(config.kind,
                                    Update(DragTarget(s.previousValue, t.lockedAxis.value, start, location),
                                           config.bounds, config.step)))
  {
    match s.phase
    case Ended => s.(phase := Began)
    case Began =>
      s.(phase := Dragging, previousValue := NormalizedValue(s, config.bounds), focus := false)
    case Dragging =>
      var locked := if s.lockedAxis.None? then Some(LockAxis(start, location)) else s.lockedAxis;
      var axis := locked.UnwrapOr(Vertical);
      var updated := Update(DragTarget(s.previousValue, axis, start, location), config.bounds, config.step);
      s.(lockedAxis := locked, value := WriteBack(config.kind, updated))
    case Editing => s
  }

  /** `DragGesture.onEnded`: the edit ends and the axis is released. */
  function OnDragEnded(s: Field): (t: Field)
    ensures t.phase == Ended && t.lockedAxis.None?
    ensures t.(phase := s.phase, lockedAxis := s.lockedAxis) == s
  {
    s.(phase := Ended, lockedAxis := None)
  }

  /** `TapGesture.onEnded`: asks for keyboard focus unless a drag is under way. */
  function OnTap(s: Field): (t: Field)
    ensures s.phase == Dragging ==> t == s
    ensures s.phase != Dragging ==> t.focus && t.(focus := s.focus) == s
  {
    if s.phase == Dragging then s else s.(focus := true)
  }

  /** `onChange(of: adjustedValue)`: the new number reaches the value binding
      only while dragging, and the binding keeps what its kind can hold. */
  function OnAdjustedValueChange(config: Config, s: Field, newValue: real): (t: Field)
    ensures t.adjustedValue == newValue
    ensures s.phase != Dragging ==> t.value == s.value
    ensures s.phase == Dragging && config.kind == FloatingPoint ==> t.value == newValue
    ensures s.phase == Dragging && config.kind == Integer ==>
      Integral(t.value) && -1.0 < newValue - t.value < 1.0
    ensures s.phase == Dragging && config.kind == Integer ==>
      (0.0 <= t.value <= newValue || newValue <= t.value <= 0.0)
    ensures t.(adjustedValue := s.adjustedValue, value := s.value) == s
  {
    var s' := s.(adjustedValue := newValue);
    if s'.phase == Dragging then s'.(value := WriteBack(config.kind, newValue)) else s'
  }

  /** `onChange(of: focus)`: gaining focus starts keyboard editing; losing it
      submits the text and ends the edit. */
  function OnFocusChange(config: Config, s: Field, newValue: bool): (t: Field)
    ensures t.focus == newValue
    ensures newValue ==> t == s.(focus := true, phase := Editing)
    ensures !newValue ==> t == Submit(config, s.(focus := false)).(phase := Ended)
  {
    var s' := s.(focus := newValue);
    if newValue then s'.(phase := Editing)
    else
      var submitted := Submit(config, s');
      submitted.(phase := if newValue then Editing else Ended)
  }

  /** `onChange(of: value)`: a new value is copied into the text and focus is dropped. */
  function OnValueChange(s: Field, newValue: real): (t: Field)
    ensures t.value == newValue && t.adjustedValue == newValue && !t.focus
    ensures t.(value := s.value, adjustedValue := s.adjustedValue, focus := s.focus) == s
  {
    s.(value := newValue, adjustedValue := newValue, focus := false)
  }

  datatype Event =
    | DragChanged(start: Location, location: Location)
    | DragEnded
    | Tapped
    | Submitted
    | AdjustedValueChanged(newAdjusted: real)
    | FocusChanged(newFocus: bool)
    | ValueChanged(newValue: real)

  /** The events whose handlers write the phase binding. */
  predicate MovesPhase(e: Event)
  {
    e.DragChanged? || e.DragEnded? || e.FocusChanged?
  }

  /** One closure of the field running. Only the drag handlers and the focus
      observer move the phase; the end of a drag and a tap leave the value and
      the text alone, and a drag writes the value only while dragging. */
  function Step(config: Config, s: Field, e: Event): (t: Field)
    requires e.DragChanged? && s.phase == Began ==> NonDegenerate(config.bounds)
    ensures !MovesPhase(e) ==> t.phase == s.phase
    ensures e.DragEnded? || e.Tapped? ==> t.value == s.value && t.adjustedValue == s.adjustedValue
    ensures e.DragChanged? && s.phase != Dragging ==> t.value == s.value
    ensures !e.ValueChanged? && !e.AdjustedValueChanged? ==> t.adjustedValue == s.adjustedValue
  {
    match e
    case DragChanged(start, location) => OnDragChanged(config, s, start, location)
    case DragEnded => OnDragEnded(s)
    case Tapped => OnTap(s)
    case Submitted => Submit(config, s)
    case AdjustedValueChanged(v) => OnAdjustedValueChange(config, s, v)
    case FocusChanged(f) => OnFocusChange(config, s, f)
    case ValueChanged(v) => OnValueChange(s, v)
  }

  /** A sequence of closures, first to last. No events change nothing; events
      none of which moves the phase keep it, and events none of which is a
      change of the text or the value keep the text's number. */
  function Run(config: Config, s: Field, events: seq<Event>): (t: Field)
    requires NonDegenerate(config.bounds)
    ensures |events| == 0 ==> t == s
    ensures (forall i :: 0 <= i < |events| ==> !MovesPhase(events[i])) ==> t.phase == s.phase
    ensures (forall i :: 0 <= i < |events| ==> !events[i].ValueChanged? && !events[i].AdjustedValueChanged?) ==>
      t.adjustedValue == s.adjustedValue
    decreases |events|
  {
    if |events| == 0 then s
    else
      var next := Step(config, s, events[0]);
      assert forall i :: 0 <= i < |events| - 1 ==> events[1..][i] == events[i + 1];
      Run(config, next, events[1..])
  }

  // ---------------------------------------------------------------------------
  // Properties of the machine
  // ---------------------------------------------------------------------------

  /** While dragging the field never holds keyboard focus. */
  predicate Consistent(s: Field)
  {
    s.phase == Dragging ==> !s.focus
  }

  lemma StepKeepsConsistent(config: Config, s: Field, e: Event)
    requires e.DragChanged? && s.phase == Began ==> NonDegenerate(config.bounds)
    requires Consistent(s)
    ensures Consistent(Step(config, s, e))
  {
  }

  /** Every state a slider reaches from its initial state, whatever the events,
      keeps dragging and keyboard focus apart. */
  lemma {:induction false} RunKeepsConsistent(config: Config, s: Field, events: seq<Event>)
    requires NonDegenerate(config.bounds)
    requires Consistent(s)
    ensures Consistent(Run(config, s, events))
    decreases |events|
  {
    if |events| > 0 {
      StepKeepsConsistent(config, s, events[0]);
      RunKeepsConsistent(config, Step(config, s, events[0]), events[1..]);
    }
  }

  lemma ReachableIsConsistent(config: Config, value: real, events: seq<Event>)
    requires NonDegenerate(config.bounds)
    ensures Consistent(Run(config, Initial(value), events))
  {
    RunKeepsConsistent(config, Initial(value), events);
  }

  /** A drag locks its axis once: whatever the later positions, a locked axis
      stays; the first dragging movement locks horizontally exactly when it
      went further across than up or down. */
  lemma AxisLockedOncePerDrag(config: Config, s: Field, start: Location, location: Location)
    requires s.phase == Dragging
    ensures var t := OnDragChanged(config, s, start, location);
      && (s.lockedAxis.Some? ==> t.lockedAxis == s.lockedAxis)
      && (s.lockedAxis.None? ==>
            (t.lockedAxis == Some(Horizontal) <==> Abs(location.x - start.x) > Abs(location.y - start.y)))
  {
  }

  /** Moving the touch while dragging writes, through the binding, the captured
      value moved by the touch's travel along the locked axis over the logical
      width, mapped into the bounds, clamped and snapped. A floating-point
      value is never below the lower end and at most half a step above the
      upper end; an integer value is whole, and never below a whole lower end. */
  lemma DragWritesValue(config: Config, s: Field, start: Location, location: Location)
    requires s.phase == Dragging && s.lockedAxis.Some?
    ensures var t := OnDragChanged(config, s, start, location);
      var travel := if s.lockedAxis.value == Horizontal then location.x - start.x else start.y - location.y;
      var updated := Update(s.previousValue + travel / LogicalWidth, config.bounds, config.step);
      && t.value == WriteBack(config.kind, updated)
      && (config.kind == FloatingPoint || Integral(config.bounds.lower) ==> config.bounds.lower <= t.value)
      && (config.kind == FloatingPoint && config.bounds.lower <= config.bounds.upper && config.step > 0.0 ==>
            t.value <= config.bounds.upper + config.step / 2.0)
      && (config.kind == Integer ==> Integral(t.value))
  {
    var travel := if s.lockedAxis.value == Horizontal then location.x - start.x else start.y - location.y;
    var updated := Update(s.previousValue + travel / LogicalWidth, config.bounds, config.step);
    WriteBackKeepsIntegralBounds(config.kind, updated, config.bounds.lower, config.bounds.upper);
  }

  /** A drag from rest: the first two movements only begin the edit and start
      dragging, leaving the value alone; a third movement that returns to the
      start point writes the text's number clamped and snapped, so a drag that
      goes nowhere keeps an in-bounds value on the step grid. */
  lemma DragFromRest(config: Config, s: Field, a: Location, b: Location, c: Location, d: Location, start: Location)
    requires NonDegenerate(config.bounds)
    requires s.phase == Ended && s.lockedAxis.None?
    ensures var t := Run(config, s, [DragChanged(a, b), DragChanged(c, d)]);
      && t.phase == Dragging && t.value == s.value && !t.focus
      && Run(config, t, [DragChanged(start, start)]).value
         == WriteBack(config.kind, Quantize(s.adjustedValue, config.bounds, config.step))
  {
    var began := OnDragChanged(config, s, a, b);
    var t := OnDragChanged(config, began, c, d);
    var events := [DragChanged(a, b), DragChanged(c, d)];
    assert events[1..] == [DragChanged(c, d)];
    assert [DragChanged(c, d)][1..] == [];
    assert Run(config, s, events) == Run(config, began, [DragChanged(c, d)]);
    assert Run(config, began, [DragChanged(c, d)]) == Run(config, t, []);
    assert [DragChanged(start, start)][1..] == [];
    assert Run(config, t, [DragChanged(start, start)]) == OnDragChanged(config, t, start, start);
    var axis := LockAxis(start, start);
    assert DragTarget(t.previousValue, axis, start, start) == NormalizedValue(s, config.bounds);
    assert MapRange(NormalizedValue(s, config.bounds), UnitBounds, config.bounds) == s.adjustedValue;
  }

  /** The end of a drag always returns to the ended phase with no locked axis,
      whatever happened before it. */
  lemma DragEndResets(config: Config, s: Field, events: seq<Event>)
    requires NonDegenerate(config.bounds)
    ensures var t := Run(config, s, events + [DragEnded]);
      t.phase == Ended && t.lockedAxis.None?
  {
    RunAppend(config, s, events, [DragEnded]);
  }

  lemma {:induction false} RunAppend(config: Config, s: Field, xs: seq<Event>, ys: seq<Event>)
    requires NonDegenerate(config.bounds)
    ensures Run(config, s, xs + ys) == Run(config, Run(config, s, xs), ys)
    decreases |xs|
  {
    if |xs| == 0 {
      assert xs + ys == ys;
    } else {
      assert (xs + ys)[1..] == xs[1..] + ys;
      RunAppend(config, Step(config, s, xs[0]), xs[1..], ys);
    }
  }

  /** Keyboard editing: a tap outside a drag asks for focus, gaining focus
      enters editing, and losing it commits the clamped number through the
      binding and ends; a floating-point value, or an integer one between
      whole bounds, is then in bounds. */
  lemma TapThenBlur(config: Config, s: Field)
    requires s.phase != Dragging
    requires config.bounds.lower <= config.bounds.upper
    ensures var editing := OnFocusChange(config, OnTap(s), true);
      var ended := OnFocusChange(config, editing, false);
      && editing.phase == Editing && editing.focus
      && ended.phase == Ended && !ended.focus
      && (s.value != s.adjustedValue ==>
            && ended.value == WriteBack(config.kind, Clamp(s.adjustedValue, config.bounds))
            && (HoldsBounds(config) ==> config.bounds.lower <= ended.value <= config.bounds.upper))
      && (s.value == s.adjustedValue ==> ended.value == s.value)
  {
  }
}
