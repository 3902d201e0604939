# SwiftUIPlus core, modelled in Dafny

SwiftUIPlus is a Swift package of SwiftUI additions. This project models the
four parts of it that hold logic of their own. SwiftUI's views, bindings,
environment and gestures become plain values and events. `CGFloat` and
`Double` become `real`.

- **`VFlowStack` / `VFlowLayout`** (`flow_layout.dfy`, `flow_placement.dfy`).
  A layout that packs children into lines.
  - `sizeThatFits` packs greedily, left to right: a child joins the current
    line when `fitting` says it fits, and otherwise starts a new line.
  - The cache's size is the widest line by the joined line heights.
  - `placeSubviews` gives each child an origin from the alignments and
    spacings.
  - `joined(spacing:)` is the spaced sum both sizes use.
  - The `VFlowPositioning` and `VFlowStack` initialisers supply the default
    centre alignment and spacing of 10.
- **`TextSliderField`** (`text_slider_field.dfy`).
  - The value arithmetic: the affine `map(from:to:)`, clamping, and
    `update`'s clamp-then-snap to the step.
  - `submit`.
  - The phase machine of the field. It is driven by the drag gesture's
    `onChanged` and `onEnded`, the tap gesture, submission, and the three
    `onChange` observers. It has an axis lock and a drag delta over the
    logical width of 320.
- **`TextSlider`** (`text_slider.dfy`).
  - The `Phase` enum and the initial phase `.ended`.
  - The bounds and step defaults of the four public initialisers.
  - The integer write-back of the value binding.
  - The keyboard choice.
- **`PresentationLink`** (`presentation.dfy`).
  - The `presentationDestinations` registry, keyed by type, and its merging
    setter.
  - The environment entry each `presentationDestination` modifier adds.
  - `AnyMetaType` equality and hashing, and `AnyIdentifiable`.
  - What pressing a link does: write the item of the registered modifier,
    or report a missing destination.
  - The presentation style that is actually used on each platform.

Behaviours of the code worth knowing:

- **An exact fit wraps.** `fitting` compares with a strict `<`, so a line
  whose new joined width would equal the available width wraps. Children of
  width 60, 60, 60 and 60 at width 200 with spacing 10 pack as two lines of
  two.
- **A dragged value can pass the upper bound.** `update` snaps after
  clamping, so the value can lie up to half a step above the upper bound.
  For example, bounds 0...1 with step 0.4 drag to 1.2 (`SnapCanExceedUpper`).
  A floating-point value is always on the step grid and never below the lower
  bound. An integer slider keeps only the whole part of the snapped value, so
  its value is a whole number that need not lie on the grid: in the same
  example it becomes 1.
- **`submit` does not snap.** It only clamps.
- **Every write of the value goes through the slider's binding.** An integer
  slider keeps only the whole part of what the field writes, truncating toward
  zero, and the field then reads that whole number back.
- **The integer initialisers cannot be called with the standard integer
  types.** They require `Value: BinaryInteger` and `Value.Stride:
  BinaryFloatingPoint`, but the `Stride` of `Int` and of every other standard
  integer type is itself an integer type. The model still states what they
  would build, for an integer type that met both constraints.
- **A link stays enabled without a destination.** A link is disabled only
  when its value is nil. With no matching destination it stays enabled, and
  pressing it only reports the missing destination.

## Model

| member | source | states |
|---|---|---|
| FlowLayout.MakeHorizontal | Sources/SwiftUIPlus/VFlowStack/VFlowStack.swift:161-164 | horizontal positioning keeps a given alignment and a given spacing; a missing alignment becomes centre and a missing spacing 10 |
| FlowLayout.MakeVertical | Sources/SwiftUIPlus/VFlowStack/VFlowStack.swift:170-173 | vertical positioning keeps a given alignment and a given spacing; a missing alignment becomes centre and a missing spacing 10 |
| FlowLayout.MakePositioning | Sources/SwiftUIPlus/VFlowStack/VFlowStack.swift:178-181 | each given axis is kept as it is; a missing axis is centred with spacing 10 |
| FlowLayout.UniformPositioning | Sources/SwiftUIPlus/VFlowStack/VFlowStack.swift:183-188 | one required alignment and one spacing serve both axes: the given spacing is kept, and a nil one becomes 10 |
| FlowLayout.StackUniformPositioning | Sources/SwiftUIPlus/VFlowStack/VFlowStack.swift:27-30 | the stack's one-spacing initialiser: a given alignment is kept and a missing one is centre on both axes; both axes share the spacing, a nil one becoming 10 |
| FlowLayout.StackPositioning | Sources/SwiftUIPlus/VFlowStack/VFlowStack.swift:15-21 | the stack's alignment is the given one, or centre on both axes; each given spacing is kept and each nil one becomes 10; equal spacings give the stack's one-spacing positioning |
| FlowLayout.DefaultsAgree | Sources/SwiftUIPlus/VFlowStack/VFlowStack.swift:15-30 | every positioning initialiser called without arguments gives centre alignment and spacing 10 on both axes |
| FlowLayout.JoinedIsSumPlusGaps | Sources/SwiftUIPlus/VFlowStack/VFlowStack.swift:193-199 | joined over n values is their sum plus (n − 1) spacings, so an empty collection gives −spacing |
| FlowLayout.JoinedSnoc | Sources/SwiftUIPlus/VFlowStack/VFlowStack.swift:193-199 | appending a value grows the joined value by the value plus one spacing |
| FlowLayout.MaxOf | Sources/SwiftUIPlus/VFlowStack/VFlowStack.swift:62-63 | the max-reduction from 0 is at least 0 and every element, and is 0 or one of the elements |
| FlowLayout.LineContentSizeIs | Sources/SwiftUIPlus/VFlowStack/VFlowStack.swift:58-65 | a line's width is its child widths plus the gaps between them (−spacing when empty); its height is the tallest child, or 0 |
| FlowLayout.FittingIff | Sources/SwiftUIPlus/VFlowStack/VFlowStack.swift:67-70 | a child fits exactly when the line with it appended is strictly narrower than the available width |
| FlowLayout.MakeCache | Sources/SwiftUIPlus/VFlowStack/VFlowStack.swift:151-153 | a new cache has no lines and the vertical spacing |
| FlowLayout.CacheContentSizeIs | Sources/SwiftUIPlus/VFlowStack/VFlowStack.swift:75-82 | the layout is as wide as its widest line (at least 0, and attained), and as tall as the line heights plus vertical gaps |
| FlowLayout.SizeThatFits | Sources/SwiftUIPlus/VFlowStack/VFlowStack.swift:87-107 | with no children the size is zero and the cache is untouched; otherwise the cached lines hold exactly the children in order, and the size is the cache's size |
| FlowLayout.AdvanceKeepsInv | Sources/SwiftUIPlus/VFlowStack/VFlowStack.swift:95-101 | one iteration of the loop keeps the partition, the spacing, the width bound, greediness and the first-line rule |
| FlowLayout.FeedKeepsInv | Sources/SwiftUIPlus/VFlowStack/VFlowStack.swift:93-102 | the loop over any children keeps the packing invariant |
| FlowLayout.PackLinesInv | Sources/SwiftUIPlus/VFlowStack/VFlowStack.swift:93-105 | the cached lines partition the children, share the spacing, keep the width bound, are greedy, only the first may be empty, and the last line is never empty |
| FlowLayout.PackPartition | Sources/SwiftUIPlus/VFlowStack/VFlowStack.swift:93-105 | concatenating the cached lines gives the children in input order; no children give no lines |
| FlowLayout.PackWidthBound | Sources/SwiftUIPlus/VFlowStack/VFlowStack.swift:95-101 | a line of two or more children is strictly narrower than the available width; only the empty first line or a single child can reach it |
| FlowLayout.PackEmptyLines | Sources/SwiftUIPlus/VFlowStack/VFlowStack.swift:95-105 | only the first line can be empty, and it is empty exactly when the first child is at least as wide as the available width; the last line holds a child |
| FlowLayout.PackGreedy | Sources/SwiftUIPlus/VFlowStack/VFlowStack.swift:95-101 | every later line starts with a child that would have made the previous line reach the available width |
| FlowLayout.EmptyLineAddsGap | Sources/SwiftUIPlus/VFlowStack/VFlowStack.swift:75-82 | an empty line in front adds exactly one vertical spacing to the height; its width is −spacing, so with a non-negative horizontal spacing it leaves the width unchanged |
| FlowLayout.PackLinesVersusIntended | Sources/SwiftUIPlus/VFlowStack/VFlowStack.swift:95-105 | the code's lines equal the intended packing when the first child fits, and otherwise are an empty line followed by the intended packing |
| FlowLayout.PackLeadingEmptyLine | Sources/SwiftUIPlus/VFlowStack/VFlowStack.swift:95-101 | when the first child is at least as wide as the available width, the first cached line is empty and the height grows by one vertical spacing |
| FlowLayout.PackIntendedNoEmptyLine | Sources/SwiftUIPlus/VFlowStack/VFlowStack.swift:93-105 | the corrected packing keeps the partition, has no empty line, and only a single child can reach the available width |
| FlowLayout.SizeThatFitsIntended | Sources/SwiftUIPlus/VFlowStack/VFlowStack.swift:87-107 | the corrected size: same guard and partition, no empty line, one vertical spacing less than the code when the first child is too wide, identical otherwise |
| FlowPlacement.LineStartX | Sources/SwiftUIPlus/VFlowStack/VFlowStack.swift:117-124 | a line starts at 0 (leading), ends at the bounds' width (trailing), or has equal margins (otherwise) |
| FlowPlacement.OffsetY | Sources/SwiftUIPlus/VFlowStack/VFlowStack.swift:129-136 | a child sits on the line's top, on its bottom, or with equal gaps, so the offset lies in [0, lineHeight − h] |
| FlowPlacement.PlaceSubviews | Sources/SwiftUIPlus/VFlowStack/VFlowStack.swift:109-149 | exactly one origin is produced per cached child |
| FlowPlacement.PlaceRunAt | Sources/SwiftUIPlus/VFlowStack/VFlowStack.swift:126-145 | child j of a line is placed at the line start plus the widths and spacings of the children before it, at the line's top plus its vertical offset |
| FlowPlacement.PlaceLinesAt | Sources/SwiftUIPlus/VFlowStack/VFlowStack.swift:113-148 | line i starts at its aligned x and at the heights and vertical spacings of the lines above it |
| FlowPlacement.PlaceSubviewsAt | Sources/SwiftUIPlus/VFlowStack/VFlowStack.swift:109-149 | the running index gives child j of line i the origin of line i's start plus the child's offsets, within the bounds' origin |
| FlowPlacement.ChildOffsetStep | Sources/SwiftUIPlus/VFlowStack/VFlowStack.swift:143 | neighbouring children in a line are one width plus the spacing apart, and the last one ends at the line's width |
| FlowPlacement.LineTopStep | Sources/SwiftUIPlus/VFlowStack/VFlowStack.swift:147 | consecutive lines start one line height plus the vertical spacing apart |
| FlowPlacement.ChildWithinLine | Sources/SwiftUIPlus/VFlowStack/VFlowStack.swift:129-136 | every child lies vertically inside its line, whatever the vertical alignment |
| TextSlider.FloatingSlider | Sources/SwiftUIPlus/TextSlider/TextSlider.swift:11-26 | the floating-point initialiser without a step: bounds default to 0...1, step 0.1, phase ended |
| TextSlider.IntegerSlider | Sources/SwiftUIPlus/TextSlider/TextSlider.swift:33-48 | the integer initialiser without a step: integer ends become whole reals unchanged, step 0.1, phase ended |
| TextSlider.SteppedFloatingSlider | Sources/SwiftUIPlus/TextSlider/TextSlider.swift:56-71 | the floating-point initialiser with a step: ends kept as given, step as given or 1 |
| TextSlider.SteppedIntegerSlider | Sources/SwiftUIPlus/TextSlider/TextSlider.swift:79-94 | the integer initialiser with a step: whole ends kept as given, step as given or 1 |
| TextSlider.KeyboardFor | Sources/SwiftUIPlus/TextSlider/TextSlider.swift:143-145 | the decimal pad exactly when the step is below 1, else the number pad |
| TextSlider.InitialiserDefaults | Sources/SwiftUIPlus/TextSlider/TextSlider.swift:11-94 | every slider starts ended; the step-less initialisers get the decimal pad, the default step the number pad; inverted bounds stay inverted |
| TextSlider.WriteBackKeepsIntegralBounds | Sources/SwiftUIPlus/TextSlider/TextSlider.swift:37 | truncation never takes a value below a whole lower end or above a whole upper end; a floating-point value is written unchanged |
| TextSlider.WriteBackIntegerUnique | Sources/SwiftUIPlus/TextSlider/TextSlider.swift:37 | a whole number within 1 of x and no further from zero than x is the integer write-back of x, so the integer clauses determine it |
| TextSlider.TruncateTowardZero | Sources/SwiftUIPlus/TextSlider/TextSlider.swift:37 | converting to an integer drops the fraction toward zero |
| TextSlider.WriteBack | Sources/SwiftUIPlus/TextSlider/TextSlider.swift:35-38 | a floating value is written back as is; an integer value keeps the whole part, within 1 of the written value and no further from zero |
| TextSliderField.MapRange | Sources/SwiftUIPlus/TextSlider/TextSliderField.swift:141-145 | the map sends the source's ends to the destination's ends and keeps proportions |
| TextSliderField.MapRangeRoundTrip | Sources/SwiftUIPlus/TextSlider/TextSliderField.swift:141-145 | mapping S to D and back to S returns the value |
| TextSliderField.MapBounds | Sources/SwiftUIPlus/TextSlider/TextSliderField.swift:148-154 | each end is mapped on its own by the affine map, the result is ordered, and the source range maps onto the destination |
| TextSliderField.MapBoundsRoundTrip | Sources/SwiftUIPlus/TextSlider/TextSliderField.swift:148-154 | mapping a range there and back returns it |
| TextSliderField.Clamp | Sources/SwiftUIPlus/TextSlider/TextSliderField.swift:129 | the clamped value is within ordered bounds, unchanged inside them, the nearer end outside them, and the lower end for inverted bounds |
| TextSliderField.ClampIdempotent | Sources/SwiftUIPlus/TextSlider/TextSliderField.swift:117 | clamping twice is clamping once |
| TextSliderField.RoundHalfAwayFromZero | Sources/SwiftUIPlus/TextSlider/TextSliderField.swift:133 | `round` lands within 1/2, ties go away from zero, and it is non-negative for a non-negative argument |
| TextSliderField.Snap | Sources/SwiftUIPlus/TextSlider/TextSliderField.swift:131-133 | from a value at or above lower, snapping lands on lower + k·step with k ≥ 0, less than step/2 below or at most step/2 above the value, so a tie goes up |
| TextSliderField.Update | Sources/SwiftUIPlus/TextSlider/TextSliderField.swift:127-137 | with step ≤ 0 the value is the clamped mapped position; with step > 0 it is on the grid, within step/2 of it and with ties going up; never below lower, at most upper + step/2 |
| TextSliderField.Quantize | Sources/SwiftUIPlus/TextSlider/TextSliderField.swift:129-136 | the clamped value when the step is not positive; otherwise the grid point nearest to it, ties going up; never below lower |
| TextSliderField.UpdateAtFarEnd | Sources/SwiftUIPlus/TextSlider/TextSliderField.swift:127-137 | a drag position at the far end of the track writes the upper bound snapped to the grid |
| TextSliderField.SnapCanExceedUpper | Sources/SwiftUIPlus/TextSlider/TextSliderField.swift:131-133 | bounds 0...1 with step 0.4 send the far end of a drag to 1.2, above the upper bound |
| TextSliderField.Initial | Sources/SwiftUIPlus/TextSlider/TextSliderField.swift:11-29 | a new field is ended, unlocked and unfocused, shows the value, and has captured 0 |
| TextSliderField.NormalizedValue | Sources/SwiftUIPlus/TextSlider/TextSliderField.swift:123-125 | the text's number as a fraction of the bounds: 0 at the lower end, 1 at the upper end, and mapping the fraction back into the bounds gives the number |
| TextSliderField.Submit | Sources/SwiftUIPlus/TextSlider/TextSliderField.swift:115-118 | submit does nothing when the value equals the text's number; otherwise it writes the clamped number through the binding and changes nothing else; the result is in ordered bounds for a floating-point value or whole bounds, and whole for an integer value |
| TextSliderField.SubmitIdempotent | Sources/SwiftUIPlus/TextSlider/TextSliderField.swift:115-118 | submitting twice is submitting once |
| TextSliderField.LockAxis | Sources/SwiftUIPlus/TextSlider/TextSliderField.swift:58-62 | the axis is horizontal exactly when \|dx\| > \|dy\|; a tie is vertical |
| TextSliderField.DragTarget | Sources/SwiftUIPlus/TextSlider/TextSliderField.swift:64-77 | the argument of update is the captured value plus (x − startX)/320 horizontally, or (startY − y)/320 vertically |
| TextSliderField.OnDragChanged | Sources/SwiftUIPlus/TextSlider/TextSliderField.swift:47-81 | ended becomes began; began becomes dragging, capturing the normalised value and dropping focus; dragging locks an axis once and writes the updated value through the binding; editing ignores drags |
| TextSliderField.OnDragEnded | Sources/SwiftUIPlus/TextSlider/TextSliderField.swift:82-87 | a drag's end sets ended and releases the axis, changing nothing else |
| TextSliderField.OnTap | Sources/SwiftUIPlus/TextSlider/TextSliderField.swift:88-93 | a tap sets focus unless dragging, changing nothing else |
| TextSliderField.OnAdjustedValueChange | Sources/SwiftUIPlus/TextSlider/TextSliderField.swift:96-100 | a new text number reaches the value only while dragging: unchanged for a floating-point value; for an integer one, the whole number within 1 of it and no further from zero, which is its truncation (`TextSlider.WriteBackIntegerUnique`) |
| TextSliderField.OnFocusChange | Sources/SwiftUIPlus/TextSlider/TextSliderField.swift:101-108 | gaining focus starts editing; losing it submits and then ends |
| TextSliderField.OnValueChange | Sources/SwiftUIPlus/TextSlider/TextSliderField.swift:109-112 | a new value is copied into the text and focus is dropped, changing nothing else |
| TextSliderField.Step | Sources/SwiftUIPlus/TextSlider/TextSliderField.swift:47-112 | only the drag handlers and the focus observer move the phase; a drag's end and a tap keep the value and the text; a drag writes the value only while dragging; only the two value observers change the text |
| TextSliderField.Run | Sources/SwiftUIPlus/TextSlider/TextSliderField.swift:47-112 | no events change nothing; events none of which moves the phase keep it; events none of which changes the text or the value keep the text |
| TextSliderField.StepKeepsConsistent | Sources/SwiftUIPlus/TextSlider/TextSliderField.swift:47-112 | no single event makes a dragging field focused |
| TextSliderField.RunKeepsConsistent | Sources/SwiftUIPlus/TextSlider/TextSliderField.swift:47-112 | no sequence of events makes a dragging field focused |
| TextSliderField.ReachableIsConsistent | Sources/SwiftUIPlus/TextSlider/TextSliderField.swift:11-112 | every state reached from a new field keeps dragging and focus apart |
| TextSliderField.AxisLockedOncePerDrag | Sources/SwiftUIPlus/TextSlider/TextSliderField.swift:58-62 | a locked axis stays locked for the drag; the first dragging movement locks horizontally exactly when \|dx\| > \|dy\| |
| TextSliderField.DragWritesValue | Sources/SwiftUIPlus/TextSlider/TextSliderField.swift:64-77 | a dragging movement writes update(captured + travel/320) through the binding; a floating-point value is never below lower and at most half a step above upper; an integer value is whole and never below a whole lower end |
| TextSliderField.DragFromRest | Sources/SwiftUIPlus/TextSlider/TextSliderField.swift:48-77 | the first two movements only start the drag; a movement back to the start writes the text's number clamped and snapped, through the binding |
| TextSliderField.DragEndResets | Sources/SwiftUIPlus/TextSlider/TextSliderField.swift:82-87 | after any events, a drag's end leaves the field ended and unlocked |
| TextSliderField.TapThenBlur | Sources/SwiftUIPlus/TextSlider/TextSliderField.swift:88-108 | tap then focus edits; losing focus ends and commits the clamped number through the binding, in bounds for a floating-point value or whole bounds, or keeps an equal value |
| Presentation.ResolvedStyle | Sources/SwiftUIPlus/Presentation/PresentationLink.swift:205-224 | a full-screen cover is presented exactly when it is asked for on iOS or tvOS 14 or later; a sheet otherwise |
| Presentation.DefaultStyleIsSheet | Sources/SwiftUIPlus/Presentation/PresentationLink.swift:133 | a destination that asks for no style is presented as a sheet on every platform |
| Presentation.KeyEquality | Sources/SwiftUIPlus/Presentation/PresentationLink.swift:171-181 | keys are equal exactly when they wrap the same type, and equal keys hash alike; this holds by construction, since the key has one field that both equality and the hash read |
| Presentation.Wrap | Sources/SwiftUIPlus/Presentation/PresentationLink.swift:158-165 | the type-erased item keeps the value and its id |
| Presentation.Merged | Sources/SwiftUIPlus/Presentation/PresentationLink.swift:147-156 | the merged registry has both key sets; new entries win for their types; other inherited entries are unchanged |
| Presentation.MergeDestinations | Sources/SwiftUIPlus/Presentation/PresentationLink.swift:150-154 | the key-by-key loop of the setter produces the merged registry |
| Presentation.Register | Sources/SwiftUIPlus/Presentation/PresentationLink.swift:226-228 | a destination modifier binds its type to its item and leaves every other type as inherited |
| Presentation.InnermostWins | Sources/SwiftUIPlus/Presentation/PresentationLink.swift:150-154 | under a stack of modifiers a type resolves to its innermost registration, and to the outer registry only when the stack does not register it |
| Presentation.MakeLink | Sources/SwiftUIPlus/Presentation/PresentationLink.swift:78-82 | a link keys on the declared type; its item is nil exactly when the value is, and keeps the value's id |
| Presentation.DisabledExactlyWithoutValue | Sources/SwiftUIPlus/Presentation/PresentationLink.swift:98 | a link is disabled exactly when it was built from nil |
| Presentation.Binding | Sources/SwiftUIPlus/Presentation/PresentationLink.swift:84-86 | the binding reads the registered item, and is constant nil without a registration |
| Presentation.Activate | Sources/SwiftUIPlus/Presentation/PresentationLink.swift:88-99 | a disabled link does nothing; a registered type gets its item set to the link's value; an unregistered one changes nothing and reports the type |
| Presentation.ActivateChangesOneSlot | Sources/SwiftUIPlus/Presentation/PresentationLink.swift:90-91 | pressing a link changes no item but its own registration's |
| Presentation.ActivateThenBinding | Sources/SwiftUIPlus/Presentation/PresentationLink.swift:84-91 | after pressing, the link's binding reads its value when registered, and nil otherwise |
| Presentation.ActivateInStack | Sources/SwiftUIPlus/Presentation/PresentationLink.swift:88-99 | inside nested modifiers, pressing presents through the innermost modifier for the link's type and leaves every other item alone |
| Presentation.ActivateWithoutDestination | Sources/SwiftUIPlus/Presentation/PresentationLink.swift:143-145 | with only the default, empty registry, pressing a link only reports the missing destination |

## Left out

- Rendering is not modelled: views, labels, `AnyView`, the overlay that hides the text field, animations, and the styles.
- The child proposals are not modelled. `replacingUnspecifiedDimensions` and each child's `sizeThatFits` are inputs: the available width and the child sizes.
- IEEE floating point is not modelled: `CGFloat`/`Double` are exact reals, with no rounding error, NaN or infinity.
- TextSliderField.MapRange: requires a source range of non-zero width. The code divides by it and would produce NaN or infinity.
- TextSliderField.NormalizedValue: requires bounds of non-zero width, because it maps the text's number out of the bounds with `MapRange`.
- TextSliderField.OnDragChanged: requires bounds of non-zero width only for the began-to-dragging step, which captures the normalised value; the other phases accept any bounds.
- TextSliderField.Step: requires bounds of non-zero width only for a drag movement in the began phase; every other event in every phase accepts any bounds.
- TextSliderField.Run: requires bounds of non-zero width for every event sequence, since any sequence may contain a drag movement in the began phase.
- TextSliderField.MapBounds: requires the mapped ends to be ordered, because the code's `min...max` traps otherwise.
- The `FormatStyle` formatting and parsing of the text field is left out. The parsed number `adjustedValue` is an input.
- The drag gesture's minimum distance of 5 points is not modelled. When the gesture fires is up to SwiftUI; each firing is an event.
- Observer chaining is not modelled. Each `onChange` observer is its own event, carrying the new value. The model does not decide which observers SwiftUI runs after a handler writes a watched property. For example, the `focus = false` in the began-to-dragging step fires no focus event by itself.
- TextSlider.KeyboardFor: ignores the `#if os(iOS) || os(tvOS)` guard. On other platforms no keyboard type is set.
- TextSlider.WriteBack: does not model the trap of an integer conversion that is out of range.
- The `presentationDestination` view builder, its `as! D` cast, and the sheet and full-screen-cover machinery are left out. A registration is modelled as the item slot its binding refers to.
- The console diagnostic of an unmatched link is modelled as a `missingDestination` field of the outcome, not as printed text.
- Files outside these four are not part of this model: the web view, audio player, delayed feedback, geometry readers, frame observer, slider styles, and backports. They are rendering or I/O wrappers.

## Findings

| source | as written | input that shows it | evidently intended | confidence | as-written member | corrected member |
|---|---|---|---|---|---|---|
| Sources/SwiftUIPlus/VFlowStack/VFlowStack.swift:95-101 | The first child is tested against the empty starting line. That line's width is −spacing, so a child at least as wide as the available width fails `fitting`, and the empty line is appended to the cache. | One child of size 250×20, available width 200, spacing 10. The lines are [empty], [250×20]. The reported height is 0 + 10 + 20 = 30, and the child is placed one vertical spacing below the top. | A child that does not fit an empty line opens the first line itself. No empty line is cached, and the height is 20. | not executed | FlowLayout.PackLeadingEmptyLine | FlowLayout.SizeThatFitsIntended |
