/**
 * The measuring half of `VFlowLayout`: children are packed greedily, left to
 * right, into lines; the cache holds the lines and reports the layout's size.
 * Sizes are `real` (CGFloat without rounding); the available width is the
 * proposal with unspecified dimensions already replaced, taken as an input.
 */
module FlowLayout {
  import opened Wrappers
  import opened Reals

  /** A child's measured size (`CGSize`). */
  datatype Size = Size(width: real, height: real)

  // ---------------------------------------------------------------------------
  // Positioning (`VFlowPositioning`)
  // ---------------------------------------------------------------------------

  /** Every alignment guide other than leading and trailing lands in the
      `default` branch of the placement switch, so `HCenter` stands for all of them. */
  datatype HorizontalAlignment = Leading | HCenter | Trailing

  /** Likewise every guide other than top and bottom behaves as `VCenter`. */
  datatype VerticalAlignment = Top | VCenter | Bottom

  datatype Alignment = Alignment(horizontal: HorizontalAlignment, vertical: VerticalAlignment)

  datatype HorizontalPositioning = HorizontalPositioning(alignment: HorizontalAlignment, spacing: real)
  datatype VerticalPositioning = VerticalPositioning(alignment: VerticalAlignment, spacing: real)
  datatype Positioning = Positioning(horizontal: HorizontalPositioning, vertical: VerticalPositioning)

  /** The spacing used along an axis when none is given. */
  const DefaultSpacing: real := 10.0

  /** The alignment used when none is given: centre on both axes. */
  const CenterAlignment: Alignment := Alignment(HCenter, VCenter)

  /** `VFlowPositioning.Horizontal.init(alignment:spacing:)`, whose alignment
      defaults to centre and whose spacing defaults to 10. */
  function MakeHorizontal(alignment: Option<HorizontalAlignment>, spacing: Option<real>): (h: HorizontalPositioning)
    ensures alignment.None? ==> h.alignment == HCenter
    ensures alignment.Some? ==> h.alignment == alignment.value
    ensures spacing.None? ==> h.spacing == DefaultSpacing
    ensures spacing.Some? ==> h.spacing == spacing.value
  {
    HorizontalPositioning(alignment.UnwrapOr(HCenter), spacing.UnwrapOr(DefaultSpacing))
  }

  /** `VFlowPositioning.Vertical.init(alignment:spacing:)`, whose alignment
      defaults to centre and whose spacing defaults to 10. */
  function MakeVertical(alignment: Option<VerticalAlignment>, spacing: Option<real>): (v: VerticalPositioning)
    ensures alignment.None? ==> v.alignment == VCenter
    ensures alignment.Some? ==> v.alignment == alignment.value
    ensures spacing.None? ==> v.spacing == DefaultSpacing
    ensures spacing.Some? ==> v.spacing == spacing.value
  {
    VerticalPositioning(alignment.UnwrapOr(VCenter), spacing.UnwrapOr(DefaultSpacing))
  }

  /** `VFlowPositioning.init(horizontal:vertical:)`: each axis as given, or
      that axis's default initialiser (centred, spacing 10). */
  function MakePositioning(horizontal: Option<HorizontalPositioning>, vertical: Option<VerticalPositioning>): (p: Positioning)
    ensures horizontal.Some? ==> p.horizontal == horizontal.value
    ensures vertical.Some? ==> p.vertical == vertical.value
    ensures horizontal.None? ==> p.horizontal.alignment == HCenter && p.horizontal.spacing == DefaultSpacing
    ensures vertical.None? ==> p.vertical.alignment == VCenter && p.vertical.spacing == DefaultSpacing
  {
    Positioning(horizontal.UnwrapOr(MakeHorizontal(None, None)), vertical.UnwrapOr(MakeVertical(None, None)))
  }

  /** `VFlowPositioning.init(alignment:spacing:)`: an alignment that must be
      given, and one optional spacing shared by both axes. */
  function UniformPositioning(alignment: Alignment, spacing: Option<real>): (p: Positioning)
    ensures p.horizontal.alignment == alignment.horizontal
    ensures p.vertical.alignment == alignment.vertical
    ensures p.horizontal.spacing == p.vertical.spacing
    ensures spacing.None? ==> p.horizontal.spacing == DefaultSpacing
    ensures spacing.Some? ==> p.horizontal.spacing == spacing.value
  {
    MakePositioning(Some(MakeHorizontal(Some(alignment.horizontal), spacing)),
                    Some(MakeVertical(Some(alignment.vertical), spacing)))
  }

  /** `VFlowStack.init(alignment:spacing:)`: the uniform positioning, with the
      alignment defaulting to centre. */
  function StackUniformPositioning(alignment: Option<Alignment>, spacing: Option<real>): (p: Positioning)
    ensures alignment.None? ==> p.horizontal.alignment == HCenter && p.vertical.alignment == VCenter
    ensures alignment.Some? ==>
      p.horizontal.alignment == alignment.value.horizontal && p.vertical.alignment == alignment.value.vertical
    ensures p.horizontal.spacing == p.vertical.spacing
    ensures spacing.None? ==> p.horizontal.spacing == DefaultSpacing
    ensures spacing.Some? ==> p.horizontal.spacing == spacing.value
  {
    UniformPositioning(alignment.UnwrapOr(CenterAlignment), spacing)
  }

  /** `VFlowStack.init(alignment:horizontal:vertical:)`, whose alignment defaults to centre. */
  function StackPositioning(alignment: Option<Alignment>, horizontal: Option<real>, vertical: Option<real>): (p: Positioning)
    ensures alignment.None? ==> p.horizontal.alignment == HCenter && p.vertical.alignment == VCenter
    ensures alignment.Some? ==>
      p.horizontal.alignment == alignment.value.horizontal && p.vertical.alignment == alignment.value.vertical
    ensures horizontal.None? ==> p.horizontal.spacing == DefaultSpacing
    ensures horizontal.Some? ==> p.horizontal.spacing == horizontal.value
    ensures vertical.None? ==> p.vertical.spacing == DefaultSpacing
    ensures vertical.Some? ==> p.vertical.spacing == vertical.value
    ensures horizontal == vertical ==> p == StackUniformPositioning(alignment, horizontal)
  {
    var a := alignment.UnwrapOr(CenterAlignment);
    MakePositioning(Some(MakeHorizontal(Some(a.horizontal), horizontal)),
                    Some(MakeVertical(Some(a.vertical), vertical)))
  }

  /** Every initialiser called with no arguments gives the same positioning:
      centred on both axes, with spacing 10 along each. */
  lemma DefaultsAgree()
    ensures MakePositioning(None, None) == StackPositioning(None, None, None)
    ensures MakePositioning(None, None) == StackUniformPositioning(None, None)
    ensures MakePositioning(None, None) == UniformPositioning(CenterAlignment, None)
    ensures MakePositioning(None, None)
         == Positioning(HorizontalPositioning(HCenter, DefaultSpacing), VerticalPositioning(VCenter, DefaultSpacing))
  {
  }

  // ---------------------------------------------------------------------------
  // Sums and `joined(spacing:)`
  // ---------------------------------------------------------------------------

  /** Reference sum, folded from the front. */
  function Sum(xs: seq<real>): real
  {
    if |xs| == 0 then 0.0 else xs[0] + Sum(xs[1..])
  }

  lemma {:induction false} SumSnoc(xs: seq<real>, x: real)
    ensures Sum(xs + [x]) == Sum(xs) + x
  {
    if |xs| == 0 {
      assert xs + [x] == [x];
    } else {
      assert (xs + [x])[1..] == xs[1..] + [x];
      SumSnoc(xs[1..], x);
    }
  }

  /** The fold inside `joined(spacing:)`: each element plus one spacing,
      accumulated left to right from 0. */
  function SpacedSum(xs: seq<real>, spacing: real): real
  {
    if |xs| == 0 then 0.0 else SpacedSum(xs[..|xs| - 1], spacing) + (xs[|xs| - 1] + spacing)
  }

  /** `joined(spacing:)`: the spaced sum with one spacing taken back off. */
  function Joined(xs: seq<real>, spacing: real): real
  {
    SpacedSum(xs, spacing) - spacing
  }

  /** The room taken by the spacing between `count` neighbours. */
  function Gaps(count: int, spacing: real): real
  {
    (count - 1) as real * spacing
  }

  lemma GapsSucc(count: int, spacing: real)
    ensures Gaps(count + 1, spacing) == Gaps(count, spacing) + spacing
  {
    assert (count + 1 - 1) as real == (count - 1) as real + 1.0;
  }

  /** `joined` puts one spacing between neighbours: n elements give their sum
      plus (n - 1) spacings, so an empty collection gives `-spacing`. */
  lemma {:induction false} JoinedIsSumPlusGaps(xs: seq<real>, spacing: real)
    ensures Joined(xs, spacing) == Sum(xs) + Gaps(|xs|, spacing)
    ensures |xs| == 0 ==> Joined(xs, spacing) == -spacing
  {
    if |xs| > 0 {
      var init := xs[..|xs| - 1];
      JoinedIsSumPlusGaps(init, spacing);
      SumSnoc(init, xs[|xs| - 1]);
      GapsSucc(|init|, spacing);
      assert init + [xs[|xs| - 1]] == xs;
    }
  }

  /** Appending an element grows the joined value by one spacing and the element,
      also from an empty collection. */
  lemma JoinedSnoc(xs: seq<real>, x: real, spacing: real)
    ensures Joined(xs + [x], spacing) == Joined(xs, spacing) + spacing + x
  {
    assert (xs + [x])[..|xs|] == xs;
  }

  /** `reduce(0, { max($0, $1) })`: the largest element, but never below 0. */
  function MaxOf(xs: seq<real>): (m: real)
    ensures 0.0 <= m
    ensures forall i :: 0 <= i < |xs| ==> xs[i] <= m
    ensures m == 0.0 || exists i :: 0 <= i < |xs| && xs[i] == m
  {
    if |xs| == 0 then 0.0 else Max(MaxOf(xs[..|xs| - 1]), xs[|xs| - 1])
  }

  // ---------------------------------------------------------------------------
  // Lines and the cache (`VFlowLayout.Cache`)
  // ---------------------------------------------------------------------------

  /** `Cache.Line`: the sizes packed into one line and the spacing between them. */
  datatype Line = Line(spacing: real, sizes: seq<Size>)

  function Widths(sizes: seq<Size>): seq<real>
  {
    seq(|sizes|, i requires 0 <= i < |sizes| => sizes[i].width)
  }

  function Heights(sizes: seq<Size>): seq<real>
  {
    seq(|sizes|, i requires 0 <= i < |sizes| => sizes[i].height)
  }

  lemma WidthsSnoc(sizes: seq<Size>, size: Size)
    ensures Widths(sizes + [size]) == Widths(sizes) + [size.width]
  {
  }

  /** `Cache.Line.contentSize`. */
  function LineContentSize(line: Line): Size
  {
    Size(Joined(Widths(line.sizes), line.spacing), MaxOf(Heights(line.sizes)))
  }

  /** A line is as wide as its children's widths with one spacing between
      neighbours, and as tall as its tallest child (0 when it has none). */
  lemma LineContentSizeIs(line: Line)
    ensures LineContentSize(line).width == Sum(Widths(line.sizes)) + Gaps(|line.sizes|, line.spacing)
    ensures |line.sizes| == 0 ==> LineContentSize(line) == Size(-line.spacing, 0.0)
    ensures 0.0 <= LineContentSize(line).height
    ensures forall i :: 0 <= i < |line.sizes| ==> line.sizes[i].height <= LineContentSize(line).height
    ensures var h := LineContentSize(line).height;
      h == 0.0 || exists i :: 0 <= i < |line.sizes| && line.sizes[i].height == h
  {
    JoinedIsSumPlusGaps(Widths(line.sizes), line.spacing);
    var hs := Heights(line.sizes);
    assert forall i :: 0 <= i < |line.sizes| ==> hs[i] == line.sizes[i].height;
  }

  /** `Cache.Line.fitting(size:proposal:spacing:)`: strictly less than the room
      left after the line's width and one more spacing. */
  predicate Fitting(line: Line, size: Size, availableWidth: real, spacing: real)
  {
    size.width < availableWidth - (LineContentSize(line).width + spacing)
  }

  /** A child fits exactly when the line with the child appended would be
      strictly narrower than the available width, so an exact fit wraps. */
  lemma FittingIff(line: Line, size: Size, availableWidth: real)
    ensures Fitting(line, size, availableWidth, line.spacing)
        <==> LineContentSize(Line(line.spacing, line.sizes + [size])).width < availableWidth
  {
    WidthsSnoc(line.sizes, size);
    JoinedSnoc(Widths(line.sizes), size.width, line.spacing);
  }

  /** `VFlowLayout.Cache`: the vertical spacing and the packed lines. */
  datatype Cache = Cache(spacing: real, lines: seq<Line>)

  /** `makeCache(subviews:)`: no lines yet, the vertical spacing of the positioning. */
  function MakeCache(positioning: Positioning): (c: Cache)
    ensures c.lines == [] && c.spacing == positioning.vertical.spacing
  {
    Cache(positioning.vertical.spacing, [])
  }

  function LineWidths(lines: seq<Line>): seq<real>
  {
    seq(|lines|, i requires 0 <= i < |lines| => LineContentSize(lines[i]).width)
  }

  function LineHeights(lines: seq<Line>): seq<real>
  {
    seq(|lines|, i requires 0 <= i < |lines| => LineContentSize(lines[i]).height)
  }

  /** `Cache.contentSize`. */
  function CacheContentSize(cache: Cache): Size
  {
    Size(MaxOf(LineWidths(cache.lines)), Joined(LineHeights(cache.lines), cache.spacing))
  }

  /** The layout is as wide as its widest line (never below 0) and as tall as
      its line heights with one vertical spacing between neighbouring lines. */
  lemma CacheContentSizeIs(cache: Cache)
    ensures 0.0 <= CacheContentSize(cache).width
    ensures forall i :: 0 <= i < |cache.lines| ==> LineContentSize(cache.lines[i]).width <= CacheContentSize(cache).width
    ensures var w := CacheContentSize(cache).width;
      w == 0.0 || exists i :: 0 <= i < |cache.lines| && LineContentSize(cache.lines[i]).width == w
    ensures CacheContentSize(cache).height == Sum(LineHeights(cache.lines)) + Gaps(|cache.lines|, cache.spacing)
  {
    var widths := LineWidths(cache.lines);
    var w := MaxOf(widths);
    assert CacheContentSize(cache).width == w;
    assert forall i :: 0 <= i < |cache.lines| ==> widths[i] == LineContentSize(cache.lines[i]).width;
    if w != 0.0 {
      var i :| 0 <= i < |widths| && widths[i] == w;
      assert LineContentSize(cache.lines[i]).width == w;
    }
    JoinedIsSumPlusGaps(LineHeights(cache.lines), cache.spacing);
  }

  // ---------------------------------------------------------------------------
  // Concatenating lines back into the children
  // ---------------------------------------------------------------------------

  function Concat<T>(xss: seq<seq<T>>): seq<T>
  {
    if |xss| == 0 then [] else Concat(xss[..|xss| - 1]) + xss[|xss| - 1]
  }

  lemma ConcatSnoc<T>(xss: seq<seq<T>>, xs: seq<T>)
    ensures Concat(xss + [xs]) == Concat(xss) + xs
  {
    assert (xss + [xs])[..|xss|] == xss;
  }

  function Rows(lines: seq<Line>): seq<seq<Size>>
  {
    seq(|lines|, i requires 0 <= i < |lines| => lines[i].sizes)
  }

  /** The children of all lines, line after line. */
  function Flatten(lines: seq<Line>): seq<Size>
  {
    Concat(Rows(lines))
  }

  lemma FlattenSnoc(lines: seq<Line>, line: Line)
    ensures Flatten(lines + [line]) == Flatten(lines) + line.sizes
  {
    assert Rows(lines + [line]) == Rows(lines) + [line.sizes];
    ConcatSnoc(Rows(lines), line.sizes);
  }

  // ---------------------------------------------------------------------------
  // Greedy packing (the loop of `sizeThatFits`)
  // ---------------------------------------------------------------------------

  /** The loop state of `sizeThatFits`: the lines already appended to the
      cache and the line being filled. */
  datatype Packing = Packing(closed: seq<Line>, open: Line)

  function Start(spacing: real): Packing
  {
    Packing([], Line(spacing, []))
  }

  /** One iteration: append the child to the open line if it fits, otherwise
      close the open line (even an empty one) and open a new line with the child. */
  function Advance(p: Packing, size: Size, availableWidth: real, spacing: real): Packing
  {
    if Fitting(p.open, size, availableWidth, spacing) then
      Packing(p.closed, Line(p.open.spacing, p.open.sizes + [size]))
    else
      Packing(p.closed + [p.open], Line(spacing, [size]))
  }

  function Feed(p: Packing, sizes: seq<Size>, availableWidth: real, spacing: real): Packing
    decreases |sizes|
  {
    if |sizes| == 0 then p
    else Feed(Advance(p, sizes[0], availableWidth, spacing), sizes[1..], availableWidth, spacing)
  }

  /** The lines `sizeThatFits` leaves in the cache: the closed lines, plus the
      open line when it is not empty. */
  function PackLines(sizes: seq<Size>, availableWidth: real, spacing: real): seq<Line>
  {
    var p := Feed(Start(spacing), sizes, availableWidth, spacing);
    if |p.open.sizes| > 0 then p.closed + [p.open] else p.closed
  }

  /** `sizeThatFits(proposal:subviews:cache:)`: with no children it reports a
      zero size and leaves the cache alone; otherwise it replaces the cached
      lines with the packing of the children and reports the cache's size. */
  function SizeThatFits(availableWidth: real, sizes: seq<Size>, positioning: Positioning, cache: Cache): (r: (Size, Cache))
    ensures |sizes| == 0 ==> r == (Size(0.0, 0.0), cache)
    ensures |sizes| > 0 ==> r.1.spacing == cache.spacing && Flatten(r.1.lines) == sizes
    ensures |sizes| > 0 ==> r.0 == CacheContentSize(r.1)
  {
    if |sizes| == 0 then (Size(0.0, 0.0), cache)
    else
      var lines := PackLines(sizes, availableWidth, positioning.horizontal.spacing);
      PackPartition(sizes, availableWidth, positioning.horizontal.spacing);
      var packed := cache.(lines := lines);
      (CacheContentSize(packed), packed)
  }

  // --- properties of a list of lines ---

  ghost predicate UniformSpacing(lines: seq<Line>, spacing: real)
  {
    forall i :: 0 <= i < |lines| ==> lines[i].spacing == spacing
  }

  /** Only the first line may be empty. */
  ghost predicate OnlyFirstMayBeEmpty(lines: seq<Line>)
  {
    forall i :: 0 < i < |lines| ==> |lines[i].sizes| > 0
  }

  /** A line reaches the available width only when it is the empty first line
      or a later line holding the single child that opened it. */
  ghost predicate WithinWidth(lines: seq<Line>, availableWidth: real)
  {
    forall i :: 0 <= i < |lines| ==>
      || LineContentSize(lines[i]).width < availableWidth
      || (i == 0 && |lines[i].sizes| == 0)
      || (i > 0 && |lines[i].sizes| == 1)
  }

  /** Every line after the first starts with a child that did not fit the line before. */
  ghost predicate Greedy(lines: seq<Line>, availableWidth: real, spacing: real)
  {
    forall i :: 0 < i < |lines| ==>
      |lines[i].sizes| > 0 && !Fitting(lines[i - 1], lines[i].sizes[0], availableWidth, spacing)
  }

  ghost predicate FirstLineEmpty(lines: seq<Line>)
  {
    |lines| > 0 && |lines[0].sizes| == 0
  }

  function Lines(p: Packing): seq<Line>
  {
    p.closed + [p.open]
  }

  /** What holds of the loop state after the children `done` were fed. */
  ghost predicate PackingInv(p: Packing, done: seq<Size>, availableWidth: real, spacing: real)
  {
    && Flatten(p.closed) + p.open.sizes == done
    && (|done| == 0 ==> p == Start(spacing))
    && (|done| > 0 ==> |p.open.sizes| > 0)
    && UniformSpacing(Lines(p), spacing)
    && OnlyFirstMayBeEmpty(Lines(p))
    && WithinWidth(Lines(p), availableWidth)
    && Greedy(Lines(p), availableWidth, spacing)
    && (|done| > 0 ==> (FirstLineEmpty(p.closed) <==> !(done[0].width < availableWidth)))
  }

  /** How one iteration changes the list of lines: the last line grows, or a
      new single-child line is added after it. */
  lemma AdvanceShape(p: Packing, size: Size, availableWidth: real, spacing: real)
    ensures var q := Advance(p, size, availableWidth, spacing);
      Fitting(p.open, size, availableWidth, spacing) ==>
        && q.closed == p.closed
        && q.open == Line(p.open.spacing, p.open.sizes + [size])
        && Lines(q) == Lines(p)[..|Lines(p)| - 1] + [q.open]
    ensures var q := Advance(p, size, availableWidth, spacing);
      !Fitting(p.open, size, availableWidth, spacing) ==>
        && q.closed == Lines(p)
        && q.open == Line(spacing, [size])
        && Lines(q) == Lines(p) + [q.open]
  {
    assert Lines(p)[..|Lines(p)| - 1] == p.closed;
  }

  lemma AdvanceKeepsPartition(p: Packing, done: seq<Size>, size: Size, availableWidth: real, spacing: real)
    requires Flatten(p.closed) + p.open.sizes == done
    ensures var q := Advance(p, size, availableWidth, spacing);
      Flatten(q.closed) + q.open.sizes == done + [size]
  {
    AdvanceShape(p, size, availableWidth, spacing);
    FlattenSnoc(p.closed, p.open);
  }

  lemma AdvanceKeepsWidth(p: Packing, size: Size, availableWidth: real, spacing: real)
    requires UniformSpacing(Lines(p), spacing)
    requires WithinWidth(Lines(p), availableWidth)
    ensures var q := Advance(p, size, availableWidth, spacing);
      UniformSpacing(Lines(q), spacing) && WithinWidth(Lines(q), availableWidth)
  {
    var q := Advance(p, size, availableWidth, spacing);
    var L, L' := Lines(p), Lines(q);
    AdvanceShape(p, size, availableWidth, spacing);
    assert p.open == L[|L| - 1];
    if Fitting(p.open, size, availableWidth, spacing) {
      FittingIff(p.open, size, availableWidth);
      assert forall i :: 0 <= i < |L'| - 1 ==> L'[i] == L[i];
    } else {
      assert forall i :: 0 <= i < |L| ==> L'[i] == L[i];
    }
  }

  lemma AdvanceKeepsGreedy(p: Packing, done: seq<Size>, size: Size, availableWidth: real, spacing: real)
    requires |done| > 0 ==> |p.open.sizes| > 0
    requires OnlyFirstMayBeEmpty(Lines(p))
    requires Greedy(Lines(p), availableWidth, spacing)
    ensures var q := Advance(p, size, availableWidth, spacing);
      && |q.open.sizes| > 0
      && OnlyFirstMayBeEmpty(Lines(q))
      && Greedy(Lines(q), availableWidth, spacing)
  {
    var q := Advance(p, size, availableWidth, spacing);
    var L, L' := Lines(p), Lines(q);
    AdvanceShape(p, size, availableWidth, spacing);
    assert p.open == L[|L| - 1];
    if Fitting(p.open, size, availableWidth, spacing) {
      forall i | 0 < i < |L'|
        ensures |L'[i].sizes| > 0 && !Fitting(L'[i - 1], L'[i].sizes[0], availableWidth, spacing)
      {
        assert L'[i - 1] == L[i - 1];
        if i < |L'| - 1 {
          assert L'[i] == L[i];
        } else {
          assert L'[i].sizes[0] == L[i].sizes[0];
        }
      }
    } else {
      forall i | 0 < i < |L'|
        ensures |L'[i].sizes| > 0 && !Fitting(L'[i - 1], L'[i].sizes[0], availableWidth, spacing)
      {
        assert L'[i - 1] == L[i - 1];
        if i < |L| {
          assert L'[i] == L[i];
        }
      }
    }
  }

  lemma AdvanceKeepsFirstLine(p: Packing, done: seq<Size>, size: Size, availableWidth: real, spacing: real)
    requires |done| == 0 ==> p == Start(spacing)
    requires |done| > 0 ==> |p.open.sizes| > 0
    requires |done| > 0 ==> (FirstLineEmpty(p.closed) <==> !(done[0].width < availableWidth))
    ensures var q := Advance(p, size, availableWidth, spacing);
      FirstLineEmpty(q.closed) <==> !((done + [size])[0].width < availableWidth)
  {
    var q := Advance(p, size, availableWidth, spacing);
    AdvanceShape(p, size, availableWidth, spacing);
    if |done| == 0 {
      assert LineContentSize(Line(spacing, [])).width == -spacing;
      assert Fitting(p.open, size, availableWidth, spacing) <==> size.width < availableWidth;
    } else if !Fitting(p.open, size, availableWidth, spacing) {
      if |p.closed| == 0 {
        assert q.closed == [p.open];
      } else {
        assert q.closed[0] == p.closed[0];
      }
    }
  }

  lemma AdvanceKeepsInv(p: Packing, done: seq<Size>, size: Size, availableWidth: real, spacing: real)
    requires PackingInv(p, done, availableWidth, spacing)
    ensures PackingInv(Advance(p, size, availableWidth, spacing), done + [size], availableWidth, spacing)
  {
    AdvanceKeepsPartition(p, done, size, availableWidth, spacing);
    AdvanceKeepsWidth(p, size, availableWidth, spacing);
    AdvanceKeepsGreedy(p, done, size, availableWidth, spacing);
    AdvanceKeepsFirstLine(p, done, size, availableWidth, spacing);
  }

  lemma {:induction false} FeedKeepsInv(p: Packing, done: seq<Size>, rest: seq<Size>, availableWidth: real, spacing: real)
    requires PackingInv(p, done, availableWidth, spacing)
    ensures PackingInv(Feed(p, rest, availableWidth, spacing), done + rest, availableWidth, spacing)
    decreases |rest|
  {
    if |rest| == 0 {
      assert done + rest == done;
    } else {
      AdvanceKeepsInv(p, done, rest[0], availableWidth, spacing);
      FeedKeepsInv(Advance(p, rest[0], availableWidth, spacing), done + [rest[0]], rest[1..], availableWidth, spacing);
      assert done + [rest[0]] + rest[1..] == done + rest;
    }
  }

  /** Everything the packing loop establishes, carried over to the cached lines. */
  lemma PackLinesInv(sizes: seq<Size>, availableWidth: real, spacing: real)
    ensures var lines := PackLines(sizes, availableWidth, spacing);
      && Flatten(lines) == sizes
      && (|sizes| == 0 ==> lines == [])
      && (|sizes| > 0 ==> |lines| > 0 && |lines[|lines| - 1].sizes| > 0)
      && UniformSpacing(lines, spacing)
      && OnlyFirstMayBeEmpty(lines)
      && WithinWidth(lines, availableWidth)
      && Greedy(lines, availableWidth, spacing)
      && (|sizes| > 0 ==> (FirstLineEmpty(lines) <==> !(sizes[0].width < availableWidth)))
  {
    var p := Feed(Start(spacing), sizes, availableWidth, spacing);
    assert PackingInv(Start(spacing), [], availableWidth, spacing) by {
      assert Flatten([]) == [];
    }
    FeedKeepsInv(Start(spacing), [], sizes, availableWidth, spacing);
    assert [] + sizes == sizes;
    if |sizes| == 0 {
      assert p == Start(spacing);
    } else {
      FlattenSnoc(p.closed, p.open);
      var lines := Lines(p);
      if |p.closed| > 0 {
        assert lines[0] == p.closed[0];
      }
    }
  }

  /** Partition: the cached lines hold exactly the children, in order, and
      with no children there are no lines. */
  lemma PackPartition(sizes: seq<Size>, availableWidth: real, spacing: real)
    ensures Flatten(PackLines(sizes, availableWidth, spacing)) == sizes
    ensures |sizes| == 0 ==> PackLines(sizes, availableWidth, spacing) == []
  {
    PackLinesInv(sizes, availableWidth, spacing);
  }

  /** Width bound: a line grown by appending stays strictly narrower than the
      available width; only the empty first line or a single child that opened
      its own line may reach it. */
  lemma PackWidthBound(sizes: seq<Size>, availableWidth: real, spacing: real, i: int)
    requires 0 <= i < |PackLines(sizes, availableWidth, spacing)|
    ensures var line := PackLines(sizes, availableWidth, spacing)[i];
      |line.sizes| >= 2 ==> LineContentSize(line).width < availableWidth
    ensures var line := PackLines(sizes, availableWidth, spacing)[i];
      LineContentSize(line).width >= availableWidth ==>
        (i == 0 && |line.sizes| == 0) || (i > 0 && |line.sizes| == 1)
  {
    PackLinesInv(sizes, availableWidth, spacing);
  }

  /** The empty-line quirk: only the first line can be empty, and it is empty
      exactly when the first child does not fit an empty line, i.e. is at least
      as wide as the available width; the last line is never empty. */
  lemma PackEmptyLines(sizes: seq<Size>, availableWidth: real, spacing: real)
    requires |sizes| > 0
    ensures var lines := PackLines(sizes, availableWidth, spacing);
      && |lines| > 0
      && (forall i :: 0 < i < |lines| ==> |lines[i].sizes| > 0)
      && |lines[|lines| - 1].sizes| > 0
      && (|lines[0].sizes| == 0 <==> sizes[0].width >= availableWidth)
  {
    PackLinesInv(sizes, availableWidth, spacing);
  }

  /** The packing wraps only when it must: the first child of a later line did
      not fit the line before it, which is to say that appending it would have
      made that line at least as wide as the available width. */
  lemma PackGreedy(sizes: seq<Size>, availableWidth: real, spacing: real, i: int)
    requires 0 < i < |PackLines(sizes, availableWidth, spacing)|
    ensures var lines := PackLines(sizes, availableWidth, spacing);
      && |lines[i].sizes| > 0
      && lines[i - 1].spacing == spacing
      && LineContentSize(Line(spacing, lines[i - 1].sizes + [lines[i].sizes[0]])).width >= availableWidth
  {
    var lines := PackLines(sizes, availableWidth, spacing);
    PackLinesInv(sizes, availableWidth, spacing);
    FittingIff(lines[i - 1], lines[i].sizes[0], availableWidth);
  }

  // ---------------------------------------------------------------------------
  // The packing without the leading empty line
  // ---------------------------------------------------------------------------

  /** The evidently intended iteration: a child always goes into an empty open
      line, so no empty line is ever closed. */
  function AdvanceIntended(p: Packing, size: Size, availableWidth: real, spacing: real): Packing
  {
    if |p.open.sizes| == 0 || Fitting(p.open, size, availableWidth, spacing) then
      Packing(p.closed, Line(p.open.spacing, p.open.sizes + [size]))
    else
      Packing(p.closed + [p.open], Line(spacing, [size]))
  }

  function FeedIntended(p: Packing, sizes: seq<Size>, availableWidth: real, spacing: real): Packing
    decreases |sizes|
  {
    if |sizes| == 0 then p
    else FeedIntended(AdvanceIntended(p, sizes[0], availableWidth, spacing), sizes[1..], availableWidth, spacing)
  }

  function PackLinesIntended(sizes: seq<Size>, availableWidth: real, spacing: real): seq<Line>
  {
    var p := FeedIntended(Start(spacing), sizes, availableWidth, spacing);
    if |p.open.sizes| > 0 then p.closed + [p.open] else p.closed
  }

  /** No line is empty. */
  ghost predicate NoEmptyLine(lines: seq<Line>)
  {
    forall i :: 0 <= i < |lines| ==> |lines[i].sizes| > 0
  }

  /** Only a line of at most one child reaches the available width. */
  ghost predicate NarrowOrSingle(lines: seq<Line>, availableWidth: real)
  {
    forall i :: 0 <= i < |lines| ==> LineContentSize(lines[i]).width < availableWidth || |lines[i].sizes| <= 1
  }

  ghost predicate IntendedInv(p: Packing, done: seq<Size>, availableWidth: real, spacing: real)
  {
    && Flatten(p.closed) + p.open.sizes == done
    && (|done| == 0 ==> p == Start(spacing))
    && (|done| > 0 ==> NoEmptyLine(Lines(p)))
    && UniformSpacing(Lines(p), spacing)
    && NarrowOrSingle(Lines(p), availableWidth)
  }

  lemma AdvanceIntendedKeepsInv(p: Packing, done: seq<Size>, size: Size, availableWidth: real, spacing: real)
    requires IntendedInv(p, done, availableWidth, spacing)
    ensures IntendedInv(AdvanceIntended(p, size, availableWidth, spacing), done + [size], availableWidth, spacing)
  {
    if |p.open.sizes| == 0 || Fitting(p.open, size, availableWidth, spacing) {
      AppendKeepsInv(p, done, size, availableWidth, spacing);
    } else {
      WrapKeepsInv(p, done, size, availableWidth, spacing);
    }
  }

  /** The child joins the open line. */
  lemma AppendKeepsInv(p: Packing, done: seq<Size>, size: Size, availableWidth: real, spacing: real)
    requires IntendedInv(p, done, availableWidth, spacing)
    requires |p.open.sizes| == 0 || Fitting(p.open, size, availableWidth, spacing)
    ensures IntendedInv(Packing(p.closed, Line(p.open.spacing, p.open.sizes + [size])), done + [size], availableWidth, spacing)
  {
    var open := Line(p.open.spacing, p.open.sizes + [size]);
    var q := Packing(p.closed, open);
    var L, L' := Lines(p), Lines(q);
    assert L[|L| - 1] == p.open && L'[|L'| - 1] == open;
    assert Flatten(q.closed) + open.sizes == done + [size];
    assert open.spacing == spacing;
    if |p.open.sizes| > 0 {
      FittingIff(p.open, size, availableWidth);
    }
    assert LineContentSize(open).width < availableWidth || |open.sizes| <= 1;
    forall i | 0 <= i < |L'| - 1
      ensures L'[i] == L[i]
    {
    }
    if |done| == 0 {
      assert p.closed == [];
    }
  }

  /** The child opens a new line after the non-empty open one. */
  lemma WrapKeepsInv(p: Packing, done: seq<Size>, size: Size, availableWidth: real, spacing: real)
    requires IntendedInv(p, done, availableWidth, spacing)
    requires |p.open.sizes| > 0
    ensures IntendedInv(Packing(p.closed + [p.open], Line(spacing, [size])), done + [size], availableWidth, spacing)
  {
    var q := Packing(p.closed + [p.open], Line(spacing, [size]));
    var L, L' := Lines(p), Lines(q);
    FlattenSnoc(p.closed, p.open);
    assert L' == L + [q.open];
    assert |done| > 0;
  }

  lemma {:induction false} FeedIntendedKeepsInv(p: Packing, done: seq<Size>, rest: seq<Size>, availableWidth: real, spacing: real)
    requires IntendedInv(p, done, availableWidth, spacing)
    ensures IntendedInv(FeedIntended(p, rest, availableWidth, spacing), done + rest, availableWidth, spacing)
    decreases |rest|
  {
    if |rest| == 0 {
      assert done + rest == done;
    } else {
      AdvanceIntendedKeepsInv(p, done, rest[0], availableWidth, spacing);
      FeedIntendedKeepsInv(AdvanceIntended(p, rest[0], availableWidth, spacing), done + [rest[0]], rest[1..], availableWidth, spacing);
      assert done + [rest[0]] + rest[1..] == done + rest;
    }
  }

  /** The intended packing keeps the partition, never produces an empty line,
      and only a single child can reach the available width. */
  lemma PackIntendedNoEmptyLine(sizes: seq<Size>, availableWidth: real, spacing: real)
    ensures var lines := PackLinesIntended(sizes, availableWidth, spacing);
      && Flatten(lines) == sizes
      && (forall i :: 0 <= i < |lines| ==> |lines[i].sizes| > 0)
      && (forall i :: 0 <= i < |lines| ==> LineContentSize(lines[i]).width < availableWidth || |lines[i].sizes| == 1)
  {
    var p := FeedIntended(Start(spacing), sizes, availableWidth, spacing);
    assert IntendedInv(Start(spacing), [], availableWidth, spacing) by {
      assert Flatten([]) == [];
    }
    FeedIntendedKeepsInv(Start(spacing), [], sizes, availableWidth, spacing);
    assert [] + sizes == sizes;
    if |sizes| == 0 {
      assert p == Start(spacing);
    } else {
      FlattenSnoc(p.closed, p.open);
    }
  }

  /** Once the open line holds a child the two iterations agree, and the open
      line stays non-empty. */
  lemma {:induction false} FeedAgrees(p: Packing, sizes: seq<Size>, availableWidth: real, spacing: real)
    requires |p.open.sizes| > 0
    ensures FeedIntended(p, sizes, availableWidth, spacing) == Feed(p, sizes, availableWidth, spacing)
    ensures |Feed(p, sizes, availableWidth, spacing).open.sizes| > 0
    decreases |sizes|
  {
    if |sizes| > 0 {
      FeedAgrees(Advance(p, sizes[0], availableWidth, spacing), sizes[1..], availableWidth, spacing);
    }
  }

  /** Lines closed before the loop state are carried along untouched. */
  lemma {:induction false} FeedShift(prefix: seq<Line>, p: Packing, sizes: seq<Size>, availableWidth: real, spacing: real)
    ensures var q := Feed(p, sizes, availableWidth, spacing);
      Feed(Packing(prefix + p.closed, p.open), sizes, availableWidth, spacing) == Packing(prefix + q.closed, q.open)
    decreases |sizes|
  {
    if |sizes| > 0 {
      var a := Advance(p, sizes[0], availableWidth, spacing);
      assert prefix + p.closed + [p.open] == prefix + (p.closed + [p.open]);
      assert Advance(Packing(prefix + p.closed, p.open), sizes[0], availableWidth, spacing) == Packing(prefix + a.closed, a.open);
      FeedShift(prefix, a, sizes[1..], availableWidth, spacing);
    }
  }

  /** An empty line in front of the others contributes no height of its own
      but one more vertical spacing. Its width is `-spacing`, so with a
      non-negative horizontal spacing it leaves the layout's width alone. */
  lemma EmptyLineAddsGap(lines: seq<Line>, spacing: real, verticalSpacing: real)
    ensures CacheContentSize(Cache(verticalSpacing, [Line(spacing, [])] + lines)).height
         == CacheContentSize(Cache(verticalSpacing, lines)).height + verticalSpacing
    ensures spacing >= 0.0 ==>
      CacheContentSize(Cache(verticalSpacing, [Line(spacing, [])] + lines)).width
      == CacheContentSize(Cache(verticalSpacing, lines)).width
  {
    var written := [Line(spacing, [])] + lines;
    var hs, hs' := LineHeights(lines), LineHeights(written);
    JoinedIsSumPlusGaps(hs', verticalSpacing);
    JoinedIsSumPlusGaps(hs, verticalSpacing);
    assert hs' == [0.0] + hs;
    assert hs'[1..] == hs;
    assert Sum(hs') == Sum(hs);
    GapsSucc(|hs|, verticalSpacing);
    if spacing >= 0.0 {
      EmptyLineKeepsWidth(lines, spacing);
    }
  }

  lemma EmptyLineKeepsWidth(lines: seq<Line>, spacing: real)
    requires spacing >= 0.0
    ensures MaxOf(LineWidths([Line(spacing, [])] + lines)) == MaxOf(LineWidths(lines))
  {
    var empty := Line(spacing, []);
    LineContentSizeIs(empty);
    LineWidthsCons(empty, lines);
    MaxOfNonPositiveHead(LineWidths([empty] + lines), LineContentSize(empty).width, LineWidths(lines));
  }

  lemma LineWidthsCons(line: Line, lines: seq<Line>)
    ensures LineWidths([line] + lines) == [LineContentSize(line).width] + LineWidths(lines)
  {
    var a, b := LineWidths([line] + lines), [LineContentSize(line).width] + LineWidths(lines);
    forall i | 0 <= i < |a|
      ensures a[i] == b[i]
    {
      if i > 0 {
        assert ([line] + lines)[i] == lines[i - 1];
      }
    }
  }

  /** A non-positive value in front never changes the widest, since the
      widest is at least zero. */
  lemma MaxOfNonPositiveHead(ys: seq<real>, x: real, xs: seq<real>)
    requires ys == [x] + xs && x <= 0.0
    ensures MaxOf(ys) == MaxOf(xs)
  {
    var m, m' := MaxOf(xs), MaxOf(ys);
    assert m <= m' by {
      if m != 0.0 {
        var i :| 0 <= i < |xs| && xs[i] == m;
        assert ys[i + 1] == m;
      }
    }
    assert m' <= m by {
      if m' != 0.0 {
        var i :| 0 <= i < |ys| && ys[i] == m';
        assert i > 0;
        assert ys[i] == xs[i - 1];
      }
    }
  }

  /** As written, the cached lines are the intended ones with an empty line in
      front exactly when the first child does not fit. */
  lemma PackLinesVersusIntended(sizes: seq<Size>, availableWidth: real, spacing: real)
    requires |sizes| > 0
    ensures sizes[0].width < availableWidth ==>
      PackLines(sizes, availableWidth, spacing) == PackLinesIntended(sizes, availableWidth, spacing)
    ensures sizes[0].width >= availableWidth ==>
      PackLines(sizes, availableWidth, spacing) == [Line(spacing, [])] + PackLinesIntended(sizes, availableWidth, spacing)
  {
    var empty := Line(spacing, []);
    var first := Line(spacing, [sizes[0]]);
    assert LineContentSize(empty).width == -spacing;
    assert [] + [sizes[0]] == [sizes[0]];
    var q := Feed(Packing([], first), sizes[1..], availableWidth, spacing);
    FeedAgrees(Packing([], first), sizes[1..], availableWidth, spacing);
    assert AdvanceIntended(Start(spacing), sizes[0], availableWidth, spacing) == Packing([], first);
    assert FeedIntended(Start(spacing), sizes, availableWidth, spacing) == q;
    var intended := PackLinesIntended(sizes, availableWidth, spacing);
    assert intended == q.closed + [q.open];
    if sizes[0].width < availableWidth {
      assert Advance(Start(spacing), sizes[0], availableWidth, spacing) == Packing([], first);
      assert Feed(Start(spacing), sizes, availableWidth, spacing) == q;
    } else {
      assert Advance(Start(spacing), sizes[0], availableWidth, spacing) == Packing([empty] + [], first);
      FeedShift([empty], Packing([], first), sizes[1..], availableWidth, spacing);
      assert Feed(Start(spacing), sizes, availableWidth, spacing) == Packing([empty] + q.closed, q.open);
      assert [empty] + q.closed + [q.open] == [empty] + intended;
    }
  }

  /** The leading empty line, as the code has it: when the first child is at
      least as wide as the available width the reported height carries one
      extra vertical spacing above the first real line. */
  lemma PackLeadingEmptyLine(sizes: seq<Size>, availableWidth: real, spacing: real, verticalSpacing: real)
    requires |sizes| > 0 && sizes[0].width >= availableWidth
    ensures |PackLines(sizes, availableWidth, spacing)| > 0
    ensures PackLines(sizes, availableWidth, spacing)[0] == Line(spacing, [])
    ensures CacheContentSize(Cache(verticalSpacing, PackLines(sizes, availableWidth, spacing))).height
         == CacheContentSize(Cache(verticalSpacing, PackLinesIntended(sizes, availableWidth, spacing))).height + verticalSpacing
  {
    PackLinesVersusIntended(sizes, availableWidth, spacing);
    EmptyLineAddsGap(PackLinesIntended(sizes, availableWidth, spacing), spacing, verticalSpacing);
  }
  /** `sizeThatFits` with the leading empty line removed: the same guard and
      the same cache update, packed so that a child too wide for the available
      width opens the first line instead of pushing an empty one. Its height is
      the as-written height less the one vertical spacing the empty line adds. */
  function SizeThatFitsIntended(availableWidth: real, sizes: seq<Size>, positioning: Positioning, cache: Cache): (r: (Size, Cache))
    ensures |sizes| == 0 ==> r == (Size(0.0, 0.0), cache)
    ensures |sizes| > 0 ==> r.1.spacing == cache.spacing && Flatten(r.1.lines) == sizes
    ensures |sizes| > 0 ==> r.0 == CacheContentSize(r.1)
    ensures forall i :: 0 <= i < |r.1.lines| && |sizes| > 0 ==> |r.1.lines[i].sizes| > 0
    ensures |sizes| > 0 && sizes[0].width >= availableWidth ==>
      r.0.height + cache.spacing == SizeThatFits(availableWidth, sizes, positioning, cache).0.height
    ensures |sizes| > 0 && sizes[0].width < availableWidth ==>
      r == SizeThatFits(availableWidth, sizes, positioning, cache)
  {
    if |sizes| == 0 then (Size(0.0, 0.0), cache)
    else
      var spacing := positioning.horizontal.spacing;
      var lines := PackLinesIntended(sizes, availableWidth, spacing);
      PackIntendedNoEmptyLine(sizes, availableWidth, spacing);
      PackLinesVersusIntended(sizes, availableWidth, spacing);
      var packed := cache.(lines := lines);
      var r := (CacheContentSize(packed), packed);
      if sizes[0].width >= availableWidth then
        PackLeadingEmptyLine(sizes, availableWidth, spacing, cache.spacing);
        r
      else
        r
  }
}
