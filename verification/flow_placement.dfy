/**
 * The placing half of `VFlowLayout`: `placeSubviews` walks the cached lines
 * and gives every child an origin, keeping a running x within a line, a
 * running y across lines and a running index across the whole cache.
 */
module FlowPlacement {
  import opened FlowLayout

  datatype Point = Point(x: real, y: real)

  /** The bounds the layout is asked to fill (`CGRect`). */
  datatype Rect = Rect(minX: real, minY: real, width: real, height: real)

  /** Where a line starts within the bounds: flush left, flush right, or with
      equal room on both sides. */
  function LineStartX(alignment: HorizontalAlignment, boundsWidth: real, lineWidth: real): (x: real)
    ensures alignment == Leading ==> x == 0.0
    ensures alignment == Trailing ==> x + lineWidth == boundsWidth
    ensures alignment == HCenter ==> x == boundsWidth - (x + lineWidth)
  {
    match alignment
    case Leading => 0.0
    case Trailing => boundsWidth - lineWidth
    case HCenter => (boundsWidth - lineWidth) / 2.0
  }

  /** Where a child sits within its line: on the line's top edge, on its bottom
      edge, or with equal room above and below; never outside a line at least
      as tall as the child. */
  function OffsetY(alignment: VerticalAlignment, lineHeight: real, height: real): (y: real)
    ensures alignment == Top ==> y == 0.0
    ensures alignment == Bottom ==> y + height == lineHeight
    ensures alignment == VCenter ==> y == lineHeight - (y + height)
    ensures height <= lineHeight ==> 0.0 <= y <= lineHeight - height
  {
    match alignment
    case Top => 0.0
    case Bottom => lineHeight - height
    case VCenter => (lineHeight - height) / 2.0
  }

  /** The inner loop: one origin per child, advancing the running x by the
      child's width and the horizontal spacing. */
  function PlaceRun(bounds: Rect, sizes: seq<Size>, minX: real, minY: real, lineHeight: real,
                    alignment: VerticalAlignment, spacing: real): seq<Point>
    decreases |sizes|
  {
    if |sizes| == 0 then []
    else
      [Point(bounds.minX + minX, bounds.minY + (minY + OffsetY(alignment, lineHeight, sizes[0].height)))]
      + PlaceRun(bounds, sizes[1..], minX + sizes[0].width + spacing, minY, lineHeight, alignment, spacing)
  }

  /** The outer loop: each line starts at its aligned x and at the running y,
      which then advances by the line's height and the vertical spacing. */
  function PlaceLines(bounds: Rect, lines: seq<Line>, positioning: Positioning, minY: real): seq<seq<Point>>
    decreases |lines|
  {
    if |lines| == 0 then []
    else
      var size := LineContentSize(lines[0]);
      var minX := LineStartX(positioning.horizontal.alignment, bounds.width, size.width);
      [PlaceRun(bounds, lines[0].sizes, minX, minY, size.height, positioning.vertical.alignment, positioning.horizontal.spacing)]
      + PlaceLines(bounds, lines[1..], positioning, minY + size.height + positioning.vertical.spacing)
  }

  /** `placeSubviews(in:proposal:subviews:cache:)`: the origins in the order of
      the running index, one per cached child. */
  function PlaceSubviews(bounds: Rect, positioning: Positioning, cache: Cache): (origins: seq<Point>)
    ensures |origins| == |Flatten(cache.lines)|
  {
    PlaceLinesLength(bounds, cache.lines, positioning, 0.0);
    ConcatLength(PlaceLines(bounds, cache.lines, positioning, 0.0), Rows(cache.lines));
    Concat(PlaceLines(bounds, cache.lines, positioning, 0.0))
  }

  // ---------------------------------------------------------------------------
  // Closed forms of the running values
  // ---------------------------------------------------------------------------

  /** The x of child `j` relative to its line's start: the widths of the
      children before it, each followed by one spacing. */
  function ChildOffset(sizes: seq<Size>, j: int, spacing: real): real
    requires 0 <= j <= |sizes|
  {
    Sum(Widths(sizes[..j])) + Gaps(j + 1, spacing)
  }

  /** The y of line `i` relative to the bounds: the heights of the lines above
      it, each followed by one vertical spacing. */
  function LineTop(lines: seq<Line>, i: int, spacing: real): real
    requires 0 <= i <= |lines|
  {
    Sum(LineHeights(lines[..i])) + Gaps(i + 1, spacing)
  }

  lemma {:induction false} PlaceRunAt(bounds: Rect, sizes: seq<Size>, minX: real, minY: real, lineHeight: real,
                                     alignment: VerticalAlignment, spacing: real, j: int)
    requires 0 <= j < |sizes|
    ensures var run := PlaceRun(bounds, sizes, minX, minY, lineHeight, alignment, spacing);
      && |run| == |sizes|
      && run[j] == Point(bounds.minX + (minX + ChildOffset(sizes, j, spacing)),
                         bounds.minY + (minY + OffsetY(alignment, lineHeight, sizes[j].height)))
    decreases |sizes|
  {
    var run := PlaceRun(bounds, sizes, minX, minY, lineHeight, alignment, spacing);
    var minX' := minX + sizes[0].width + spacing;
    if j == 0 {
      if |sizes| > 1 {
        PlaceRunAt(bounds, sizes[1..], minX', minY, lineHeight, alignment, spacing, 0);
      }
      assert sizes[..0] == [];
    } else {
      var rest := sizes[1..];
      PlaceRunAt(bounds, rest, minX', minY, lineHeight, alignment, spacing, j - 1);
      assert rest[j - 1] == sizes[j];
      var ws := Widths(sizes[..j]);
      assert ws[0] == sizes[0].width;
      assert ws[1..] == Widths(rest[..j - 1]);
      GapsSucc(j, spacing);
    }
  }

  lemma {:induction false} PlaceLinesLength(bounds: Rect, lines: seq<Line>, positioning: Positioning, minY: real)
    ensures var placed := PlaceLines(bounds, lines, positioning, minY);
      && |placed| == |lines|
      && forall i :: 0 <= i < |lines| ==> |placed[i]| == |lines[i].sizes|
    decreases |lines|
  {
    if |lines| > 0 {
      PlaceLinesLength(bounds, lines[1..], positioning, minY + LineContentSize(lines[0]).height + positioning.vertical.spacing);
      var size := LineContentSize(lines[0]);
      var minX := LineStartX(positioning.horizontal.alignment, bounds.width, size.width);
      if |lines[0].sizes| > 0 {
        PlaceRunAt(bounds, lines[0].sizes, minX, minY, size.height, positioning.vertical.alignment, positioning.horizontal.spacing, 0);
      }
    }
  }

  lemma {:induction false} PlaceLinesAt(bounds: Rect, lines: seq<Line>, positioning: Positioning, minY: real, i: int)
    requires 0 <= i < |lines|
    ensures var placed := PlaceLines(bounds, lines, positioning, minY);
      var size := LineContentSize(lines[i]);
      && |placed| == |lines|
      && placed[i] == PlaceRun(bounds, lines[i].sizes,
                               LineStartX(positioning.horizontal.alignment, bounds.width, size.width),
                               minY + LineTop(lines, i, positioning.vertical.spacing),
                               size.height, positioning.vertical.alignment, positioning.horizontal.spacing)
    decreases |lines|
  {
    PlaceLinesLength(bounds, lines, positioning, minY);
    var vs := positioning.vertical.spacing;
    if i == 0 {
      assert lines[..0] == [];
      assert LineHeights([]) == [];
      assert LineTop(lines, 0, vs) == 0.0;
    } else {
      var rest := lines[1..];
      var minY' := minY + LineContentSize(lines[0]).height + vs;
      PlaceLinesAt(bounds, rest, positioning, minY', i - 1);
      assert rest[i - 1] == lines[i];
      assert PlaceLines(bounds, lines, positioning, minY)[i] == PlaceLines(bounds, rest, positioning, minY')[i - 1];
      LineTopSucc(lines, i, vs);
      assert minY + LineTop(lines, i, vs) == minY' + LineTop(rest, i - 1, vs);
    }
  }

  /** The top of line `i` is the first line's height and one spacing above the
      top of line `i - 1` of the lines after the first. */
  lemma LineTopSucc(lines: seq<Line>, i: int, spacing: real)
    requires 0 < i <= |lines|
    ensures LineTop(lines, i, spacing)
         == LineContentSize(lines[0]).height + spacing + LineTop(lines[1..], i - 1, spacing)
  {
    var hs := LineHeights(lines[..i]);
    assert hs[0] == LineContentSize(lines[0]).height;
    assert hs[1..] == LineHeights(lines[1..][..i - 1]);
    GapsSucc(i, spacing);
  }

  // ---------------------------------------------------------------------------
  // Concatenation and the running index
  // ---------------------------------------------------------------------------

  lemma {:induction false} ConcatLength<S, T>(xss: seq<seq<S>>, yss: seq<seq<T>>)
    requires |xss| == |yss|
    requires forall i :: 0 <= i < |xss| ==> |xss[i]| == |yss[i]|
    ensures |Concat(xss)| == |Concat(yss)|
    decreases |xss|
  {
    if |xss| > 0 {
      ConcatLength(xss[..|xss| - 1], yss[..|yss| - 1]);
    }
  }

  /** Element `j` of part `i` sits after all elements of the earlier parts. */
  lemma {:induction false} ConcatAt<T>(xss: seq<seq<T>>, i: int, j: int)
    requires 0 <= i < |xss| && 0 <= j < |xss[i]|
    ensures |Concat(xss[..i])| + j < |Concat(xss)|
    ensures Concat(xss)[|Concat(xss[..i])| + j] == xss[i][j]
    decreases |xss|
  {
    var init := xss[..|xss| - 1];
    if i == |xss| - 1 {
      assert xss[..i] == init;
    } else {
      ConcatAt(init, i, j);
      assert init[..i] == xss[..i];
      assert init[i] == xss[i];
    }
  }

  /** Placement of child `j` of line `i`: it is placed under the running index
      that counts every child of the earlier lines, at its line's aligned start
      plus the widths and spacings of the children before it, and at its line's
      top plus its vertical offset within the line. */
  lemma PlaceSubviewsAt(bounds: Rect, positioning: Positioning, cache: Cache, i: int, j: int)
    requires 0 <= i < |cache.lines| && 0 <= j < |cache.lines[i].sizes|
    ensures var origins := PlaceSubviews(bounds, positioning, cache);
      var k := |Flatten(cache.lines[..i])| + j;
      var line := cache.lines[i];
      var size := LineContentSize(line);
      && k < |origins|
      && origins[k] == Point(
           bounds.minX + (LineStartX(positioning.horizontal.alignment, bounds.width, size.width)
                          + ChildOffset(line.sizes, j, positioning.horizontal.spacing)),
           bounds.minY + (LineTop(cache.lines, i, positioning.vertical.spacing)
                          + OffsetY(positioning.vertical.alignment, size.height, line.sizes[j].height)))
  {
    var placed := PlaceLines(bounds, cache.lines, positioning, 0.0);
    PlaceLinesLength(bounds, cache.lines, positioning, 0.0);
    PlaceLinesAt(bounds, cache.lines, positioning, 0.0, i);
    ConcatAt(placed, i, j);
    ConcatLength(placed[..i], Rows(cache.lines[..i]));
    var size := LineContentSize(cache.lines[i]);
    PlaceRunAt(bounds, cache.lines[i].sizes,
               LineStartX(positioning.horizontal.alignment, bounds.width, size.width),
               0.0 + LineTop(cache.lines, i, positioning.vertical.spacing),
               size.height, positioning.vertical.alignment, positioning.horizontal.spacing, j);
  }

  /** Within a line, neighbouring children are placed one child's width plus
      the horizontal spacing apart, and the last child ends where the line's
      content width ends. */
  lemma ChildOffsetStep(sizes: seq<Size>, j: int, spacing: real)
    requires 0 <= j < |sizes|
    ensures ChildOffset(sizes, j + 1, spacing) == ChildOffset(sizes, j, spacing) + sizes[j].width + spacing
    ensures j == |sizes| - 1 ==>
      ChildOffset(sizes, j, spacing) + sizes[j].width == LineContentSize(Line(spacing, sizes)).width
  {
    assert sizes[..j + 1] == sizes[..j] + [sizes[j]];
    WidthsSnoc(sizes[..j], sizes[j]);
    SumSnoc(Widths(sizes[..j]), sizes[j].width);
    GapsSucc(j + 1, spacing);
    if j == |sizes| - 1 {
      assert sizes[..j + 1] == sizes;
      LineContentSizeIs(Line(spacing, sizes));
    }
  }

  /** Consecutive lines start one line height plus the vertical spacing apart. */
  lemma LineTopStep(lines: seq<Line>, i: int, spacing: real)
    requires 0 <= i < |lines|
    ensures LineTop(lines, i + 1, spacing) == LineTop(lines, i, spacing) + LineContentSize(lines[i]).height + spacing
  {
    assert lines[..i + 1] == lines[..i] + [lines[i]];
    assert LineHeights(lines[..i + 1]) == LineHeights(lines[..i]) + [LineContentSize(lines[i]).height];
    SumSnoc(LineHeights(lines[..i]), LineContentSize(lines[i]).height);
    GapsSucc(i + 1, spacing);
  }

  /** Every child lies vertically inside its line: its origin is between the
      line's top and the line's bottom less the child's height. */
  lemma ChildWithinLine(line: Line, j: int, alignment: VerticalAlignment)
    requires 0 <= j < |line.sizes|
    ensures var h := LineContentSize(line).height;
      0.0 <= OffsetY(alignment, h, line.sizes[j].height) <= h - line.sizes[j].height
  {
    LineContentSizeIs(line);
  }
}
