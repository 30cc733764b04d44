/** Two pieces of screen arithmetic: the rows of the config panel
    (cmd/chat_config_panel.go) and the scrollbar (cmd/chat_scrollbar.go). */
module PanelGeometry {
  import opened Arithmetic

  function Max(a: int, b: int): int { if a >= b then a else b }

  const DEFAULT_ROWS := 10
  const MIN_ROWS := 4

  // ----- visible rows -----

  /** Rows left when `rows` rows are shown: each scroll hint that needs takes one. */
  function RowsFor(space: int, scroll: int, total: int, rows: int): int {
    var hints := (if scroll > 0 then 1 else 0) + (if scroll + rows < total then 1 else 0);
    Max(MIN_ROWS, space - hints)
  }

  /** `rows` leaves room for exactly the hints that it needs. */
  predicate Settled(space: int, scroll: int, total: int, rows: int) {
    rows == RowsFor(space, scroll, total, rows)
  }

  ghost predicate GreatestSettled(space: int, scroll: int, total: int, rows: int) {
    Settled(space, scroll, total, rows) && forall r :: Settled(space, scroll, total, r) ==> r <= rows
  }

  /** Two rounds reach the greatest number of rows that settles. */
  method VisibleRows(height: int, reserved: int, total: int, scroll: int) returns (rows: int)
    ensures height <= 0 ==> rows == 10
    ensures height > 0 ==>
              var hints := (if scroll > 0 then 1 else 0) + (if scroll + rows < total then 1 else 0);
              rows == if height - reserved - hints >= 4 then height - reserved - hints else 4
    ensures height > 0 ==> GreatestSettled(height - reserved, scroll, total, rows)
    ensures rows >= 4
  {
    if height <= 0 {
      return DEFAULT_ROWS;
    }
    var space := height - reserved;
    rows := Max(MIN_ROWS, space);
    ghost var top := rows;
    for round := 0 to 2
      invariant rows >= MIN_ROWS && rows <= top
      invariant forall r :: Settled(space, scroll, total, r) ==> r <= rows
      invariant RowsFor(space, scroll, total, rows) <= rows
      invariant round == 0 ==> rows == top
      invariant round == 1 ==> rows == RowsFor(space, scroll, total, top)
      invariant round == 2 ==> Settled(space, scroll, total, rows)
    {
      var hints := 0;
      if scroll > 0 {
        hints := hints + 1;
      }
      if scroll + rows < total {
        hints := hints + 1;
      }
      rows := Max(MIN_ROWS, space - hints);
    }
  }

  // ----- the scroll window of the models list -----

  /** An offset at which the selected row is in the window, and the window in the list. */
  ghost predicate Shows(total: nat, window: nat, sel: nat, scroll: int) {
    0 <= scroll <= sel < scroll + window && (scroll == 0 || scroll + window <= total)
  }

  function Apart(a: int, b: int): nat {
    if a >= b then a - b else b - a
  }

  /** Any selected row is in the window, the window is in the list and full
      whenever the list is long enough, and it moves no further than it must. */
  method ScrollWindow(total: nat, window: nat, sel: nat, scroll0: nat) returns (scroll: int, end: int)
    requires window >= 4 && sel < total
    ensures 0 <= scroll <= sel < end <= total
    ensures end == if total >= window then scroll + window else total
    ensures Shows(total, window, sel, scroll)
    ensures forall s :: Shows(total, window, sel, s) ==> Apart(scroll, scroll0) <= Apart(s, scroll0)
  {
    scroll := scroll0;
    var maxScroll := Max(0, total - window);
    if scroll > maxScroll {
      scroll := maxScroll;
    }
    if sel < scroll {
      scroll := sel;
    }
    if sel >= scroll + window {
      scroll := sel - window + 1;
    }
    end := scroll + window;
    if end > total {
      end := total;
    }
  }

  // ----- the scrollbar -----

  datatype Glyph = Thumb | Track | Top | Bottom

  function ThumbSize(vpH: nat, total: nat): (size: nat)
    requires vpH > 0 && total > 0
    ensures 1 <= size <= vpH
  {
    var size := (vpH * vpH) / total;
    if size < 1 then 1 else if size > vpH then vpH else size
  }

  /** The thumb is to the viewport as the viewport is to the content, rounded down,
      but never less than one row or more than all. */
  lemma SizeIsProportional(vpH: nat, total: nat)
    requires vpH > 0 && total > 0
    ensures var size := ThumbSize(vpH, total);
            && (size > 1 ==> size * total <= vpH * vpH) && (size < vpH ==> vpH * vpH < (size + 1) * total)
  {
    var q := (vpH * vpH) / total;
    DivMeans(vpH * vpH, total);
    var size := ThumbSize(vpH, total);
    if size > 1 {
      MulMonotone(size, q, total);
    }
    if size < vpH {
      MulMonotone(q + 1, size + 1, total);
    }
  }

  /** The thumb's top is to its track as the offset is to the greatest offset,
      rounded down. */
  lemma TopIsProportional(vpH: nat, total: nat, y: int)
    requires vpH > 0 && total > vpH && 0 <= y <= total - vpH
    ensures var top, track := ThumbTop(vpH, total, y), vpH - ThumbSize(vpH, total);
            top * (total - vpH) <= y * track < (top + 1) * (total - vpH)
  {
    var max, track := total - vpH, vpH - ThumbSize(vpH, total);
    MulMonotone(0, y, track);
    DivMeans(y * track, max);
  }

  function MaxOffset(vpH: nat, total: nat): nat {
    if total > vpH then total - vpH else 1
  }

  function Clamped(y: int, max: nat): nat {
    if y < 0 then 0 else if y > max then max else y
  }

  function ThumbTop(vpH: nat, total: nat, y: int): int
    requires vpH > 0 && total > 0
  {
    var max := MaxOffset(vpH, total);
    (Clamped(y, max) * (vpH - ThumbSize(vpH, total))) / max
  }

  lemma DivOfProduct(a: nat, n: nat)
    requires n > 0
    ensures (n * a) / n == a
  {
    DivUnique(n * a, n, a);
  }

  lemma DivUnique(x: nat, n: nat, q: nat)
    requires n > 0 && x == n * q
    ensures x / n == q
  {
    var d := x / n;
    assert x == d * n + x % n;
    if d < q {
      MulMonotone(d + 1, q, n);
      assert false;
    } else if d > q {
      MulMonotone(q + 1, d, n);
      assert false;
    }
  }

  /** The thumb goes down with the offset. */
  lemma TopMonotone(vpH: nat, total: nat, y: int, z: int)
    requires vpH > 0 && total > 0 && y <= z
    ensures ThumbTop(vpH, total, y) <= ThumbTop(vpH, total, z)
  {
    var max := MaxOffset(vpH, total);
    var track := vpH - ThumbSize(vpH, total);
    MulMonotone(0, Clamped(y, max), track);
    MulMonotone(Clamped(y, max), Clamped(z, max), track);
    DivMonotone(Clamped(y, max) * track, Clamped(z, max) * track, max);
  }

  /** At the top at the least offset, and touching the bottom at the greatest. */
  lemma TopAtEnds(vpH: nat, total: nat, y: int)
    requires vpH > 0 && total > 0
    ensures y <= 0 ==> ThumbTop(vpH, total, y) == 0
    ensures y >= MaxOffset(vpH, total) ==> ThumbTop(vpH, total, y) + ThumbSize(vpH, total) == vpH
  {
    var max := MaxOffset(vpH, total);
    DivOfProduct(vpH - ThumbSize(vpH, total), max);
  }

  lemma ThumbInside(vpH: nat, total: nat, y: int)
    requires vpH > 0 && total > 0
    ensures 0 <= ThumbTop(vpH, total, y) && ThumbTop(vpH, total, y) + ThumbSize(vpH, total) <= vpH
  {
    var max := MaxOffset(vpH, total);
    TopMonotone(vpH, total, if y < 0 then y else 0, y);
    TopAtEnds(vpH, total, if y < 0 then y else 0);
    TopMonotone(vpH, total, y, if y > max then y else max);
    TopAtEnds(vpH, total, if y > max then y else max);
  }

  /** More content never makes the thumb larger. */
  lemma SizeShrinks(vpH: nat, total: nat, more: nat)
    requires vpH > 0 && 0 < total <= more
    ensures ThumbSize(vpH, more) <= ThumbSize(vpH, total)
  {
    DivAntitone(vpH * vpH, total, more);
  }

  lemma DivAntitone(x: nat, m: nat, n: nat)
    requires 0 < m <= n
    ensures x / n <= x / m
  {
    var p, q := x / m, x / n;
    assert x == p * m + x % m && x == q * n + x % n;
    if q > p {
      MulMonotone(p + 1, q, m);
      MulMonotone(m, n, q);
      assert false;
    }
  }

  /** One column of exactly `vpH` glyphs with one run of thumb, or nothing when
      the content does not overflow. */
  method RenderScrollbar(viewportHeight: int, vpH: int, total: int, yOffset: int) returns (rows: seq<Glyph>)
    ensures viewportHeight <= 0 || total <= viewportHeight || vpH <= 0 ==> rows == []
    ensures !(viewportHeight <= 0 || total <= viewportHeight || vpH <= 0) ==>
              var top, size := ThumbTop(vpH, total, yOffset), ThumbSize(vpH, total);
              && |rows| == vpH && 0 <= top && top + size <= vpH
              && (forall r :: 0 <= r < vpH ==> (rows[r] == Thumb <==> top <= r < top + size))
              && (top > 0 ==> rows[0] == Top)
              && (top + size < vpH ==> rows[vpH - 1] == if vpH == 1 then Top else Bottom)
              && (forall r :: 0 < r < vpH - 1 && rows[r] != Thumb ==> rows[r] == Track)
  {
    rows := [];
    if viewportHeight <= 0 || total <= viewportHeight {
      return;
    }
    if vpH <= 0 || total <= 0 {
      return;
    }
    var thumbSize, thumbTop := PlaceThumb(vpH, total, yOffset);
    ThumbInside(vpH, total, yOffset);
    rows := Column(vpH, thumbTop, thumbTop + thumbSize - 1);
  }

  method PlaceThumb(vpH: nat, total: nat, yOffset: int) returns (thumbSize: int, thumbTop: int)
    requires vpH > 0 && total > 0
    ensures thumbSize == ThumbSize(vpH, total) && thumbTop == ThumbTop(vpH, total, yOffset)
  {
    thumbSize := (vpH * vpH) / total;
    if thumbSize < 1 {
      thumbSize := 1;
    }
    if thumbSize > vpH {
      thumbSize := vpH;
    }
    var trackSpace := vpH - thumbSize;
    var maxOffset := total - vpH;
    if maxOffset <= 0 {
      maxOffset := 1;
    }
    var y := yOffset;
    if y < 0 {
      y := 0;
    }
    if y > maxOffset {
      y := maxOffset;
    }
    thumbTop := 0;
    if trackSpace > 0 {
      thumbTop := (y * trackSpace) / maxOffset;
    } else {
      DivOfProduct(0, maxOffset);
    }
  }

  method Column(vpH: nat, thumbTop: int, thumbBottom: int) returns (rows: seq<Glyph>)
    ensures |rows| == vpH
    ensures forall r :: 0 <= r < vpH ==>
              rows[r] == if thumbTop <= r <= thumbBottom then Thumb
                         else if r == 0 then Top else if r == vpH - 1 then Bottom else Track
  {
    rows := [];
    for row := 0 to vpH
      invariant |rows| == row
      invariant forall r :: 0 <= r < row ==>
                  rows[r] == if thumbTop <= r <= thumbBottom then Thumb
                             else if r == 0 then Top else if r == vpH - 1 then Bottom else Track
    {
      if row >= thumbTop && row <= thumbBottom {
        rows := rows + [Thumb];
      } else if row == 0 {
        rows := rows + [Top];
      } else if row == vpH - 1 {
        rows := rows + [Bottom];
      } else {
        rows := rows + [Track];
      }
    }
  }
}
