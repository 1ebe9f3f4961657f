/** `set_screen_size`. Panning is not modelled. */
module ScreenSize {
  import opened RandrState
  import opened Geometry

  datatype Size = Size(w: int, h: int)

  /** The right and bottom edge, on the screen, of a mode shown at x,y. */
  function Edge(m: Mode, r: Rotation, t: Transform, x: int, y: int): Size {
    var b := ModeBox(m, r, t);
    Size(x + b.x2, y + b.y2)
  }

  /** The edge is inside a size exactly when the image of every point of the mode, shown at x,y, is. */
  lemma {:induction false} EdgeIsLeast(m: Mode, r: Rotation, t: Transform, x: int, y: int, fb: Size)
    requires Proper(t, ModeWidth(m, r), ModeHeight(m, r))
    ensures Inside(Edge(m, r, t, x, y), fb) <==>
      forall p: Point, q: Point :: InRectangle(p, ModeWidth(m, r), ModeHeight(m, r)) && TransformPoint(t, p) == Some(q) ==>
        x as real + q.x <= fb.w as real && y as real + q.y <= fb.h as real
  {
    var w, h, b := ModeWidth(m, r), ModeHeight(m, r), ModeBox(m, r, t);
    if Inside(Edge(m, r, t, x, y), fb) {
      forall p: Point, q: Point | InRectangle(p, w, h) && TransformPoint(t, p) == Some(q)
        ensures x as real + q.x <= fb.w as real && y as real + q.y <= fb.h as real
      {
        ModeBoxHoldsMode(m, r, t, p);
      }
    }
    if forall p: Point, q: Point :: InRectangle(p, w, h) && TransformPoint(t, p) == Some(q) ==>
         x as real + q.x <= fb.w as real && y as real + q.y <= fb.h as real {
      var around := Box(b.x1, b.y1, fb.w - x, fb.h - y);
      BoundsAreLeast(t, Corners(w, h), 4, b);
      forall i | 0 <= i < 4 ensures Holds(around, Image(t, Corners(w, h)[i])) {
        assert InRectangle(Corners(w, h)[i], w, h) && TransformPoint(t, Corners(w, h)[i]).Some?;
        assert Holds(b, Image(t, Corners(w, h)[i]));
      }
      BoundsAreLeast(t, Corners(w, h), 4, around);
    }
  }

  predicate Inside(a: Size, b: Size) {
    a.w <= b.w && a.h <= b.h
  }

  function OutputEdge(o: Output): Size
    requires o.mode.Some?
    reads o`mode, o`rotation, o`transform, o`x, o`y
  {
    Edge(o.mode.value, o.rotation, o.transform, o.x, o.y)
  }

  ghost predicate AllInside(outs: seq<Output>, fb: Size)
    reads outs`mode, outs`rotation, outs`transform, outs`x, outs`y
  {
    forall k :: 0 <= k < |outs| && outs[k].mode.Some? ==> Inside(OutputEdge(outs[k]), fb)
  }

  function Max(a: int, b: int): int { if a < b then b else a }

  function Grow(fb: Size, edge: Size): Size {
    Size(Max(fb.w, edge.w), Max(fb.h, edge.h))
  }

  /** The framebuffer grown to fit the first `k` outputs. */
  function Grown(fb: Size, outs: seq<Output>, k: nat): Size
    requires k <= |outs|
    reads outs`mode, outs`rotation, outs`transform, outs`x, outs`y
  {
    if k == 0 then fb
    else if outs[k - 1].mode.None? then Grown(fb, outs, k - 1)
    else Grow(Grown(fb, outs, k - 1), OutputEdge(outs[k - 1]))
  }

  lemma {:induction false} GrownIsLeast(fb: Size, outs: seq<Output>, k: nat, other: Size)
    requires k <= |outs|
    ensures Inside(Grown(fb, outs, k), other) <==>
      Inside(fb, other) && forall j :: 0 <= j < k && outs[j].mode.Some? ==> Inside(OutputEdge(outs[j]), other)
  {
    if k > 0 {
      GrownIsLeast(fb, outs, k - 1, other);
    }
  }

  datatype Sized = TooLarge | TooSmall | Sized(fb: Size, warned: bool)

  /** `set_screen_size`, from the requested size `fb` (zero where none was requested). */
  method SetScreenSize(outs: seq<Output>, fb: Size, min: Size, max: Size) returns (r: Sized)
    requires Inside(min, max)
    ensures var specified := fb.w != 0 && fb.h != 0;
      if specified then
        && (r.TooLarge? <==> !Inside(fb, max))
        && (r.TooSmall? <==> Inside(fb, max) && !Inside(min, fb))
        && (r.Sized? ==> r.fb == fb && (r.warned <==> !AllInside(outs, fb)))
      else
        && (r.TooLarge? <==> !(Inside(fb, max) && AllInside(outs, max)))
        && !r.TooSmall?
        && (r.Sized? ==> !r.warned && forall other :: Inside(r.fb, other) <==>
              Inside(fb, other) && Inside(min, other) && AllInside(outs, other))
    ensures r.Sized? ==> Inside(min, r.fb) && Inside(r.fb, max)
    ensures r.Sized? && !r.warned ==> AllInside(outs, r.fb)
  {
    var specified := fb.w != 0 && fb.h != 0;
    var size, warned := fb, false;
    for k := 0 to |outs|
      invariant specified ==> size == fb
      invariant specified ==>
        (warned <==> exists j :: 0 <= j < k && outs[j].mode.Some? && !Inside(OutputEdge(outs[j]), fb))
      invariant !specified ==> size == Grown(fb, outs, k) && !warned
    {
      if outs[k].mode.Some? {
        var bounds := ModeGeometry(outs[k].mode.value, outs[k].rotation, outs[k].transform);
        var x, y := outs[k].x + bounds.x1, outs[k].y + bounds.y1;
        var w, h := bounds.x2 - bounds.x1, bounds.y2 - bounds.y1;
        assert Size(x + w, y + h) == OutputEdge(outs[k]);
        if specified {
          if x + w > fb.w || y + h > fb.h { warned := true; }
        } else {
          if x + w > size.w { size := size.(w := x + w); }
          if y + h > size.h { size := size.(h := y + h); }
        }
      }
    }
    if !specified {
      forall other: Size
        ensures Inside(size, other) <==> Inside(fb, other) && AllInside(outs, other)
      {
        GrownIsLeast(fb, outs, |outs|, other);
      }
    }
    if size.w > max.w || size.h > max.h { return TooLarge; }
    if specified {
      if size.w < min.w || size.h < min.h { return TooSmall; }
    } else {
      if size.w < min.w { size := size.(w := min.w); }
      if size.h < min.h { size := size.(h := min.h); }
      assert Inside(size, size);
    }
    return Sized(size, warned);
  }
}
