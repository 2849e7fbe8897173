/** The size of the framebuffer: given by the user, or just large enough for everything shown. */
module ScreenSize {
  import opened Options
  import opened Display
  import opened Geometry

  /** The range of screen sizes the server supports. */
  datatype Limits = Limits(minWidth: int, minHeight: int, maxWidth: int, maxHeight: int)

  datatype Sizing = TooLarge | TooSmall | Size(width: int, height: int, warned: bool)

  /** The right edge of the area an enabled output shows. */
  function RightEdge(o: Output): int
    requires o.mode.Some?
  {
    o.x + Bounds(o.mode.value, o.rotation, o.transform).x2
  }

  function BottomEdge(o: Output): int
    requires o.mode.Some?
  {
    o.y + Bounds(o.mode.value, o.rotation, o.transform).y2
  }

  /** The panning area in force: the new one, or that of the CRTC the output has. */
  function PanningOf(crtcs: seq<Crtc>, o: Output): Option<Panning>
    requires o.crtc.Some? ==> o.crtc.value < |crtcs|
  {
    if ChangePanning in o.changes then Some(o.panning)
    else if o.crtc.Some? then crtcs[o.crtc.value].panning
    else None
  }

  /** A screen this wide shows every output in full width. */
  predicate ShowsWidth(outs: seq<Output>, w: int) {
    forall k :: 0 <= k < |outs| && outs[k].mode.Some? ==> RightEdge(outs[k]) <= w
  }

  predicate ShowsHeight(outs: seq<Output>, h: int) {
    forall k :: 0 <= k < |outs| && outs[k].mode.Some? ==> BottomEdge(outs[k]) <= h
  }

  /** A screen this wide also holds every panning area. */
  predicate PansWidth(crtcs: seq<Crtc>, outs: seq<Output>, w: int)
    requires ValidCrtcs(crtcs, outs)
  {
    forall k :: 0 <= k < |outs| && outs[k].mode.Some? && PanningOf(crtcs, outs[k]).Some? ==>
      var pan := PanningOf(crtcs, outs[k]).value;
      pan.left + pan.width <= w
  }

  predicate PansHeight(crtcs: seq<Crtc>, outs: seq<Output>, h: int)
    requires ValidCrtcs(crtcs, outs)
  {
    forall k :: 0 <= k < |outs| && outs[k].mode.Some? && PanningOf(crtcs, outs[k]).Some? ==>
      var pan := PanningOf(crtcs, outs[k]).value;
      pan.top + pan.height <= h
  }

  predicate HoldsWidth(crtcs: seq<Crtc>, outs: seq<Output>, w: int)
    requires ValidCrtcs(crtcs, outs)
  {
    ShowsWidth(outs, w) && PansWidth(crtcs, outs, w)
  }

  predicate HoldsHeight(crtcs: seq<Crtc>, outs: seq<Output>, h: int)
    requires ValidCrtcs(crtcs, outs)
  {
    ShowsHeight(outs, h) && PansHeight(crtcs, outs, h)
  }

  /** The least width from start on that holds everything. */
  ghost predicate LeastWidth(crtcs: seq<Crtc>, outs: seq<Output>, start: int, r: int)
    requires ValidCrtcs(crtcs, outs)
  {
    start <= r && HoldsWidth(crtcs, outs, r) && forall w :: start <= w && HoldsWidth(crtcs, outs, w) ==> r <= w
  }

  ghost predicate LeastHeight(crtcs: seq<Crtc>, outs: seq<Output>, start: int, r: int)
    requires ValidCrtcs(crtcs, outs)
  {
    start <= r && HoldsHeight(crtcs, outs, r) && forall h :: start <= h && HoldsHeight(crtcs, outs, h) ==> r <= h
  }

  /** The user gave both sides. */
  predicate Specified(width: int, height: int) { width != 0 && height != 0 }

  /**
    A computed size is the least one that holds every output and every panning area,
    starting from what was given and the server's minimum; it fails exactly when not
    even the server's maximum would do.  A given size is only checked against the
    server's range, with a warning when it does not show every output.
   */
  method SetScreenSize(outputs: array<Output>, crtcs: seq<Crtc>, limits: Limits, width: int, height: int)
    returns (r: Sizing)
    requires ValidCrtcs(crtcs, outputs[..])
    requires limits.minWidth <= limits.maxWidth && limits.minHeight <= limits.maxHeight
    ensures Specified(width, height) ==>
      && (r == TooLarge <==> width > limits.maxWidth || height > limits.maxHeight)
      && (r == TooSmall <==> r != TooLarge && (width < limits.minWidth || height < limits.minHeight))
      && (r.Size? ==> r == Size(width, height, !(ShowsWidth(outputs[..], width) && ShowsHeight(outputs[..], height))))
    ensures !Specified(width, height) ==>
      && r != TooSmall
      && (r == TooLarge <==> !(&& width <= limits.maxWidth && HoldsWidth(crtcs, outputs[..], limits.maxWidth)
                               && height <= limits.maxHeight && HoldsHeight(crtcs, outputs[..], limits.maxHeight)))
      && (r.Size? ==>
            && LeastWidth(crtcs, outputs[..], Max(width, limits.minWidth), r.width)
            && LeastHeight(crtcs, outputs[..], Max(height, limits.minHeight), r.height))
    ensures outputs.Length == 1 && Plain(outputs[0]) && !Specified(width, height) && r.Size? ==>
      && (outputs[0].crtc.Some? ==> outputs[0].crtc.value < |crtcs|)
      && SizeOfOne(crtcs, outputs[0], Max(width, limits.minWidth), Max(height, limits.minHeight), r.width, r.height)
    ensures r.Size? ==>
      limits.minWidth <= r.width <= limits.maxWidth && limits.minHeight <= r.height <= limits.maxHeight
  {
    var fbWidth, fbHeight, warned := width, height, false;
    var specified := fbWidth != 0 && fbHeight != 0;
    if specified {
      warned := WarnIfTooSmall(outputs, width, height);
    } else {
      fbWidth, fbHeight := FitToOutputs(outputs, crtcs, width, height);
    }
    assert !specified ==>
      (fbWidth <= limits.maxWidth <==> width <= limits.maxWidth && HoldsWidth(crtcs, outputs[..], limits.maxWidth));
    assert !specified ==>
      (fbHeight <= limits.maxHeight <==>
        height <= limits.maxHeight && HoldsHeight(crtcs, outputs[..], limits.maxHeight));
    if fbWidth > limits.maxWidth || fbHeight > limits.maxHeight {
      return TooLarge;
    }
    if specified {
      if fbWidth < limits.minWidth || fbHeight < limits.minHeight {
        return TooSmall;
      }
    } else {
      if fbWidth < limits.minWidth { fbWidth := limits.minWidth; }
      if fbHeight < limits.minHeight { fbHeight := limits.minHeight; }
    }
    if outputs.Length == 1 && Plain(outputs[0]) {
      assert outputs[..] == [outputs[0]];
      OneOutputSize(crtcs, outputs[0], Max(width, limits.minWidth), Max(height, limits.minHeight), fbWidth, fbHeight);
    }
    return Size(fbWidth, fbHeight, warned);
  }

  method WarnIfTooSmall(outputs: array<Output>, width: int, height: int) returns (warned: bool)
    ensures warned <==> !(ShowsWidth(outputs[..], width) && ShowsHeight(outputs[..], height))
  {
    warned := false;
    for k := 0 to outputs.Length
      invariant warned <==> !(ShowsWidth(outputs[..k], width) && ShowsHeight(outputs[..k], height))
    {
      assert outputs[..k + 1] == outputs[..k] + [outputs[k]];
      if outputs[k].mode.None? {
        continue;
      }
      var bounds := ModeGeometry(outputs[k].mode.value, outputs[k].rotation, outputs[k].transform);
      var x, y := outputs[k].x + bounds.x1, outputs[k].y + bounds.y1;
      var w, h := bounds.x2 - bounds.x1, bounds.y2 - bounds.y1;
      if x + w > width || y + h > height {
        warned := true;
      }
    }
    assert outputs[..outputs.Length] == outputs[..];
  }

  method FitToOutputs(outputs: array<Output>, crtcs: seq<Crtc>, width: int, height: int)
    returns (fbWidth: int, fbHeight: int)
    requires ValidCrtcs(crtcs, outputs[..])
    ensures LeastWidth(crtcs, outputs[..], width, fbWidth)
    ensures LeastHeight(crtcs, outputs[..], height, fbHeight)
  {
    fbWidth, fbHeight := width, height;
    for k := 0 to outputs.Length
      invariant ValidCrtcs(crtcs, outputs[..k])
      invariant LeastWidth(crtcs, outputs[..k], width, fbWidth)
      invariant LeastHeight(crtcs, outputs[..k], height, fbHeight)
    {
      var o := outputs[k];
      ghost var outs, w, h := outputs[..k], fbWidth, fbHeight;
      assert outputs[..k + 1] == outs + [o] && o == outputs[..][k];
      fbWidth, fbHeight := FitToOutput(crtcs, o, fbWidth, fbHeight);
      LeastExtends(crtcs, outs, o, width, w, fbWidth, height, h, fbHeight);
    }
    assert outputs[..outputs.Length] == outputs[..];
  }

  lemma {:induction false} LeastExtends(crtcs: seq<Crtc>, outs: seq<Output>, o: Output, width: int, w: int, w': int,
                                        height: int, h: int, h': int)
    requires ValidCrtcs(crtcs, outs) && ValidCrtcs(crtcs, [o])
    requires LeastWidth(crtcs, outs, width, w) && LeastWidth(crtcs, [o], w, w')
    requires LeastHeight(crtcs, outs, height, h) && LeastHeight(crtcs, [o], h, h')
    ensures ValidCrtcs(crtcs, outs + [o])
    ensures LeastWidth(crtcs, outs + [o], width, w') && LeastHeight(crtcs, outs + [o], height, h')
  {
    forall v: int
      ensures HoldsWidth(crtcs, outs + [o], v) <==> HoldsWidth(crtcs, outs, v) && HoldsWidth(crtcs, [o], v)
    {
      WidthSplits(crtcs, outs, o, v);
    }
    forall v: int
      ensures HoldsHeight(crtcs, outs + [o], v) <==> HoldsHeight(crtcs, outs, v) && HoldsHeight(crtcs, [o], v)
    {
      HeightSplits(crtcs, outs, o, v);
    }
  }

  lemma {:induction false} WidthSplits(crtcs: seq<Crtc>, outs: seq<Output>, o: Output, w: int)
    requires ValidCrtcs(crtcs, outs) && ValidCrtcs(crtcs, [o])
    ensures HoldsWidth(crtcs, outs + [o], w) <==> HoldsWidth(crtcs, outs, w) && HoldsWidth(crtcs, [o], w)
  {
    var all := outs + [o];
    assert all[|outs|] == o && [o][0] == o;
    assert forall k :: 0 <= k < |outs| ==> all[k] == outs[k];
  }

  lemma {:induction false} HeightSplits(crtcs: seq<Crtc>, outs: seq<Output>, o: Output, h: int)
    requires ValidCrtcs(crtcs, outs) && ValidCrtcs(crtcs, [o])
    ensures HoldsHeight(crtcs, outs + [o], h) <==> HoldsHeight(crtcs, outs, h) && HoldsHeight(crtcs, [o], h)
  {
    var all := outs + [o];
    assert all[|outs|] == o && [o][0] == o;
    assert forall k :: 0 <= k < |outs| ==> all[k] == outs[k];
  }

  method FitToOutput(crtcs: seq<Crtc>, o: Output, width: int, height: int) returns (fbWidth: int, fbHeight: int)
    requires ValidCrtcs(crtcs, [o])
    ensures LeastWidth(crtcs, [o], width, fbWidth)
    ensures LeastHeight(crtcs, [o], height, fbHeight)
  {
    fbWidth, fbHeight := width, height;
    assert [o][0] == o;
    if o.mode.None? {
      return;
    }
    var bounds := ModeGeometry(o.mode.value, o.rotation, o.transform);
    var x, y := o.x + bounds.x1, o.y + bounds.y1;
    var w, h := bounds.x2 - bounds.x1, bounds.y2 - bounds.y1;
    if x + w > fbWidth { fbWidth := x + w; }
    if y + h > fbHeight { fbHeight := y + h; }
    var pan: Option<Panning>;
    if ChangePanning in o.changes {
      pan := Some(o.panning);
    } else {
      pan := if o.crtc.Some? then crtcs[o.crtc.value].panning else None;
    }
    if pan.Some? && pan.value.left + pan.value.width > fbWidth { fbWidth := pan.value.left + pan.value.width; }
    if pan.Some? && pan.value.top + pan.value.height > fbHeight { fbHeight := pan.value.top + pan.value.height; }
  }

  /** The right edge is that of the images of the corners, rounded up; so is the bottom edge. */
  lemma {:induction false} EdgesHoldCorners(o: Output, w: int, h: int)
    requires o.mode.Some?
    ensures RightEdge(o) <= w <==> forall c :: c in CornersOf(o.mode.value, o.rotation) ==>
      o.x as real + ImageOrSame(o.transform.matrix, c).x <= w as real
    ensures BottomEdge(o) <= h <==> forall c :: c in CornersOf(o.mode.value, o.rotation) ==>
      o.y as real + ImageOrSame(o.transform.matrix, c).y <= h as real
  {
    var m, corners := o.transform.matrix, CornersOf(o.mode.value, o.rotation);
    var b := BoxAround(m, corners);
    BoxAroundIsLeast(m, corners, b);
    BoxAroundIsLeast(m, corners, b.(x2 := w - o.x));
    BoxAroundIsLeast(m, corners, b.(y2 := h - o.y));
  }

  /** How far right and down a panning area in force reaches, or the given bounds without one. */
  function PanningEdge(crtcs: seq<Crtc>, o: Output, width: int, height: int): (int, int)
    requires o.crtc.Some? ==> o.crtc.value < |crtcs|
  {
    if ChangePanning in o.changes then (o.panning.left + o.panning.width, o.panning.top + o.panning.height)
    else if o.crtc.Some? && crtcs[o.crtc.value].panning.Some? then
      var pan := crtcs[o.crtc.value].panning.value;
      (pan.left + pan.width, pan.top + pan.height)
    else (width, height)
  }

  /** An enabled output without a transform, with a mode in range and a proper rotation. */
  predicate Plain(o: Output) {
    && o.mode.Some? && o.transform.matrix == [[65536, 0, 0], [0, 65536, 0], [0, 0, 65536]]
    && o.mode.value.width <= 32767 && o.mode.value.height <= 32767 && o.rotation.turn in [1, 2, 4, 8]
  }

  /** Where such an output ends: a quarter turn exchanges the sides of its mode. */
  lemma {:induction false} PlainEdges(o: Output)
    requires Plain(o)
    ensures RightEdge(o) == o.x + (if o.rotation.turn in [1, 4] then o.mode.value.width else o.mode.value.height)
    ensures BottomEdge(o) == o.y + (if o.rotation.turn in [1, 4] then o.mode.value.height else o.mode.value.width)
  {
    UntransformedBounds(o.mode.value, o.rotation, o.transform);
  }

  /** The largest of the given size and the edges of such an output's mode and panning area. */
  predicate SizeOfOne(crtcs: seq<Crtc>, o: Output, width: int, height: int, w: int, h: int)
    requires Plain(o) && (o.crtc.Some? ==> o.crtc.value < |crtcs|)
  {
    var mode, upright, pan := o.mode.value, o.rotation.turn in [1, 4], PanningEdge(crtcs, o, width, height);
    && w == Max(Max(width, o.x + (if upright then mode.width else mode.height)), pan.0)
    && h == Max(Max(height, o.y + (if upright then mode.height else mode.width)), pan.1)
  }

  /** That is what is computed when there is only one. */
  lemma {:induction false} OneOutputSize(crtcs: seq<Crtc>, o: Output, width: int, height: int, w: int, h: int)
    requires ValidCrtcs(crtcs, [o]) && Plain(o)
    ensures o.crtc.Some? ==> o.crtc.value < |crtcs|
    ensures LeastWidth(crtcs, [o], width, w) && LeastHeight(crtcs, [o], height, h) <==>
            SizeOfOne(crtcs, o, width, height, w, h)
  {
    assert [o][0] == o;
    PlainEdges(o);
    var pan := PanningEdge(crtcs, o, width, height);
    forall v: int | v >= width ensures HoldsWidth(crtcs, [o], v) <==> RightEdge(o) <= v && pan.0 <= v {
    }
    forall v: int | v >= height ensures HoldsHeight(crtcs, [o], v) <==> BottomEdge(o) <= v && pan.1 <= v {
    }
    var least, least' := Max(Max(width, RightEdge(o)), pan.0), Max(Max(height, BottomEdge(o)), pan.1);
    assert HoldsWidth(crtcs, [o], least) && HoldsHeight(crtcs, [o], least');
  }
}
