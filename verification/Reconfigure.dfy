/** The whole run: positions, screen size, CRTCs, plans, and carrying them out. */
module Reconfigure {
  import opened Options
  import opened Display
  import opened Geometry
  import opened Relations
  import opened Positions
  import opened ScreenSize
  import opened CrtcPicker
  import opened Planning
  import opened Server
  import opened Rollback
  import opened Apply
  import opened Agreement
  import opened Sharing
  import opened Driving

  datatype Stage = Positioning | Sizing | Picking | Marking

  /** A run stops before it has asked the server for anything, or it ends with an outcome. */
  datatype Result = Stopped(stage: Stage) | Ended(outcome: Outcome)

  /** The records as they are right after reading the server's state and the user's wishes. */
  predicate Fresh(server: XServer, crtcs: seq<Crtc>, outs: seq<Output>)
    reads server
  {
    && Describes(crtcs, server.screen) && Consistent(server, server.screen)
    && server.limits.minWidth <= server.limits.maxWidth && server.limits.minHeight <= server.limits.maxHeight
    && (forall c :: 0 <= c < |crtcs| ==> Blank(crtcs[c]))
    && ValidCrtcs(crtcs, outs)
    && Agreeing(outs, server.modes, crtcs) && Capable(server, crtcs, outs)
    && ModesKnown(outs, server.modes)
  }

  /** What the planning steps keep: an output that ends without changes is untouched, and none changes its mode. */
  predicate Carried(outs: seq<Output>, outs': seq<Output>) {
    && |outs'| == |outs|
    && forall k :: 0 <= k < |outs| ==> CarriedOne(outs[k], outs'[k])
  }

  predicate CarriedOne(o: Output, o': Output) {
    && o' == o.(x := o'.x, y := o'.y, crtc := o'.crtc, currentCrtc := o'.currentCrtc, changes := o'.changes)
    && (o'.changes == {} ==> o.changes == {} && o'.x == o.x && o'.y == o.y && o'.crtc == o.crtc)
  }

  lemma {:induction false} CarriedByPositions(outs: seq<Output>, outs': seq<Output>)
    requires OnlyRepositioned(outs, outs')
    ensures Carried(outs, outs') && forall k :: 0 <= k < |outs| ==> outs'[k].crtc == outs[k].crtc
  {
    forall k | 0 <= k < |outs| ensures CarriedOne(outs[k], outs'[k]) && outs'[k].crtc == outs[k].crtc {
      assert outs'[k] == outs[k] || outs'[k].changes == outs[k].changes + {ChangePosition};
      assert ChangePosition in outs[k].changes + {ChangePosition};
    }
  }

  lemma {:induction false} CarriedByPicking(outs: seq<Output>, outs': seq<Output>)
    requires KeepsUnchanged(outs, outs')
    ensures Carried(outs, outs')
    ensures forall k :: 0 <= k < |outs| ==> outs'[k].x == outs[k].x && outs'[k].y == outs[k].y
  {
    forall k | 0 <= k < |outs|
      ensures CarriedOne(outs[k], outs'[k]) && outs'[k].x == outs[k].x && outs'[k].y == outs[k].y
    {
    }
  }

  lemma {:induction false} CarriedAgrees(outs: seq<Output>, outs': seq<Output>, modes: seq<Mode>, crtcs: seq<Crtc>)
    requires Carried(outs, outs') && Agreeing(outs, modes, crtcs)
    ensures Agreeing(outs', modes, crtcs)
  {
    forall k | 0 <= k < |outs|
      ensures outs'[k].xid == outs[k].xid && (outs'[k].changes == {} ==> AsReported(outs'[k], modes, crtcs))
    {
      assert CarriedOne(outs[k], outs'[k]);
      if outs'[k].changes == {} {
        assert AsReported(outs[k], modes, crtcs);
      }
    }
  }

  lemma {:induction false} CarriedTwice(a: seq<Output>, b: seq<Output>, c: seq<Output>)
    requires Carried(a, b) && Carried(b, c)
    ensures Carried(a, c)
  {
    forall k | 0 <= k < |a| ensures CarriedOne(a[k], c[k]) {
      assert CarriedOne(a[k], b[k]) && CarriedOne(b[k], c[k]);
    }
  }

  /** Records of CRTCs that differ only in what is planned agree with the same outputs. */
  predicate SameReports(crtcs: seq<Crtc>, crtcs': seq<Crtc>) {
    && |crtcs'| == |crtcs|
    && forall c :: 0 <= c < |crtcs| ==>
         crtcs'[c].info == crtcs[c].info && crtcs'[c].currentTransform == crtcs[c].currentTransform
  }

  lemma {:induction false} SameReportsAgree(outs: seq<Output>, modes: seq<Mode>, crtcs: seq<Crtc>, crtcs': seq<Crtc>)
    requires SameReports(crtcs, crtcs') && Agreeing(outs, modes, crtcs)
    ensures Agreeing(outs, modes, crtcs')
  {
    forall k | 0 <= k < |outs| && outs[k].changes == {} ensures AsReported(outs[k], modes, crtcs') {
      assert AsReported(outs[k], modes, crtcs);
    }
  }

  lemma {:induction false} SameReportsDescribe(crtcs: seq<Crtc>, crtcs': seq<Crtc>, screen: Screen)
    requires SameReports(crtcs, crtcs') && Describes(crtcs, screen)
    ensures Describes(crtcs', screen)
  {
    forall c | 0 <= c < |crtcs'| ensures screen.crtcs[c] == Reported(crtcs'[c]) {
      assert screen.crtcs[c] == Reported(crtcs[c]);
    }
  }

  /** The CRTC with the panning area of the last of the first n outputs that has a new one for it. */
  function Panned(crtc: Crtc, outs: seq<Output>, c: nat, n: nat): Crtc
    requires n <= |outs|
  {
    if n == 0 then crtc
    else if outs[n - 1].crtc == Some(c) && ChangePanning in outs[n - 1].changes then
      crtc.(panning := Some(outs[n - 1].panning), changing := true)
    else Panned(crtc, outs, c, n - 1)
  }

  /** Only the panning area and the mark change. */
  lemma {:induction false} PannedKeeps(crtc: Crtc, outs: seq<Output>, c: nat, n: nat)
    requires n <= |outs|
    ensures var p := Panned(crtc, outs, c, n);
            && p == crtc.(panning := p.panning, changing := p.changing)
            && (p.changing <==>
                  || crtc.changing
                  || exists k :: 0 <= k < n && outs[k].crtc == Some(c) && ChangePanning in outs[k].changes)
  {
    if n > 0 {
      PannedKeeps(crtc, outs, c, n - 1);
    }
  }

  /** Output k brings a new panning area for CRTC c. */
  predicate Pans(outs: seq<Output>, c: nat, k: nat) {
    k < |outs| && outs[k].crtc == Some(c) && ChangePanning in outs[k].changes
  }

  /** It is the last one that counts. */
  lemma {:induction false} LastPanningCounts(crtc: Crtc, outs: seq<Output>, c: nat, n: nat)
    requires n <= |outs|
    ensures var p := Panned(crtc, outs, c, n);
            && (forall k :: 0 <= k < n && Pans(outs, c, k) && (forall j :: k < j < n ==> !Pans(outs, c, j)) ==>
                  p.panning == Some(outs[k].panning))
            && ((forall k :: 0 <= k < n ==> !Pans(outs, c, k)) ==> p.panning == crtc.panning)
            && (p.changing <==> crtc.changing || exists k :: 0 <= k < n && Pans(outs, c, k))
  {
    if n > 0 {
      LastPanningCounts(crtc, outs, c, n - 1);
      if Pans(outs, c, n - 1) {
        assert Panned(crtc, outs, c, n) == crtc.(panning := Some(outs[n - 1].panning), changing := true);
      }
    }
  }

  /** The plan has the panning area its outputs bring, or the old one, and is marked for a reason. */
  ghost predicate MadeFor(start: Crtc, crtc: Crtc, outs: seq<Output>, c: nat) {
    && crtc.panning == Panned(start, outs, c, |outs|).panning
    && (crtc.changing <==> (exists k: nat :: ChangesUser(start, outs, c, k)) || (exists k: nat :: Pans(outs, c, k)))
  }

  ghost predicate AllMadeFor(start: seq<Crtc>, crtcs: seq<Crtc>, outs: seq<Output>) {
    |crtcs| == |start| && forall c :: 0 <= c < |crtcs| ==> MadeFor(start[c], crtcs[c], outs, c)
  }

  /** The new panning areas; their CRTCs count as changing. */
  method SetPanning(outputs: array<Output>, crtcs: array<Crtc>)
    requires ValidCrtcs(crtcs[..], outputs[..])
    modifies crtcs
    ensures outputs[..] == old(outputs[..])
    ensures forall c :: 0 <= c < crtcs.Length ==> crtcs[c] == Panned(old(crtcs[c]), outputs[..], c, outputs.Length)
  {
    ghost var outs := outputs[..];
    for k := 0 to outputs.Length
      invariant outputs[..] == outs
      invariant forall c :: 0 <= c < crtcs.Length ==> crtcs[c] == Panned(old(crtcs[c]), outs, c, k)
    {
      assert outputs[k] == outs[k];
      if outputs[k].crtc.None? || ChangePanning !in outputs[k].changes {
        continue;
      }
      var c := outputs[k].crtc.value;
      PannedKeeps(old(crtcs[c]), outs, c, k);
      crtcs[c] := crtcs[c].(panning := Some(outputs[k].panning), changing := true);
    }
  }

  /** No plan yet. */
  predicate Blank(crtc: Crtc) {
    && crtc.outputs == [] && crtc.mode.None? && !crtc.changing
    && crtc.pendingTransform == crtc.currentTransform
  }

  /** Every output the server reported on a CRTC is in the list. */
  predicate AllUsersKnown(crtcs: seq<Crtc>, outs: seq<Output>) {
    forall c :: 0 <= c < |crtcs| ==> UsersKnown(crtcs[c], outs)
  }

  /** Assigning outputs, marking and panning: the plans for all CRTCs. */
  method MakePlans(outputs: array<Output>, crtcs: array<Crtc>) returns (known: bool)
    requires ValidCrtcs(crtcs[..], outputs[..])
    requires forall c :: 0 <= c < crtcs.Length ==> Blank(crtcs[c])
    requires forall k :: 0 <= k < outputs.Length && outputs[k].mode.Some? ==> outputs[k].crtc.Some?
    modifies crtcs
    ensures outputs[..] == old(outputs[..])
    ensures known <==> AllUsersKnown(old(crtcs[..]), outputs[..])
    ensures known ==> SameReports(old(crtcs[..]), crtcs[..]) && PlannedFrom(crtcs[..], outputs[..])
    ensures known ==> AllMadeFor(old(crtcs[..]), crtcs[..], outputs[..])
  {
    ghost var outs, start := outputs[..], crtcs[..];
    SetCrtcs(outputs, crtcs);
    ghost var planned := crtcs[..];
    UsersInRange(start, planned, outs);
    SameUsersKnown(start, planned, outs, outs);
    known := MarkChangingCrtcs(outputs, crtcs);
    ghost var marked := crtcs[..];
    if known {
      SetPanning(outputs, crtcs);
      ghost var end := crtcs[..];
      forall c | 0 <= c < |end|
        ensures PlannedOne(end[c], outs, c)
        ensures end[c].info == start[c].info && end[c].currentTransform == start[c].currentTransform
        ensures MadeFor(start[c], end[c], outs, c)
      {
        PannedKeeps(marked[c], outs, c, |outs|);
        PlanMade(start[c], planned[c], marked[c], end[c], outs, c);
        PlanMarked(start[c], planned[c], marked[c], end[c], outs, c);
      }
    }
  }

  /** Whether users are known depends only on the reports and on the outputs' ids. */
  lemma {:induction false} SameUsersKnown(crtcs: seq<Crtc>, crtcs': seq<Crtc>, outs: seq<Output>, outs': seq<Output>)
    requires |crtcs'| == |crtcs| && forall c :: 0 <= c < |crtcs| ==> crtcs'[c].info == crtcs[c].info
    requires |outs'| == |outs| && forall k :: 0 <= k < |outs| ==> outs'[k].xid == outs[k].xid
    ensures AllUsersKnown(crtcs', outs') == AllUsersKnown(crtcs, outs)
  {
    forall xid: nat ensures FindOutput(outs', xid) == FindOutput(outs, xid) {
    }
    forall c | 0 <= c < |crtcs| ensures UsersKnown(crtcs'[c], outs') == UsersKnown(crtcs[c], outs) {
    }
  }

  lemma {:induction false} UsersInRange(start: seq<Crtc>, planned: seq<Crtc>, outs: seq<Output>)
    requires PlansOf(start, planned, outs, |outs|) && forall c :: 0 <= c < |start| ==> Blank(start[c])
    ensures forall c, k: nat :: 0 <= c < |planned| && k in planned[c].outputs ==> k < |outs|
    ensures forall c :: 0 <= c < |planned| ==> planned[c].info == start[c].info
  {
    forall c | 0 <= c < |planned|
      ensures planned[c].outputs == UsersOf(outs, c, |outs|) && planned[c].info == start[c].info
    {
      assert Blank(start[c]);
    }
  }

  lemma {:induction false} PlanMade(start: Crtc, planned: Crtc, marked: Crtc, end: Crtc, outs: seq<Output>, c: nat)
    requires Blank(start) && planned == PlanFor(start, outs, UsersOf(outs, c, |outs|)) && UsersKnown(planned, outs)
    requires marked == planned.(changing := planned.changing || UsersChange(planned, outs))
    requires end == marked.(panning := end.panning, changing := end.changing) && (marked.changing ==> end.changing)
    ensures PlannedOne(end, outs, c)
    ensures end.info == start.info && end.currentTransform == start.currentTransform
  {
    assert OldUserChanges(end, outs, |end.info.outputs|) == OldUserChanges(planned, outs, |planned.info.outputs|);
    assert NewUserChanges(end, outs, |end.outputs|) == NewUserChanges(planned, outs, |planned.outputs|);
  }

  lemma {:induction false} PlanMarked(start: Crtc, planned: Crtc, marked: Crtc, end: Crtc, outs: seq<Output>, c: nat)
    requires Blank(start) && planned == PlanFor(start, outs, UsersOf(outs, c, |outs|))
    requires marked == planned.(changing := planned.changing || UsersChange(planned, outs))
    requires end == Panned(marked, outs, c, |outs|)
    ensures MadeFor(start, end, outs, c)
  {
    UsersChangeWhen(planned, outs, c);
    assert planned.info == start.info;
    forall k: nat ensures ChangesUser(planned, outs, c, k) == ChangesUser(start, outs, c, k) {
    }
    LastPanningCounts(marked, outs, c, |outs|);
    SamePanning(marked, start, outs, c, |outs|);
    assert forall k :: 0 <= k < |outs| && Pans(outs, c, k) ==> Pans(outs, c, k as nat);
  }

  lemma {:induction false} SamePanning(crtc: Crtc, crtc': Crtc, outs: seq<Output>, c: nat, n: nat)
    requires n <= |outs| && crtc.panning == crtc'.panning
    ensures Panned(crtc, outs, c, n).panning == Panned(crtc', outs, c, n).panning
  {
    if n > 0 {
      SamePanning(crtc, crtc', outs, c, n - 1);
    }
  }

  /** Each output is shown by the CRTC it was given, and by no other; an output that is off by none. */
  ghost predicate ShownWhereGiven(outs: seq<Output>, screen: Screen) {
    forall k, c :: 0 <= k < |outs| && 0 <= c < |screen.crtcs| ==>
      (outs[k].xid in screen.crtcs[c].outputs <==> outs[k].mode.Some? && outs[k].crtc == Some(c))
  }

  lemma {:induction false} PlansShowOutputs(crtcs: seq<Crtc>, outs: seq<Output>, screen: Screen, randr13: bool)
    requires PlannedFrom(crtcs, outs) && ValidPlans(crtcs, outs) && DistinctXids(outs) && |crtcs| == |screen.crtcs|
    requires forall c :: 0 <= c < |crtcs| ==> ShowsPlan(crtcs[c], screen.crtcs[c], outs, randr13)
    ensures ShownWhereGiven(outs, screen)
  {
    forall k, c | 0 <= k < |outs| && 0 <= c < |screen.crtcs|
      ensures outs[k].xid in screen.crtcs[c].outputs <==> outs[k].mode.Some? && outs[k].crtc == Some(c)
    {
      PlannedXids(crtcs, outs, c, outs[k].xid);
      assert PlannedOne(crtcs[c], outs, c) && ShowsPlan(crtcs[c], screen.crtcs[c], outs, randr13);
    }
  }

  /** On a screen that shows every output every plan fits: it has the area of one of the outputs. */
  lemma {:induction false} ComputedSizeFits(server: XServer, crtcs: seq<Crtc>, outs: seq<Output>, width: int,
                                            height: int)
    requires server.randr13 && PlannedFrom(crtcs, outs) && ShowsWidth(outs, width) && ShowsHeight(outs, height)
    requires ModesKnown(outs, server.modes)
    ensures forall c :: 0 <= c < |crtcs| ==> PlanFits(server.modes, crtcs[c], server.randr13, width, height)
  {
    forall c | 0 <= c < |crtcs| ensures PlanFits(server.modes, crtcs[c], server.randr13, width, height) {
      assert PlannedOne(crtcs[c], outs, c);
      if crtcs[c].mode.Some? {
        var o := outs[FirstUser(outs, c)];
        assert RightEdge(o) <= width && BottomEdge(o) <= height;
      }
    }
  }

  /** What picking CRTCs leaves of the fit. */
  lemma {:induction false} StillShows(outs: seq<Output>, outs': seq<Output>, width: int, height: int)
    requires KeepsUnchanged(outs, outs')
    ensures ShowsWidth(outs', width) == ShowsWidth(outs, width)
      && ShowsHeight(outs', height) == ShowsHeight(outs, height)
  {
    forall k | 0 <= k < |outs| && outs[k].mode.Some?
      ensures outs'[k].mode == outs[k].mode && RightEdge(outs'[k]) == RightEdge(outs[k])
        && BottomEdge(outs'[k]) == BottomEdge(outs[k])
    {
    }
    assert forall k :: 0 <= k < |outs| ==> outs'[k].mode == outs[k].mode;
  }

  /** The relations leave the loop of SetPositions: no grounded output stands next to a stuck one. */
  ghost predicate PositionsEnd(outs: seq<Output>) {
    var refs := References(outs);
    Resolved(refs, outs) ==> !(AnyGrounded(refs, outs) && AnyStuck(refs, outs))
  }

  /** Some relation names no output, or runs in a circle. */
  ghost predicate PositionsFail(outs: seq<Output>) {
    var refs := References(outs);
    !Resolved(refs, outs) || AnyStuck(refs, outs)
  }

  /** Some screen size the server supports will do. */
  predicate Sizable(limits: Limits, crtcs: seq<Crtc>, outs: seq<Output>, width: int, height: int)
    requires ValidCrtcs(crtcs, outs)
  {
    if Specified(width, height) then InRange(limits, width, height)
    else
      && width <= limits.maxWidth && HoldsWidth(crtcs, outs, limits.maxWidth)
      && height <= limits.maxHeight && HoldsHeight(crtcs, outs, limits.maxHeight)
  }

  /** Exactly where planning stops; the cases exclude one another. */
  ghost predicate Stops(limits: Limits, modes: seq<Mode>, crtcs: seq<Crtc>, outs: seq<Output>, width: int, height: int,
                        stopped: Option<Stage>)
  {
    if PositionsFail(outs) then stopped == Some(Positioning)
    else
      && (exists n: nat :: Settles(outs, n)) && ValidCrtcs(crtcs, Placement(outs))
      && var placed := Placement(outs);
         stopped ==
           if !Sizable(limits, crtcs, placed, width, height) then Some(Sizing)
           else if Picks(modes, crtcs, placed).None? then Some(Picking)
           else if !AllUsersKnown(crtcs, outs) then Some(Marking)
           else None
  }

  /** The outputs as they are planned, when planning does not stop. */
  ghost predicate PlannedOutputs(modes: seq<Mode>, crtcs: seq<Crtc>, outs: seq<Output>, outs': seq<Output>) {
    && (exists n: nat :: Settles(outs, n)) && ValidCrtcs(crtcs, Placement(outs))
    && Picks(modes, crtcs, Placement(outs)) == Some(outs')
  }

  /** What positioning makes of the outputs. */
  ghost predicate PlacedAs(server: XServer, crtcs: seq<Crtc>, outs: seq<Output>, placed: seq<Output>) {
    && (exists n: nat :: Settles(outs, n)) && placed == Placement(outs)
    && Carried(outs, placed) && (forall k :: 0 <= k < |outs| ==> placed[k].crtc == outs[k].crtc)
    && (NoPresets(outs) ==> AllHold(placed, References(outs)))
    && ValidCrtcs(crtcs, placed) && Agreeing(placed, server.modes, crtcs)
  }

  lemma {:induction false} Placed(server: XServer, crtcs: seq<Crtc>, outs: seq<Output>, placed: seq<Output>)
    requires Fresh(server, crtcs, outs) && (exists n: nat :: Settles(outs, n)) && placed == Placement(outs)
    requires OnlyRepositioned(outs, placed) && (NoPresets(outs) ==> AllHold(placed, References(outs)))
    ensures PlacedAs(server, crtcs, outs, placed)
  {
    CarriedByPositions(outs, placed);
    CarriedAgrees(outs, placed, server.modes, crtcs);
  }

  /** The positions; false when they cannot be resolved. */
  method Place(server: XServer, outputs: array<Output>, crtcs: seq<Crtc>) returns (ok: bool)
    requires Fresh(server, crtcs, outputs[..]) && PositionsEnd(outputs[..])
    modifies outputs
    ensures ok <==> !PositionsFail(old(outputs[..]))
    ensures ok ==> PlacedAs(server, crtcs, old(outputs[..]), outputs[..])
  {
    ghost var outs := outputs[..];
    var positioned := SetPositions(outputs);
    ok := positioned == Positioned;
    if ok {
      Placed(server, crtcs, outs, outputs[..]);
    }
  }

  /** The screen size; false when none will do. */
  method SizeScreen(outputs: array<Output>, crtcs: seq<Crtc>, limits: Limits, width: int, height: int)
    returns (ok: bool, fbWidth: int, fbHeight: int)
    requires ValidCrtcs(crtcs, outputs[..])
    requires limits.minWidth <= limits.maxWidth && limits.minHeight <= limits.maxHeight
    ensures ok <==> Sizable(limits, crtcs, outputs[..], width, height)
    ensures ok ==>
      && InRange(limits, fbWidth, fbHeight)
      && (Specified(width, height) ==> fbWidth == width && fbHeight == height)
      && (!Specified(width, height) ==> ShowsWidth(outputs[..], fbWidth) && ShowsHeight(outputs[..], fbHeight))
  {
    var size := SetScreenSize(outputs, crtcs, limits, width, height);
    if !size.Size? {
      return false, width, height;
    }
    return true, size.width, size.height;
  }

  /** The outputs are placed and the size is one that will do. */
  ghost predicate Sized(server: XServer, crtcs: seq<Crtc>, outs: seq<Output>, placed: seq<Output>,
                        width: int, height: int, fbWidth: int, fbHeight: int)
  {
    && !PositionsFail(outs) && PlacedAs(server, crtcs, outs, placed)
    && Sizable(server.limits, crtcs, placed, width, height) && InRange(server.limits, fbWidth, fbHeight)
    && (Specified(width, height) ==> fbWidth == width && fbHeight == height)
    && (!Specified(width, height) ==> ShowsWidth(placed, fbWidth) && ShowsHeight(placed, fbHeight))
  }

  /** Positions and screen size. */
  method PlaceAndSize(server: XServer, outputs: array<Output>, crtcs: seq<Crtc>, width: int, height: int)
    returns (stopped: Option<Stage>, fbWidth: int, fbHeight: int)
    requires Fresh(server, crtcs, outputs[..]) && PositionsEnd(outputs[..])
    modifies outputs
    ensures stopped.Some? ==> Stops(server.limits, server.modes, crtcs, old(outputs[..]), width, height, stopped)
    ensures stopped.None? ==> Sized(server, crtcs, old(outputs[..]), outputs[..], width, height, fbWidth, fbHeight)
  {
    fbWidth, fbHeight := width, height;
    var ok := Place(server, outputs, crtcs);
    if !ok {
      return Some(Positioning), fbWidth, fbHeight;
    }
    ok, fbWidth, fbHeight := SizeScreen(outputs, crtcs, server.limits, width, height);
    stopped := if ok then None else Some(Sizing);
  }

  /** The plans are ready to be carried out on a screen of this size. */
  ghost predicate Ready(server: XServer, crtcs0: seq<Crtc>, outs0: seq<Output>, crtcs: seq<Crtc>, outs: seq<Output>,
                        width: int, height: int, fbWidth: int, fbHeight: int)
  {
    && PlannedOutputs(server.modes, crtcs0, outs0, outs)
    && Carried(outs0, outs) && AllDriven(server, outs)
    && (NoPresets(outs0) ==> AllHold(outs, References(outs0)))
    && SameReports(crtcs0, crtcs) && PlannedFrom(crtcs, outs) && AllMadeFor(crtcs0, crtcs, outs)
    && InRange(server.limits, fbWidth, fbHeight)
    && (Specified(width, height) ==> fbWidth == width && fbHeight == height)
    && (!Specified(width, height) ==> ShowsWidth(outs, fbWidth) && ShowsHeight(outs, fbHeight))
  }

  /** The planning half: nothing is asked of the server. */
  method Plan(server: XServer, outputs: array<Output>, crtcs: array<Crtc>, width: int, height: int)
    returns (stopped: Option<Stage>, fbWidth: int, fbHeight: int)
    requires Fresh(server, crtcs[..], outputs[..]) && PositionsEnd(outputs[..])
    modifies outputs, crtcs
    ensures Stops(server.limits, server.modes, old(crtcs[..]), old(outputs[..]), width, height, stopped)
    ensures stopped.None? ==>
      Ready(server, old(crtcs[..]), old(outputs[..]), crtcs[..], outputs[..], width, height, fbWidth, fbHeight)
  {
    ghost var outs := outputs[..];
    stopped, fbWidth, fbHeight := PlaceAndSize(server, outputs, crtcs[..], width, height);
    if stopped.None? {
      stopped := PlanPlaced(server, outputs, crtcs, outs, width, height, fbWidth, fbHeight);
    }
  }

  /** The rest of planning, when the outputs outs0 have been placed and the size is known. */
  method PlanPlaced(server: XServer, outputs: array<Output>, crtcs: array<Crtc>, ghost outs0: seq<Output>,
                    ghost width: int, ghost height: int, ghost fbWidth: int, ghost fbHeight: int)
    returns (stopped: Option<Stage>)
    requires Fresh(server, crtcs[..], outs0)
    requires Sized(server, crtcs[..], outs0, outputs[..], width, height, fbWidth, fbHeight)
    modifies outputs, crtcs
    ensures Stops(server.limits, server.modes, old(crtcs[..]), outs0, width, height, stopped)
    ensures stopped.None? ==>
      Ready(server, old(crtcs[..]), outs0, crtcs[..], outputs[..], width, height, fbWidth, fbHeight)
  {
    ghost var outs1, crtcs0 := outputs[..], crtcs[..];
    PlacedIsCapable(server, crtcs0, outs0, outs1);
    stopped := PickAndPlan(server, outputs, crtcs);
    StopsAfterPlacing(server, crtcs0, outs0, outs1, width, height, stopped);
    if stopped.None? {
      PickedIsReady(server, crtcs0, outs0, outs1, crtcs[..], outputs[..], width, height, fbWidth, fbHeight);
    }
  }

  lemma {:induction false} PlacedIsCapable(server: XServer, crtcs: seq<Crtc>, outs: seq<Output>, placed: seq<Output>)
    requires Fresh(server, crtcs, outs) && PlacedAs(server, crtcs, outs, placed)
    ensures Pickable(server, crtcs, placed) && AllUsersKnown(crtcs, placed) == AllUsersKnown(crtcs, outs)
  {
    CarriedCapable(server, crtcs, outs, placed);
    SameUsersKnown(crtcs, crtcs, outs, placed);
  }

  lemma {:induction false} PickedIsReady(server: XServer, crtcs0: seq<Crtc>, outs0: seq<Output>, outs1: seq<Output>,
                                         crtcs: seq<Crtc>, outs: seq<Output>, width: int, height: int,
                                         fbWidth: int, fbHeight: int)
    requires PlacedAs(server, crtcs0, outs0, outs1) && PickedAs(server, crtcs0, outs1, crtcs, outs)
    requires InRange(server.limits, fbWidth, fbHeight)
    requires Specified(width, height) ==> fbWidth == width && fbHeight == height
    requires !Specified(width, height) ==> ShowsWidth(outs1, fbWidth) && ShowsHeight(outs1, fbHeight)
    ensures Ready(server, crtcs0, outs0, crtcs, outs, width, height, fbWidth, fbHeight)
  {
    PickingKeeps(outs0, outs1, outs, fbWidth, fbHeight);
    PickingKeepsRelations(outs1, outs, References(outs0));
  }

  lemma {:induction false} StopsAfterPlacing(server: XServer, crtcs: seq<Crtc>, outs: seq<Output>, placed: seq<Output>,
                                             width: int, height: int, stopped: Option<Stage>)
    requires !PositionsFail(outs) && (exists n: nat :: Settles(outs, n)) && placed == Placement(outs)
    requires ValidCrtcs(crtcs, placed) && Sizable(server.limits, crtcs, placed, width, height)
    requires stopped ==
      if Picks(server.modes, crtcs, placed).None? then Some(Picking)
      else if !AllUsersKnown(crtcs, outs) then Some(Marking) else None
    ensures Stops(server.limits, server.modes, crtcs, outs, width, height, stopped)
  {
  }

  lemma {:induction false} CarriedCapable(server: XServer, crtcs: seq<Crtc>, outs: seq<Output>, outs': seq<Output>)
    requires Carried(outs, outs') && forall k :: 0 <= k < |outs| ==> outs'[k].crtc == outs[k].crtc
    requires Capable(server, crtcs, outs)
    ensures Capable(server, crtcs, outs') && forall k :: 0 <= k < |outs| ==> outs'[k].xid == outs[k].xid
  {
    forall k | 0 <= k < |outs|
      ensures outs'[k].xid == outs[k].xid && outs'[k].rotation == outs[k].rotation
      ensures outs'[k].crtcIds == outs[k].crtcIds && outs'[k].mode == outs[k].mode
    {
      assert CarriedOne(outs[k], outs'[k]);
    }
  }

  /** The records are ready for picking CRTCs and planning. */
  predicate Pickable(server: XServer, crtcs: seq<Crtc>, outs: seq<Output>) {
    && ValidCrtcs(crtcs, outs) && Agreeing(outs, server.modes, crtcs) && Capable(server, crtcs, outs)
    && forall c :: 0 <= c < |crtcs| ==> Blank(crtcs[c])
  }

  /** What picking CRTCs and planning make of the outputs and CRTCs. */
  ghost predicate PickedAs(server: XServer, crtcs: seq<Crtc>, outs: seq<Output>, crtcs': seq<Crtc>, outs': seq<Output>)
    requires ValidCrtcs(crtcs, outs)
  {
    && Picks(server.modes, crtcs, outs) == Some(outs')
    && KeepsUnchanged(outs, outs') && AllDriven(server, outs')
    && SameReports(crtcs, crtcs') && PlannedFrom(crtcs', outs') && AllMadeFor(crtcs, crtcs', outs')
  }

  /** CRTCs and plans. */
  method PickAndPlan(server: XServer, outputs: array<Output>, crtcs: array<Crtc>) returns (stopped: Option<Stage>)
    requires Pickable(server, crtcs[..], outputs[..])
    modifies outputs, crtcs
    ensures stopped ==
      if Picks(server.modes, old(crtcs[..]), old(outputs[..])).None? then Some(Picking)
      else if !AllUsersKnown(old(crtcs[..]), old(outputs[..])) then Some(Marking) else None
    ensures stopped.None? ==> PickedAs(server, old(crtcs[..]), old(outputs[..]), crtcs[..], outputs[..])
  {
    ghost var outs, crtcs0 := outputs[..], crtcs[..];
    UnchangedHaveCrtcs(outs, server.modes, crtcs0);
    var picked := PickCrtcs(server.modes, crtcs[..], outputs);
    if picked != Picked {
      return Some(Picking);
    }
    PicksAreDriven(server, crtcs0, outs);
    SameXidsPicked(outs, outputs[..]);
    SameUsersKnown(crtcs0, crtcs0, outs, outputs[..]);
    var known := MakePlans(outputs, crtcs);
    return if known then None else Some(Marking);
  }

  lemma {:induction false} SameXidsPicked(outs: seq<Output>, outs': seq<Output>)
    requires KeepsUnchanged(outs, outs')
    ensures forall k :: 0 <= k < |outs| ==> outs'[k].xid == outs[k].xid
  {
  }

  lemma {:induction false} PickingKeepsRelations(outs: seq<Output>, outs': seq<Output>, refs: seq<nat>)
    requires KeepsUnchanged(outs, outs') && |refs| == |outs|
    ensures AllHold(outs, refs) ==> AllHold(outs', refs)
  {
    CarriedByPicking(outs, outs');
    forall k | 0 <= k < |outs|
      ensures outs'[k].mode == outs[k].mode && outs'[k].rotation == outs[k].rotation
        && outs'[k].relation == outs[k].relation
      ensures Placing(outs'[k]) ==> Placing(outs[k])
    {
    }
    if AllHold(outs, refs) {
      forall i | 0 <= i < |outs| && Placing(outs'[i]) ensures RelationHolds(outs', refs, i) {
        assert RelationHolds(outs, refs, i);
      }
    }
  }

  lemma {:induction false} PickingKeeps(outs0: seq<Output>, outs1: seq<Output>, outs2: seq<Output>, width: int,
                                        height: int)
    requires Carried(outs0, outs1) && KeepsUnchanged(outs1, outs2)
    ensures Carried(outs0, outs2)
    ensures ShowsWidth(outs2, width) == ShowsWidth(outs1, width)
      && ShowsHeight(outs2, height) == ShowsHeight(outs1, height)
  {
    CarriedByPicking(outs1, outs2);
    CarriedTwice(outs0, outs1, outs2);
    StillShows(outs1, outs2, width, height);
  }

  lemma {:induction false} UnchangedHaveCrtcs(outs: seq<Output>, modes: seq<Mode>, crtcs: seq<Crtc>)
    requires Agreeing(outs, modes, crtcs)
    ensures forall k :: 0 <= k < |outs| && outs[k].mode.Some? && outs[k].changes == {} ==> outs[k].crtc.Some?
  {
    forall k | 0 <= k < |outs| && outs[k].mode.Some? && outs[k].changes == {} ensures outs[k].crtc.Some? {
      assert AsReported(outs[k], modes, crtcs);
    }
  }

  /**
    A run has succeeded: the relations hold, every CRTC shows what is planned for it,
    every output is shown where it was given, and as it wants exactly when it wants the
    same as the first output there, on a screen of the right size.
   */
  ghost predicate Succeeded(server: XServer, outs0: seq<Output>, outs: seq<Output>, crtcs: seq<Crtc>, width: int,
                            height: int)
    reads server
  {
    && Carried(outs0, outs)
    && (NoPresets(outs0) ==> AllHold(outs, References(outs0)))
    && PlannedFrom(crtcs, outs) && ValidPlans(crtcs, outs)
    && |server.screen.crtcs| == |crtcs|
    && AllReached(crtcs, server.screen, outs, server.randr13)
    && (forall c :: 0 <= c < |crtcs| ==> ShowsPlan(crtcs[c], server.screen.crtcs[c], outs, server.randr13))
    && ShownWhereGiven(outs, server.screen) && ShownAsFirst(outs, server.screen, server.randr13)
    && InRange(server.limits, server.screen.width, server.screen.height)
    && (if Specified(width, height) then server.screen.width == width && server.screen.height == height
        else ShowsWidth(outs, server.screen.width) && ShowsHeight(outs, server.screen.height))
  }

  /**
    What a CRTC is to pan over, and that it is configured for a reason: one of its users
    changes, it gets a new panning area, or it was turned off for the resize.
   */
  ghost predicate MarkedFor(modes: seq<Mode>, start: Crtc, crtc: Crtc, outs: seq<Output>, c: nat, width: int,
                            height: int) {
    && crtc.panning == Panned(start, outs, c, |outs|).panning
    && (crtc.changing <==>
          || (exists k: nat :: ChangesUser(start, outs, c, k)) || (exists k: nat :: Pans(outs, c, k))
          || (crtc.mode.Some? && !LeftOn(modes, crtc, width, height)))
  }

  ghost predicate AllMarkedFor(modes: seq<Mode>, start: seq<Crtc>, crtcs: seq<Crtc>, outs: seq<Output>, width: int,
                               height: int)
  {
    |crtcs| == |start| && forall c :: 0 <= c < |crtcs| ==> MarkedFor(modes, start[c], crtcs[c], outs, c, width, height)
  }

  lemma {:induction false} MarksExplained(modes: seq<Mode>, start: seq<Crtc>, plans: seq<Crtc>, crtcs: seq<Crtc>,
                                          outs: seq<Output>, width: int, height: int)
    requires AllMadeFor(start, plans, outs) && AllMarkedForResize(modes, plans, crtcs, width, height)
    ensures AllMarkedFor(modes, start, crtcs, outs, width, height)
  {
    forall c | 0 <= c < |crtcs| ensures MarkedFor(modes, start[c], crtcs[c], outs, c, width, height) {
      assert MadeFor(start[c], plans[c], outs, c);
      assert LeftOn(modes, crtcs[c], width, height) == LeftOn(modes, plans[c], width, height);
    }
  }

  /**
    How a run ends that has not stopped, from the given number of requests and screen on.
    It is rolled back, which happens right after the first refused request, and if the server
    then refuses nothing more, the screen is as it was; or the plan is carried out, with
    every output shown where planned, exactly when every CRTC to be configured can be.
    No request breaks a precondition when the size shows every output and the outputs
    that share a CRTC match.
   */
  ghost predicate EndsAs(server: XServer, requests: nat, screen: Screen, panned: map<nat, Panning>,
                         crtcs0: seq<Crtc>, outs0: seq<Output>, outs: seq<Output>,
                         crtcs: seq<Crtc>, width: int, height: int, outcome: Outcome)
    reads server
  {
    && PlannedFrom(crtcs, outs) && ValidPlans(crtcs, outs) && |crtcs| == |crtcs0|
    && (!outcome.RolledBack? ==>
          AllMarkedFor(server.modes, crtcs0, crtcs, outs, server.screen.width, server.screen.height))
    && EndsWith(server, requests, screen, panned, crtcs, outs, outcome)
    && (outcome == Applied ==> Succeeded(server, outs0, outs, crtcs, width, height))
    && (server.randr13 ==> outcome != Aborted)
    && (server.randr13 && Matching(server, outs)
        && (Specified(width, height) ==> ShowsWidth(outs, width) && ShowsHeight(outs, height))
        ==> outcome != Killed)
  }

  /**
    The whole run.  It stops without having asked the server for anything, exactly where
    Stops says; otherwise it ends as EndsAs says.
   */
  method Run(server: XServer, outputs: array<Output>, crtcs: array<Crtc>, width: int, height: int, widthMm: int,
             heightMm: int)
    returns (r: Result)
    requires Fresh(server, crtcs[..], outputs[..]) && PositionsEnd(outputs[..])
    modifies server, outputs, crtcs
    ensures r.Stopped? ==>
      && Stops(server.limits, server.modes, old(crtcs[..]), old(outputs[..]), width, height, Some(r.stage))
      && server.screen == old(server.screen) && server.requests == old(server.requests)
    ensures r.Ended? ==>
      && Stops(server.limits, server.modes, old(crtcs[..]), old(outputs[..]), width, height, None)
      && PlannedOutputs(server.modes, old(crtcs[..]), old(outputs[..]), outputs[..])
      && EndsAs(server, old(server.requests), old(server.screen), old(server.panned), old(crtcs[..]), old(outputs[..]),
                outputs[..], crtcs[..], width, height, r.outcome)
  {
    ghost var outs0, crtcs0 := outputs[..], crtcs[..];
    var stopped, fbWidth, fbHeight := Plan(server, outputs, crtcs, width, height);
    if stopped.Some? {
      return Stopped(stopped.value);
    }
    var outs := outputs[..];
    var outcome := CarryOut(server, outs, crtcs, outs0, crtcs0, width, height, fbWidth, fbHeight, widthMm, heightMm);
    assert outputs[..] == outs;
    return Ended(outcome);
  }

  /** The second half of the run, with the plans ready. */
  method CarryOut(server: XServer, outs: seq<Output>, crtcs: array<Crtc>, ghost outs0: seq<Output>,
                  ghost crtcs0: seq<Crtc>, ghost width: int, ghost height: int, fbWidth: int, fbHeight: int,
                  widthMm: int, heightMm: int)
    returns (outcome: Outcome)
    requires Fresh(server, crtcs0, outs0)
      && Ready(server, crtcs0, outs0, crtcs[..], outs, width, height, fbWidth, fbHeight)
    modifies server, crtcs
    ensures PlannedOutputs(server.modes, crtcs0, outs0, outs)
    ensures EndsAs(server, old(server.requests), old(server.screen), old(server.panned), crtcs0, outs0, outs,
                   crtcs[..], width, height, outcome)
  {
    ghost var plans, requests, screen, panned := crtcs[..], server.requests, server.screen, server.panned;
    ReadyToApply(server, outs0, outs, crtcs0, plans, width, height, fbWidth, fbHeight);
    outcome := Apply.Apply(server, crtcs, outs, fbWidth, fbHeight, widthMm, heightMm);
    RunEnded(server, requests, screen, panned, outs0, outs, crtcs0, plans, crtcs[..], width, height, fbWidth, fbHeight,
             outcome);
  }

  /** From how the plans were carried out to how the run ends. */
  lemma {:induction false} RunEnded(server: XServer, requests: nat, screen: Screen, panned: map<nat, Panning>,
                                    outs0: seq<Output>, outs: seq<Output>, crtcs0: seq<Crtc>, plans: seq<Crtc>,
                                    crtcs: seq<Crtc>, width: int, height: int, fbWidth: int, fbHeight: int,
                                    outcome: Outcome)
    requires Ready(server, crtcs0, outs0, plans, outs, width, height, fbWidth, fbHeight)
    requires Agreeing(outs0, server.modes, crtcs0) && ModesKnown(outs0, server.modes)
    requires MarksAdded(plans, crtcs) && ValidPlans(crtcs, outs)
    requires EndsWith(server, requests, screen, panned, crtcs, outs, outcome)
    requires outcome == Applied && Separate(crtcs, outs) ==> AllReached(crtcs, server.screen, outs, server.randr13)
    requires !outcome.RolledBack? ==>
      && server.screen.width == fbWidth && server.screen.height == fbHeight
      && AllMarkedForResize(server.modes, plans, crtcs, fbWidth, fbHeight)
    requires outcome == Aborted ==> !server.randr13
    requires server.randr13 && ShowsWidth(outs, fbWidth) && ShowsHeight(outs, fbHeight) && Matching(server, outs) ==>
      outcome != Killed
    ensures EndsAs(server, requests, screen, panned, crtcs0, outs0, outs, crtcs, width, height, outcome)
  {
    MarksKeepPlans(plans, crtcs, outs);
    if !outcome.RolledBack? {
      MarksExplained(server.modes, crtcs0, plans, crtcs, outs, fbWidth, fbHeight);
    }
    if outcome == Applied {
      RunSucceeded(server, outs0, outs, crtcs0, plans, crtcs, width, height, fbWidth, fbHeight);
    }
  }

  lemma {:induction false} RunSucceeded(server: XServer, outs0: seq<Output>, outs: seq<Output>, crtcs0: seq<Crtc>,
                                        plans: seq<Crtc>, crtcs: seq<Crtc>, width: int, height: int, fbWidth: int,
                                        fbHeight: int)
    requires Ready(server, crtcs0, outs0, plans, outs, width, height, fbWidth, fbHeight)
    requires Agreeing(outs0, server.modes, crtcs0) && ModesKnown(outs0, server.modes)
    requires MarksAdded(plans, crtcs) && ValidPlans(crtcs, outs)
    requires Separate(crtcs, outs) ==> AllReached(crtcs, server.screen, outs, server.randr13)
    requires server.screen.width == fbWidth && server.screen.height == fbHeight
    ensures Succeeded(server, outs0, outs, crtcs, width, height)
  {
    SameModes(server, outs0, outs);
    PlansShown(server, outs0, outs, crtcs0, plans, crtcs);
  }

  lemma {:induction false} MarksKeepPlans(plans: seq<Crtc>, crtcs: seq<Crtc>, outs: seq<Output>)
    requires PlannedFrom(plans, outs) && MarksAdded(plans, crtcs)
    ensures PlannedFrom(crtcs, outs)
  {
    forall c | 0 <= c < |crtcs| ensures PlannedOne(crtcs[c], outs, c) {
      assert PlannedOne(plans[c], outs, c) && MarkAdded(plans[c], crtcs[c]);
      MarkKeepsPlan(plans[c], crtcs[c], outs, c);
    }
  }

  lemma {:induction false} ReadyToApply(server: XServer, outs0: seq<Output>, outs: seq<Output>, crtcs0: seq<Crtc>,
                                        plans: seq<Crtc>, asked: int, asked': int, width: int, height: int)
    requires Fresh(server, crtcs0, outs0) && Ready(server, crtcs0, outs0, plans, outs, asked, asked', width, height)
    ensures ValidPlans(plans, outs) && Describes(plans, server.screen) && Consistent(server, server.screen)
    ensures InRange(server.limits, width, height) && Agreeing(outs0, server.modes, crtcs0)
      && ModesKnown(outs0, server.modes)
    ensures server.randr13 && ShowsWidth(outs, width) && ShowsHeight(outs, height) && Matching(server, outs) ==>
      AllPlansMeet(server, plans, outs, width, height)
  {
    PlannedFromIsValid(plans, outs);
    SameReportsDescribe(crtcs0, plans, server.screen);
    SameModes(server, outs0, outs);
    if server.randr13 && ShowsWidth(outs, width) && ShowsHeight(outs, height) && Matching(server, outs) {
      ComputedSizeFits(server, plans, outs, width, height);
      forall c | 0 <= c < |plans| && plans[c].mode.Some? ensures PlanMeets(server, plans[c], c, outs, width, height) {
        MatchingPlansDrive(server, plans, outs, c);
      }
    }
  }

  lemma {:induction false} SameModes(server: XServer, outs0: seq<Output>, outs: seq<Output>)
    requires Carried(outs0, outs)
    requires ModesKnown(outs0, server.modes)
    ensures ModesKnown(outs, server.modes)
  {
    forall k | 0 <= k < |outs| && outs[k].mode.Some?
      ensures FindMode(server.modes, Some(outs[k].mode.value.id)) == outs[k].mode
    {
      assert CarriedOne(outs0[k], outs[k]);
    }
  }

  lemma {:induction false} PlansShown(server: XServer, outs0: seq<Output>, outs: seq<Output>, crtcs0: seq<Crtc>,
                                      plans: seq<Crtc>, crtcs: seq<Crtc>)
    requires Carried(outs0, outs) && Agreeing(outs0, server.modes, crtcs0) && ModesKnown(outs, server.modes)
    requires SameReports(crtcs0, plans) && PlannedFrom(plans, outs) && MarksAdded(plans, crtcs)
    requires ValidPlans(crtcs, outs)
    requires Separate(crtcs, outs) ==> AllReached(crtcs, server.screen, outs, server.randr13)
    ensures PlannedFrom(crtcs, outs) && |crtcs| == |server.screen.crtcs|
    ensures AllReached(crtcs, server.screen, outs, server.randr13)
    ensures forall c :: 0 <= c < |crtcs| ==> ShowsPlan(crtcs[c], server.screen.crtcs[c], outs, server.randr13)
    ensures ShownWhereGiven(outs, server.screen) && ShownAsFirst(outs, server.screen, server.randr13)
  {
    forall c | 0 <= c < |crtcs|
      ensures PlannedOne(crtcs[c], outs, c)
      ensures crtcs[c].info == crtcs0[c].info && crtcs[c].currentTransform == crtcs0[c].currentTransform
    {
      assert PlannedOne(plans[c], outs, c) && MarkAdded(plans[c], crtcs[c]);
      MarkKeepsPlan(plans[c], crtcs[c], outs, c);
    }
    CarriedAgrees(outs0, outs, server.modes, crtcs0);
    SameReportsAgree(outs, server.modes, crtcs0, crtcs);
    PlansAreSeparate(crtcs, outs, server.modes);
    ReachedShowsPlans(crtcs, outs, server.modes, server.screen, server.randr13);
    PlansShowOutputs(crtcs, outs, server.screen, server.randr13);
    PlansShowFirst(crtcs, outs, server.modes, server.screen, server.randr13);
  }

  lemma {:induction false} MarkKeepsPlan(plan: Crtc, crtc: Crtc, outs: seq<Output>, c: nat)
    requires PlannedOne(plan, outs, c) && MarkAdded(plan, crtc)
    ensures PlannedOne(crtc, outs, c)
  {
    assert OldUserChanges(crtc, outs, |crtc.info.outputs|) == OldUserChanges(plan, outs, |plan.info.outputs|);
    assert NewUserChanges(crtc, outs, |crtc.outputs|) == NewUserChanges(plan, outs, |plan.outputs|);
  }
}
