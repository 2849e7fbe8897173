/**
  The positions of the outputs: passes over the relations until none is left to
  place, then a move of everything to the origin.
 */
module Positions {
  import opened Options
  import opened Display
  import opened Relations

  datatype Positioning = Positioned | UnknownReference | RelationLoop

  /** The smallest coordinate among the enabled outputs, but at most 32768. */
  function LeastX(outs: seq<Output>): (m: int)
    ensures m <= 32768
    ensures forall k :: 0 <= k < |outs| && Enabled(outs[k]) ==> m <= outs[k].x
    ensures m == 32768 || exists k :: 0 <= k < |outs| && Enabled(outs[k]) && m == outs[k].x
  {
    if outs == [] then 32768
    else
      var rest, o := LeastX(outs[..|outs| - 1]), outs[|outs| - 1];
      if Enabled(o) && o.x < rest then o.x else rest
  }

  function LeastY(outs: seq<Output>): (m: int)
    ensures m <= 32768
    ensures forall k :: 0 <= k < |outs| && Enabled(outs[k]) ==> m <= outs[k].y
    ensures m == 32768 || exists k :: 0 <= k < |outs| && Enabled(outs[k]) && m == outs[k].y
  {
    if outs == [] then 32768
    else
      var rest, o := LeastY(outs[..|outs| - 1]), outs[|outs| - 1];
      if Enabled(o) && o.y < rest then o.y else rest
  }

  function Moved(o: Output, dx: int, dy: int): Output {
    if Enabled(o) then Put(o, o.x - dx, o.y - dy) else o
  }

  /** All enabled outputs moved by the smallest coordinates, unless those are both zero. */
  function Normalized(outs: seq<Output>): (r: seq<Output>)
    ensures |r| == |outs|
  {
    var dx, dy := LeastX(outs), LeastY(outs);
    if dx == 0 && dy == 0 then outs
    else seq(|outs|, k requires 0 <= k < |outs| => Moved(outs[k], dx, dy))
  }

  /** No two enabled outputs move relative to one another. */
  lemma {:induction false} NormalizedKeepsOffsets(outs: seq<Output>, j: nat, k: nat)
    requires j < |outs| && k < |outs| && Enabled(outs[j]) && Enabled(outs[k])
    ensures var r := Normalized(outs);
            r[j].x - r[k].x == outs[j].x - outs[k].x && r[j].y - r[k].y == outs[j].y - outs[k].y
  {
  }

  /**
    No enabled output is left of or above the origin afterwards, and some output
    touches the left edge, and some the top edge, exactly when one of them lay at
    32768 or before.
   */
  lemma {:induction false} NormalizedTouchesOrigin(outs: seq<Output>)
    ensures var r := Normalized(outs);
            && (forall k :: 0 <= k < |r| && Enabled(r[k]) ==> r[k].x >= 0 && r[k].y >= 0)
            && ((exists k :: 0 <= k < |r| && Enabled(r[k]) && r[k].x == 0) <==>
                (exists k :: 0 <= k < |r| && Enabled(outs[k]) && outs[k].x <= 32768))
            && ((exists k :: 0 <= k < |r| && Enabled(r[k]) && r[k].y == 0) <==>
                (exists k :: 0 <= k < |r| && Enabled(outs[k]) && outs[k].y <= 32768))
  {
    var r := Normalized(outs);
    var dx, dy := LeastX(outs), LeastY(outs);
    forall k | 0 <= k < |r| && Enabled(outs[k])
      ensures Enabled(r[k]) && r[k].x == outs[k].x - dx && r[k].y == outs[k].y - dy
    {
    }
    if k :| 0 <= k < |r| && Enabled(outs[k]) && outs[k].x <= 32768 {
      var l :| 0 <= l < |r| && Enabled(outs[l]) && outs[l].x == dx;
      assert r[l].x == 0;
    }
    if k :| 0 <= k < |r| && Enabled(outs[k]) && outs[k].y <= 32768 {
      var l :| 0 <= l < |r| && Enabled(outs[l]) && outs[l].y == dy;
      assert r[l].y == 0;
    }
  }

  /** The relation of output i to an enabled reference holds. */
  predicate RelationHolds(outs: seq<Output>, refs: seq<nat>, i: nat)
    requires i < |outs| == |refs|
  {
    && refs[i] < |outs|
    && (Placing(outs[i]) && Enabled(outs[refs[i]]) ==>
          var r := outs[refs[i]];
          outs[i].x == BesideX(outs[i], r) && outs[i].y == BesideY(outs[i], r))
  }

  /** Moving everything together breaks no relation between enabled outputs. */
  lemma {:induction false} NormalizedKeepsRelations(outs: seq<Output>, refs: seq<nat>, i: nat)
    requires i < |outs| == |refs| && RelationHolds(outs, refs, i)
    ensures RelationHolds(Normalized(outs), refs, i)
  {
  }

  /** What positioning may do to an output: an output that ends without changes is as it was. */
  predicate OnlyRepositioned(outs: seq<Output>, outs': seq<Output>) {
    && |outs'| == |outs|
    && forall k :: 0 <= k < |outs| ==>
         && outs'[k] == outs[k].(x := outs'[k].x, y := outs'[k].y, changes := outs'[k].changes)
         && (outs'[k] == outs[k] || outs'[k].changes == outs[k].changes + {ChangePosition})
  }

  lemma {:induction false} NormalizedOnlyRepositions(outs: seq<Output>, outs': seq<Output>)
    requires OnlyPuts(outs, outs')
    ensures OnlyRepositioned(outs, Normalized(outs'))
  {
    var r := Normalized(outs');
    forall k | 0 <= k < |outs|
      ensures r[k] == outs[k].(x := r[k].x, y := r[k].y, changes := r[k].changes)
      ensures r[k] == outs[k] || r[k].changes == outs[k].changes + {ChangePosition}
    {
      assert r[k] == outs'[k] || r[k] == Moved(outs'[k], LeastX(outs'), LeastY(outs'));
    }
  }

  method PlaceBeside(output: Output, r: Output) returns (o: Output)
    requires Enabled(output) && Enabled(r)
    ensures o == Put(output, BesideX(output, r), BesideY(output, r))
  {
    o := output;
    match o.relation {
      case LeftOf =>
        o := o.(y := r.y, x := r.x - ModeWidth(o.mode.value, o.rotation));
      case RightOf =>
        o := o.(y := r.y, x := r.x + ModeWidth(r.mode.value, r.rotation));
      case Above =>
        o := o.(x := r.x, y := r.y - ModeHeight(o.mode.value, o.rotation));
      case Below =>
        o := o.(x := r.x, y := r.y + ModeHeight(r.mode.value, r.rotation));
      case SameAs =>
        o := o.(x := r.x, y := r.y);
    }
    o := o.(changes := o.changes + {ChangePosition});
  }

  /** What a pass does with one output; known tells whether the reference was found. */
  method VisitOutput(outputs: array<Output>, i: nat, ghost refs: seq<nat>, ghost start: seq<Output>)
    returns (known: bool, put: bool, wait: bool)
    requires i < outputs.Length && RefersTo(refs, start) && SameNaming(start, outputs[..])
    modifies outputs
    ensures SameNaming(start, outputs[..])
    ensures !Resolved(refs, old(outputs[..])) ==> OnlyPuts(old(outputs[..]), outputs[..])
    ensures known <==> (Placing(old(outputs[i])) ==> refs[i] < outputs.Length)
    ensures Resolved(refs, old(outputs[..])) ==>
      && outputs[..] == Visit(refs, old(outputs[..]), i)
      && put == (Placing(old(outputs[i])) && Ready(refs, old(outputs[..]), i))
      && wait == (Placing(old(outputs[i])) && !Ready(refs, old(outputs[..]), i))
  {
    ghost var outs := outputs[..];
    var o := outputs[i];
    if !(ChangeRelation in o.changes) || o.mode.None? {
      return true, false, false;
    }
    var t := FindByName(outputs, o.relativeTo);
    SameNames(start, outs, start[i].relativeTo);
    assert t == refs[i];
    if t == outputs.Length {
      return false, false, false;
    }
    var r := outputs[t];
    if r.mode.None? {
      outputs[i] := o.(x := 0, y := 0, changes := o.changes + {ChangePosition});
      assert outputs[..] == outs[i := Put(o, 0, 0)];
      return true, true, false;
    }
    if ChangeRelation in r.changes && !(ChangePosition in r.changes) {
      return true, false, true;
    }
    o := PlaceBeside(o, r);
    outputs[i] := o;
    assert outputs[..] == outs[i := o];
    return true, true, false;
  }

  lemma {:induction false} PassStep(refs: seq<nat>, start: seq<Output>, outs: seq<Output>, i: nat)
    requires |refs| == |start| && OnlyPuts(start, outs) && i < |outs|
    ensures Resolved(refs, outs) == Resolved(refs, start) && Placing(outs[i]) == Placing(start[i])
    ensures Resolved(refs, outs) ==> OnlyPuts(start, Visit(refs, outs, i)) && Resolved(refs, Visit(refs, outs, i))
    ensures forall next :: OnlyPuts(outs, next) ==> OnlyPuts(start, next)
  {
    OnlyPutsFacts(refs, start, outs);
    if Resolved(refs, outs) {
      VisitFacts(refs, outs, i);
    }
  }

  /** One walk over the list. */
  method RunPass(outputs: array<Output>, ghost refs: seq<nat>, ghost start: seq<Output>)
    returns (known: bool, anySet: bool, keepGoing: bool)
    requires RefersTo(refs, start) && SameNaming(start, outputs[..])
    modifies outputs
    ensures SameNaming(start, outputs[..])
    ensures known <==> Resolved(refs, old(outputs[..]))
    ensures known ==> Pass(outputs[..], anySet, keepGoing) == OnePass(refs, old(outputs[..]))
  {
    anySet := false;
    keepGoing := false;
    ghost var first, now := outputs[..], outputs[..];
    for i := 0 to outputs.Length
      invariant now == outputs[..] && OnlyPuts(first, now) && SameNaming(start, now)
      invariant forall k :: 0 <= k < i && Placing(first[k]) ==> refs[k] < |first|
      invariant Resolved(refs, first) ==>
        && Resolved(refs, now)
        && OnePass(refs, first) == PassFrom(refs, now, i, anySet, keepGoing)
    {
      PassStep(refs, first, now, i);
      var put, wait;
      known, put, wait := VisitOutput(outputs, i, refs, start);
      now := outputs[..];
      if !known {
        return;
      }
      anySet := anySet || put;
      keepGoing := keepGoing || wait;
    }
    known := true;
  }

  /** The references are those of the given outputs. */
  predicate RefersTo(refs: seq<nat>, outs: seq<Output>) {
    && |refs| == |outs|
    && forall i {:trigger FindOutputByName(outs, outs[i].relativeTo)} ::
         0 <= i < |outs| ==> refs[i] == FindOutputByName(outs, outs[i].relativeTo)
  }

  /** The two lists have the same names, and the same names to refer to. */
  predicate SameNaming(outs: seq<Output>, outs': seq<Output>) {
    && |outs'| == |outs|
    && forall k :: 0 <= k < |outs| ==> outs'[k].name == outs[k].name && outs'[k].relativeTo == outs[k].relativeTo
  }

  lemma {:induction false} SameNames(outs: seq<Output>, outs': seq<Output>, name: string)
    requires SameNaming(outs, outs')
    ensures FindOutputByName(outs', name) == FindOutputByName(outs, name)
  {
  }

  method FindByName(outputs: array<Output>, name: string) returns (i: nat)
    ensures i == FindOutputByName(outputs[..], name)
  {
    i := 0;
    while i < outputs.Length && outputs[i].name != name
      invariant i <= outputs.Length
      invariant forall k :: 0 <= k < i ==> outputs[k].name != name
    {
      i := i + 1;
    }
  }

  method LeastCorner(outputs: array<Output>) returns (minX: int, minY: int)
    ensures minX == LeastX(outputs[..]) && minY == LeastY(outputs[..])
  {
    minX, minY := 32768, 32768;
    for i := 0 to outputs.Length
      invariant minX == LeastX(outputs[..i]) && minY == LeastY(outputs[..i])
    {
      assert outputs[..i + 1][..i] == outputs[..i];
      if outputs[i].mode.None? {
        continue;
      }
      if outputs[i].x < minX { minX := outputs[i].x; }
      if outputs[i].y < minY { minY := outputs[i].y; }
    }
    assert outputs[..outputs.Length] == outputs[..];
  }

  method Normalize(outputs: array<Output>)
    modifies outputs
    ensures outputs[..] == Normalized(old(outputs[..]))
  {
    var minX, minY := LeastCorner(outputs);
    if minX != 0 || minY != 0 {
      MoveAll(outputs, minX, minY);
    }
  }

  method MoveAll(outputs: array<Output>, minX: int, minY: int)
    modifies outputs
    ensures forall k :: 0 <= k < outputs.Length ==> outputs[k] == Moved(old(outputs[k]), minX, minY)
  {
    for i := 0 to outputs.Length
      invariant forall k :: 0 <= k < i ==> outputs[k] == Moved(old(outputs[k]), minX, minY)
      invariant forall k :: i <= k < outputs.Length ==> outputs[k] == old(outputs[k])
    {
      var o := outputs[i];
      if o.mode.None? {
        continue;
      }
      outputs[i] := o.(x := o.x - minX, y := o.y - minY, changes := o.changes + {ChangePosition});
    }
  }

  /** The first n passes all ask for another one. */
  ghost predicate Restless(refs: seq<nat>, start: seq<Output>, n: nat)
    requires Resolved(refs, start)
  {
    forall m: nat :: m < n ==> !Quiet(refs, start, m)
  }

  /** Where the loop stands after n passes that all asked for another one. */
  ghost predicate LoopState(refs: seq<nat>, start: seq<Output>, now: seq<Output>, n: nat)
    requires |refs| == |start| == |now|
  {
    if !Resolved(refs, start) then n == 0
    else
      && now == After(refs, start, n)
      && Restless(refs, start, n)
      && (n > 0 ==> !AnyStuck(refs, start))
      && n + Unplaced(now, 0) <= Unplaced(start, 0)
      && (NoPresets(start) ==> Laid(refs, now))
      && (NoPresets(start) && n > 0 ==> n < Unplaced(start, 0))
  }

  /** All relations between enabled outputs hold. */
  predicate AllHold(outs: seq<Output>, refs: seq<nat>)
    requires |outs| == |refs|
  {
    forall i :: 0 <= i < |outs| && Placing(outs[i]) ==> RelationHolds(outs, refs, i)
  }

  /** The outputs touch or cover one another as o's relation says, edge to edge and top to top or left to left. */
  predicate Beside(o: Output, r: Output)
    requires Enabled(o) && Enabled(r)
  {
    match o.relation
    case LeftOf => o.x + ModeWidth(o.mode.value, o.rotation) == r.x && o.y == r.y
    case RightOf => r.x + ModeWidth(r.mode.value, r.rotation) == o.x && o.y == r.y
    case Above => o.y + ModeHeight(o.mode.value, o.rotation) == r.y && o.x == r.x
    case Below => r.y + ModeHeight(r.mode.value, r.rotation) == o.y && o.x == r.x
    case SameAs => o.x == r.x && o.y == r.y
  }

  /** What it means that all relations hold. */
  lemma {:induction false} AllHoldMeans(outs: seq<Output>, refs: seq<nat>)
    requires Resolved(refs, outs)
    ensures AllHold(outs, refs) <==>
      forall k :: 0 <= k < |outs| && Placing(outs[k]) && Enabled(outs[refs[k]]) ==> Beside(outs[k], outs[refs[k]])
  {
    forall k | 0 <= k < |outs| && Placing(outs[k]) && Enabled(outs[refs[k]])
      ensures RelationHolds(outs, refs, k) <==> Beside(outs[k], outs[refs[k]])
    {
    }
    forall k | 0 <= k < |outs| && Placing(outs[k]) && !Enabled(outs[refs[k]]) ensures RelationHolds(outs, refs, k) {
    }
  }

  /** Every output to be placed was, and lies where its relation says. */
  predicate AllInPlace(refs: seq<nat>, outs: seq<Output>)
    requires |refs| == |outs|
  {
    forall k :: 0 <= k < |outs| && Placing(outs[k]) ==>
      refs[k] < |outs| && Placed(outs[k]) && InPlace(refs, outs, k)
  }

  /** Where output k ends up, everything having been moved by dx and dy to the left and up. */
  predicate LaidOutAt(outs: seq<Output>, refs: seq<nat>, outs': seq<Output>, k: nat, dx: int, dy: int)
    requires k < |outs| == |outs'| && Resolved(refs, outs)
  {
    var o, o' := outs[k], outs'[k];
    && o' == o.(x := o'.x, y := o'.y, changes := o'.changes)
    && if !Enabled(o) then o' == o
       else
         && o'.changes == o.changes + (if Placing(o) || dx != 0 || dy != 0 then {ChangePosition} else {})
         && if !Placing(o) then o'.x == o.x - dx && o'.y == o.y - dy
            else if Enabled(outs'[refs[k]]) then Enabled(o') && Beside(o', outs'[refs[k]])
            else o'.x == -dx && o'.y == -dy
  }

  /** The whole layout: touching the edges of the screen, as far as coordinates up to 32768 go. */
  ghost predicate LaidOut(outs: seq<Output>, refs: seq<nat>, outs': seq<Output>, dx: int, dy: int)
    requires |outs| == |outs'| && Resolved(refs, outs)
  {
    && (forall k :: 0 <= k < |outs| ==> LaidOutAt(outs, refs, outs', k, dx, dy))
    && (forall k :: 0 <= k < |outs| && Enabled(outs'[k]) ==> outs'[k].x >= 0 && outs'[k].y >= 0)
    && (dx == 32768 || exists k :: 0 <= k < |outs| && Enabled(outs'[k]) && outs'[k].x == 0)
    && (dy == 32768 || exists k :: 0 <= k < |outs| && Enabled(outs'[k]) && outs'[k].y == 0)
  }

  lemma {:induction false} NormalizedLaysOut(outs: seq<Output>, refs: seq<nat>, placed: seq<Output>)
    requires Resolved(refs, outs) && OnlyPuts(outs, placed) && AllInPlace(refs, placed)
    ensures |Normalized(placed)| == |outs| && LaidOut(outs, refs, Normalized(placed), LeastX(placed), LeastY(placed))
  {
    var r, dx, dy := Normalized(placed), LeastX(placed), LeastY(placed);
    NormalizedMoves(placed);
    forall k | 0 <= k < |outs| ensures LaidOutAt(outs, refs, r, k, dx, dy) {
      LaysOutOne(outs, refs, placed, r, k, dx, dy);
    }
    MovedToEdges(placed, r);
  }

  lemma {:induction false} MovedToEdges(placed: seq<Output>, r: seq<Output>)
    requires |r| == |placed|
    requires forall k :: 0 <= k < |placed| ==> MovedFrom(placed[k], r[k], LeastX(placed), LeastY(placed))
    ensures forall k :: 0 <= k < |r| && Enabled(r[k]) ==> r[k].x >= 0 && r[k].y >= 0
    ensures LeastX(placed) == 32768 || exists k :: 0 <= k < |r| && Enabled(r[k]) && r[k].x == 0
    ensures LeastY(placed) == 32768 || exists k :: 0 <= k < |r| && Enabled(r[k]) && r[k].y == 0
  {
    var dx, dy := LeastX(placed), LeastY(placed);
    if dx != 32768 {
      var k :| 0 <= k < |placed| && Enabled(placed[k]) && dx == placed[k].x;
      assert Enabled(r[k]) && r[k].x == 0;
    }
    if dy != 32768 {
      var k :| 0 <= k < |placed| && Enabled(placed[k]) && dy == placed[k].y;
      assert Enabled(r[k]) && r[k].y == 0;
    }
  }

  lemma {:induction false} NormalizedMoves(placed: seq<Output>)
    ensures forall k :: 0 <= k < |placed| ==>
      MovedFrom(placed[k], Normalized(placed)[k], LeastX(placed), LeastY(placed))
  {
  }

  lemma {:induction false} LaysOutOne(outs: seq<Output>, refs: seq<nat>, placed: seq<Output>, r: seq<Output>, k: nat,
                                      dx: int, dy: int)
    requires Resolved(refs, outs) && OnlyPuts(outs, placed) && AllInPlace(refs, placed) && k < |outs| == |r|
    requires forall j :: 0 <= j < |placed| ==> MovedFrom(placed[j], r[j], dx, dy)
    ensures LaidOutAt(outs, refs, r, k, dx, dy)
  {
    OnlyPutsFacts(refs, outs, placed);
    assert MovedFrom(placed[k], r[k], dx, dy);
    assert placed[k] == outs[k] || placed[k] == Put(outs[k], placed[k].x, placed[k].y);
    if Placing(outs[k]) {
      assert placed[k].changes == outs[k].changes + {ChangePosition};
      assert MovedFrom(placed[refs[k]], r[refs[k]], dx, dy) && InPlace(refs, placed, k);
    }
  }

  /** What the move makes of one output. */
  predicate MovedFrom(o: Output, o': Output, dx: int, dy: int) {
    && o' == o.(x := o'.x, y := o'.y, changes := o'.changes)
    && if !Enabled(o) then o' == o
       else
         && o'.x == o.x - dx && o'.y == o.y - dy
         && o'.changes == o.changes + (if dx != 0 || dy != 0 then {ChangePosition} else {})
  }

  /** The next pass either leads on, or shows that something is stuck, or ends the loop with everything in place. */
  ghost predicate PassEnds(refs: seq<nat>, start: seq<Output>, pass: Pass, n: nat)
    requires Resolved(refs, start) && |pass.outs| == |start|
  {
    if pass.keepGoing then
      pass.anySet || AnyStuck(refs, start)
    else
      && !AnyStuck(refs, start) && Quiet(refs, start, n) && Restless(refs, start, n)
      && pass.outs == After(refs, start, n + 1)
      && n <= Unplaced(start, 0)
      && (NoPresets(start) ==>
            n < Max(1, Unplaced(start, 0)) && AllHold(pass.outs, refs) && AllInPlace(refs, pass.outs))
  }

  lemma {:induction false} LoopStep(refs: seq<nat>, start: seq<Output>, now: seq<Output>, n: nat)
    requires |refs| == |start| == |now| && Resolved(refs, start) && LoopState(refs, start, now, n)
    requires !(AnyGrounded(refs, start) && AnyStuck(refs, start))
    ensures Resolved(refs, now)
    ensures var pass := OnePass(refs, now);
            && PassEnds(refs, start, pass, n)
            && (pass.keepGoing && pass.anySet ==>
                  LoopState(refs, start, pass.outs, n + 1) && Unplaced(pass.outs, 0) < Unplaced(now, 0))
  {
    AfterReached(refs, start, n);
    if AnyStuck(refs, start) {
      LoopIsReported(refs, start);
    } else {
      LoopProgresses(refs, start, now, n);
    }
  }

  lemma {:induction false} LoopBegins(refs: seq<nat>, start: seq<Output>)
    requires |refs| == |start|
    ensures LoopState(refs, start, start, 0)
  {
    if Resolved(refs, start) {
      assert After(refs, start, 0) == start;
    }
  }

  lemma {:induction false} LoopProgresses(refs: seq<nat>, start: seq<Output>, now: seq<Output>, n: nat)
    requires |refs| == |start| == |now| && Resolved(refs, start) && LoopState(refs, start, now, n)
    requires !AnyStuck(refs, start) && Reached(refs, start, now) && Resolved(refs, now)
    ensures var pass := OnePass(refs, now);
            && (pass.keepGoing ==>
                  LoopState(refs, start, pass.outs, n + 1) && pass.anySet && Unplaced(pass.outs, 0) < Unplaced(now, 0))
            && PassEnds(refs, start, pass, n)
  {
    PassProgress(refs, start, now);
    if NoPresets(start) {
      LaidPass(refs, start, now, n);
    }
    OneMorePass(refs, start, OnePass(refs, now), now, n);
  }

  /** From what a pass does to where the loop stands after it. */
  lemma {:induction false} OneMorePass(refs: seq<nat>, start: seq<Output>, pass: Pass, now: seq<Output>, n: nat)
    requires |refs| == |start| == |now| && Resolved(refs, start) && LoopState(refs, start, now, n)
    requires !AnyStuck(refs, start) && pass.outs == After(refs, start, n + 1)
      && pass.keepGoing == !Quiet(refs, start, n)
    requires pass.keepGoing ==> pass.anySet && Unplaced(pass.outs, 0) < Unplaced(now, 0)
    requires pass.keepGoing && NoPresets(start) ==> Unplaced(now, 0) >= 2
    requires NoPresets(start) ==>
      Laid(refs, pass.outs) && (!pass.keepGoing ==> AllHold(pass.outs, refs) && AllInPlace(refs, pass.outs))
    ensures pass.keepGoing ==> LoopState(refs, start, pass.outs, n + 1)
    ensures PassEnds(refs, start, pass, n)
  {
  }

  lemma {:induction false} LaidPass(refs: seq<nat>, start: seq<Output>, now: seq<Output>, n: nat)
    requires Resolved(refs, start) && now == After(refs, start, n) && Laid(refs, now)
    ensures Laid(refs, OnePass(refs, now).outs)
    ensures var pass := OnePass(refs, now);
            !pass.keepGoing ==> AllHold(pass.outs, refs) && AllInPlace(refs, pass.outs)
  {
    PassLaid(refs, now, 0, false, false);
    assert After(refs, start, n + 1) == OnePass(refs, now).outs;
    if !OnePass(refs, now).keepGoing {
      QuietIsDone(refs, start, n);
      OnlyPutsFacts(refs, start, OnePass(refs, now).outs);
    }
  }

  method NextPass(outputs: array<Output>, ghost refs: seq<nat>, ghost start: seq<Output>, ghost n: nat)
    returns (known: bool, anySet: bool, keepGoing: bool)
    requires RefersTo(refs, start) && SameNaming(start, outputs[..]) && LoopState(refs, start, outputs[..], n)
    requires n == 0 ==> outputs[..] == start
    requires Resolved(refs, start) ==> !(AnyGrounded(refs, start) && AnyStuck(refs, start))
    modifies outputs
    ensures SameNaming(start, outputs[..])
    ensures known <==> Resolved(refs, start)
    ensures known ==> PassEnds(refs, start, Pass(outputs[..], anySet, keepGoing), n)
    ensures known && keepGoing && anySet ==>
      LoopState(refs, start, outputs[..], n + 1) && Unplaced(outputs[..], 0) < Unplaced(old(outputs[..]), 0)
  {
    if Resolved(refs, start) {
      LoopStep(refs, start, outputs[..], n);
    }
    known, anySet, keepGoing := RunPass(outputs, refs, start);
  }

  /** What the loop reports, and what it has reached when everything is placed after n + 1 passes. */
  ghost predicate LoopEnds(refs: seq<nat>, start: seq<Output>, now: seq<Output>, r: Positioning, n: nat)
    requires |refs| == |start| == |now|
  {
    match r
    case UnknownReference => !Resolved(refs, start)
    case RelationLoop => Resolved(refs, start) && AnyStuck(refs, start)
    case Positioned => Resolved(refs, start) && PassEnds(refs, start, Pass(now, true, false), n)
  }

  /** Pass after pass, until one asks for no further pass or places nothing. */
  method ResolveRelations(outputs: array<Output>, ghost refs: seq<nat>) returns (r: Positioning, ghost n: nat)
    requires RefersTo(refs, outputs[..])
    requires Resolved(refs, outputs[..]) ==> !(AnyGrounded(refs, outputs[..]) && AnyStuck(refs, outputs[..]))
    modifies outputs
    ensures LoopEnds(refs, old(outputs[..]), outputs[..], r, n)
  {
    ghost var outs := outputs[..];
    LoopBegins(refs, outs);
    n := 0;
    while true
      invariant SameNaming(outs, outputs[..])
      invariant n == 0 ==> outputs[..] == outs
      invariant LoopState(refs, outs, outputs[..], n)
      decreases Unplaced(outputs[..], 0)
    {
      var known, anySet, keepGoing := NextPass(outputs, refs, outs, n);
      if !known {
        return UnknownReference, n;
      }
      if !keepGoing {
        return Positioned, n;
      }
      if !anySet {
        return RelationLoop, n;
      }
      n := n + 1;
    }
  }

  /** The pass after n others is the first that asks for no further one. */
  ghost predicate Settles(outs: seq<Output>, n: nat) {
    var refs := References(outs);
    Resolved(refs, outs) && Quiet(refs, outs, n) && Restless(refs, outs, n)
  }

  /** Where the outputs end up. */
  ghost function Placement(outs: seq<Output>): (placed: seq<Output>)
    requires exists n: nat :: Settles(outs, n)
    ensures |placed| == |outs|
  {
    var n: nat :| Settles(outs, n);
    Normalized(After(References(outs), outs, n + 1))
  }

  lemma {:induction false} PlacementIs(outs: seq<Output>, n: nat)
    requires Settles(outs, n)
    ensures Placement(outs) == Normalized(After(References(outs), outs, n + 1))
  {
    forall m: nat | Settles(outs, m) ensures m == n {
    }
  }

  /** In the pass, no enabled output is moved after something was placed relative to it. */
  predicate LastPassStill(refs: seq<nat>, before: seq<Output>)
    requires Resolved(refs, before)
  {
    forall k :: 0 <= k < |before| && Placing(before[k]) && k <= refs[k] && Enabled(before[refs[k]]) ==>
      SamePlace(OnePass(refs, before).outs[refs[k]], before[refs[k]])
  }

  predicate SamePlace(o: Output, p: Output) { o.x == p.x && o.y == p.y }

  /**
    After the last pass all relations hold exactly when no reference visited later in that
    pass, or referring to itself, was moved by it.
   */
  lemma {:induction false} LastPassHolds(refs: seq<nat>, before: seq<Output>)
    requires Resolved(refs, before) && !OnePass(refs, before).keepGoing
    ensures AllHold(OnePass(refs, before).outs, refs) <==> LastPassStill(refs, before)
  {
    var final := OnePass(refs, before).outs;
    PassFacts(refs, before, 0, false, false);
    OnlyPutsFacts(refs, before, final);
    forall k | 0 <= k < |before| && Placing(before[k]) && Enabled(before[refs[k]])
      ensures RelationHolds(final, refs, k) <==> (k <= refs[k] ==> SamePlace(final[refs[k]], before[refs[k]]))
    {
      PassPutsBeside(refs, before, 0, false, false, k);
      SameRelation(before[k], final[k], SeenBy(refs, before, final, k), final[refs[k]]);
    }
    forall k | 0 <= k < |before| && Placing(before[k]) && !Enabled(before[refs[k]])
      ensures RelationHolds(final, refs, k)
    {
    }
  }

  /** Two places of a reference give an output the same place exactly when they are the same. */
  lemma {:induction false} SameRelation(o: Output, o': Output, r: Output, r': Output)
    requires Enabled(o) && Enabled(r) && o' == o.(x := o'.x, y := o'.y, changes := o'.changes)
    requires r'.mode == r.mode && r'.rotation == r.rotation
    ensures (BesideX(o, r) == BesideX(o', r') && BesideY(o, r) == BesideY(o', r')) <==> SamePlace(r', r)
  {
  }

  /** Moving everything together neither breaks nor mends a relation. */
  lemma {:induction false} NormalizedHoldsToo(outs: seq<Output>, refs: seq<nat>)
    requires |outs| == |refs|
    ensures AllHold(Normalized(outs), refs) <==> AllHold(outs, refs)
  {
    var moved := Normalized(outs);
    forall i | 0 <= i < |outs|
      ensures Placing(moved[i]) == Placing(outs[i]) && RelationHolds(moved, refs, i) == RelationHolds(outs, refs, i)
    {
    }
  }

  /**
    Places all outputs.  The loop ends unless a grounded output stands next to a
    stuck one, see EndlessWhenMixed; it reports a loop exactly when something is
    stuck, and otherwise ends within as many passes as there are outputs to place, or
    one more when some have explicit positions.
   */
  method SetPositions(outputs: array<Output>) returns (r: Positioning)
    requires var outs := outputs[..];
             var refs := References(outs);
             Resolved(refs, outs) ==> !(AnyGrounded(refs, outs) && AnyStuck(refs, outs))
    modifies outputs
    ensures var outs, refs := old(outputs[..]), References(old(outputs[..]));
            && (r == UnknownReference <==> !Resolved(refs, outs))
            && (r == RelationLoop <==> Resolved(refs, outs) && AnyStuck(refs, outs))
            && (r == Positioned ==> exists n: nat ::
                  && Settles(outs, n)
                  && n <= Unplaced(outs, 0) && (NoPresets(outs) ==> n < Max(1, Unplaced(outs, 0)))
                  && (AllHold(outputs[..], refs) <==> LastPassStill(refs, After(refs, outs, n))))
    ensures r == Positioned ==>
      && (exists n: nat :: Settles(old(outputs[..]), n))
      && outputs[..] == Placement(old(outputs[..]))
    ensures r == Positioned ==> OnlyRepositioned(old(outputs[..]), outputs[..])
    ensures r == Positioned && NoPresets(old(outputs[..])) ==>
      && AllHold(outputs[..], References(old(outputs[..])))
      && exists dx, dy :: LaidOut(old(outputs[..]), References(old(outputs[..])), outputs[..], dx, dy)
  {
    ghost var outs := outputs[..];
    ghost var refs := References(outs);
    ghost var n;
    r, n := ResolveRelations(outputs, refs);
    if r == Positioned {
      ghost var placed := outputs[..];
      Normalize(outputs);
      NormalizedOnlyRepositions(outs, placed);
      PlacementIs(outs, n);
      LastPassHolds(refs, After(refs, outs, n));
      NormalizedHoldsToo(placed, refs);
      if NoPresets(outs) {
        NormalizedLaysOut(outs, refs, placed);
      }
    }
  }

  function Screen(name: string, relativeTo: string, changes: set<Change>, x: int): Output {
    Output(name, 0, [], [], Some(Mode(1, 640, 480)), NO_ROTATION,
      Transform([[65536, 0, 0], [0, 65536, 0], [0, 0, 65536]], "", []),
           Panning(0, 0, 0, 0), SameAs, relativeTo, changes, None, None, x, 0)
  }

  /**
    Why NoPresets is needed: p is to lie on q, which has an explicit position besides
    its relation to r.  The first pass puts p on q, then moves q onto r, and ends.
   */
  lemma {:induction false} PresetBreaksRelation(p: string, q: string, r: string, x: int)
    requires p != q && q != r && p != r && x != 0
    ensures var outs := [Screen(p, q, {ChangeRelation}, 0),
                         Screen(q, r, {ChangeRelation, ChangePosition}, x),
                         Screen(r, r, {}, 0)];
            var refs := [1, 2, 2];
            && RefersTo(refs, outs) && Resolved(refs, outs) && !AnyStuck(refs, outs) && !NoPresets(outs)
            && Quiet(refs, outs, 0) && !AllHold(After(refs, outs, 1), refs)
  {
    var a, b, c := Screen(p, q, {ChangeRelation}, 0), Screen(q, r, {ChangeRelation, ChangePosition}, x),
      Screen(r, r, {}, 0);
    var outs, refs := [a, b, c], [1, 2, 2];
    ChainOfThree(a, b, c);
    var a', b' := Put(a, x, 0), Put(b, 0, 0);
    PassOverThree(a, b, c, a', b');
    assert After(refs, outs, 0) == outs && After(refs, outs, 1) == [a', b', c];
    assert !RelationHolds([a', b', c], refs, 0);
  }

  /** Each relates to the next one, and the last is not related. */
  lemma {:induction false} ChainOfThree(a: Output, b: Output, c: Output)
    requires a.name != b.name && b.name != c.name && a.name != c.name
    requires a.relativeTo == b.name && b.relativeTo == c.name == c.relativeTo
    requires Placing(a) && Placing(b) && !Related(c)
    ensures RefersTo([1, 2, 2], [a, b, c]) && Resolved([1, 2, 2], [a, b, c]) && !AnyStuck([1, 2, 2], [a, b, c])
  {
    var outs, refs := [a, b, c], [1, 2, 2];
    NamesInOrder(a, b, c);
    assert outs[0] == a && outs[1] == b && outs[2] == c;
    assert GroundedIn(refs, outs, 1, 1);
    assert GroundedIn(refs, outs, 0, 2);
  }

  lemma {:induction false} NamesInOrder(a: Output, b: Output, c: Output)
    requires a.name != b.name && b.name != c.name && a.name != c.name
    ensures FindOutputByName([a, b, c], b.name) == 1 && FindOutputByName([a, b, c], c.name) == 2
  {
    assert [a, b, c][1..] == [b, c] && [b, c][1..] == [c];
    assert FindOutputByName([b, c], c.name) == 1 + FindOutputByName([c], c.name);
  }

  lemma {:induction false} PassOverThree(a: Output, b: Output, c: Output, a': Output, b': Output)
    requires Placing(a) && Placing(b) && Placed(b) && !Related(c) && Enabled(c)
    requires a' == Put(a, BesideX(a, b), BesideY(a, b)) && b' == Put(b, BesideX(b, c), BesideY(b, c))
    ensures Resolved([1, 2, 2], [a, b, c]) && OnePass([1, 2, 2], [a, b, c]) == Pass([a', b', c], true, false)
  {
    var refs := [1, 2, 2];
    assert Visit(refs, [a, b, c], 0) == [a', b, c];
    assert Visit(refs, [a', b, c], 1) == [a', b', c];
    assert OnePass(refs, [a, b, c]) == PassFrom(refs, [a', b, c], 1, true, false);
    assert PassFrom(refs, [a', b, c], 1, true, false) == PassFrom(refs, [a', b', c], 2, true, false);
    assert PassFrom(refs, [a', b', c], 2, true, false) == PassFrom(refs, [a', b', c], 3, true, false);
  }
}
