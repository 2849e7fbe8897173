/**
  Giving every changed output a CRTC: first the spare ones in order, and when that
  fails the search over all outputs.
 */
module CrtcPicker {
  import opened Options
  import opened Display
  import opened CrtcSearch
  import opened CrtcFallback
  import opened CrtcAllocator

  datatype Fit = FitsOn(c: nat) | FitsNowhere | FitUnknown

  /** The first usable CRTC among those output i lists from the k-th on. */
  function FirstFit(modes: seq<Mode>, crtcs: seq<Crtc>, outs: seq<Output>, i: nat, k: nat): Fit
    requires i < |outs| && k <= |outs[i].crtcIds|
    decreases |outs[i].crtcIds| - k
  {
    if k == |outs[i].crtcIds| then FitsNowhere
    else
      var c := FindCrtc(crtcs, outs[i].crtcIds[k]);
      if c == |crtcs| then FitUnknown
      else if Usable(modes, crtcs, outs, c, i) then FitsOn(c)
      else FirstFit(modes, crtcs, outs, i, k + 1)
  }

  /** The first k CRTCs that output i lists exist, and it can use none of them. */
  predicate PassedOver(modes: seq<Mode>, crtcs: seq<Crtc>, outs: seq<Output>, i: nat, k: nat)
    requires i < |outs| && k <= |outs[i].crtcIds|
  {
    forall j :: 0 <= j < k ==>
      var c := FindCrtc(crtcs, outs[i].crtcIds[j]);
      c < |crtcs| && !Usable(modes, crtcs, outs, c, i)
  }

  /** After passing over the first k of its list, output i comes to CRTC c, or to an id there is no CRTC for. */
  predicate ComesTo(modes: seq<Mode>, crtcs: seq<Crtc>, outs: seq<Output>, i: nat, k: nat, c: nat)
    requires i < |outs|
  {
    && k < |outs[i].crtcIds| && PassedOver(modes, crtcs, outs, i, k)
    && c == FindCrtc(crtcs, outs[i].crtcIds[k])
  }

  /** What looking through the list of output i finds: the first CRTC it can use, unless an unknown id comes before. */
  ghost predicate FirstUsable(modes: seq<Mode>, crtcs: seq<Crtc>, outs: seq<Output>, i: nat, found: Fit)
    requires i < |outs|
  {
    match found
    case FitsOn(c) =>
      c < |crtcs| && Usable(modes, crtcs, outs, c, i) && exists k: nat :: ComesTo(modes, crtcs, outs, i, k, c)
    case FitsNowhere => PassedOver(modes, crtcs, outs, i, |outs[i].crtcIds|)
    case FitUnknown => exists k: nat :: ComesTo(modes, crtcs, outs, i, k, |crtcs|)
  }

  lemma {:induction false} FirstFitIs(modes: seq<Mode>, crtcs: seq<Crtc>, outs: seq<Output>, i: nat, k: nat)
    requires i < |outs| && k <= |outs[i].crtcIds| && PassedOver(modes, crtcs, outs, i, k)
    ensures FirstUsable(modes, crtcs, outs, i, FirstFit(modes, crtcs, outs, i, k))
    decreases |outs[i].crtcIds| - k
  {
    if k < |outs[i].crtcIds| {
      var c := FindCrtc(crtcs, outs[i].crtcIds[k]);
      assert ComesTo(modes, crtcs, outs, i, k, c);
      if c < |crtcs| && !Usable(modes, crtcs, outs, c, i) {
        FirstFitIs(modes, crtcs, outs, i, k + 1);
      }
    }
  }

  /** The CRTC is in use by something other than output i alone. */
  predicate Occupied(crtcs: seq<Crtc>, outs: seq<Output>, c: nat, i: nat)
    requires c < |crtcs|
  {
    var users := crtcs[c].info.outputs;
    |users| > 0 && (|users| > 1 || FindOutput(outs, users[0]) != i)
  }

  datatype FirstPass = Happy(outs: seq<Output>) | Unhappy(outs: seq<Output>) | Unknown

  /** Walks the outputs from i on, and stops at the first one that cannot simply be given a CRTC. */
  function PassFrom(modes: seq<Mode>, crtcs: seq<Crtc>, outs: seq<Output>, i: nat): FirstPass
    requires i <= |outs| && ValidCrtcs(crtcs, outs)
    decreases |outs| - i
  {
    if i == |outs| then Happy(outs)
    else if outs[i].changes == {} || outs[i].mode.None? then PassFrom(modes, crtcs, outs, i + 1)
    else if outs[i].crtc.Some? then
      if Occupied(crtcs, outs, outs[i].crtc.value, i) then Unhappy(outs)
      else PassFrom(modes, crtcs, outs, i + 1)
    else
      match FirstFit(modes, crtcs, outs, i, 0)
      case FitUnknown => Unknown
      case FitsNowhere => Unhappy(outs)
      case FitsOn(c) =>
        if c < |crtcs| then PassFrom(modes, crtcs, outs[i := outs[i].(crtc := Some(c))], i + 1) else Unknown
  }

  /** Every output remembers the CRTC it has before the search. */
  function Remembered(outs: seq<Output>): (r: seq<Output>)
    ensures |r| == |outs|
  {
    seq(|outs|, k requires 0 <= k < |outs| => outs[k].(currentCrtc := outs[k].crtc))
  }

  /** The outputs with the CRTCs the search chose; an unchanged output that was moved is marked. */
  function Moved(outs: seq<Output>, a: Assignment): (r: seq<Output>)
    requires |a| == |outs|
    ensures |r| == |outs|
  {
    seq(|outs|, k requires 0 <= k < |outs| => MarkMoved(outs[k].(crtc := a[k])))
  }

  function MarkMoved(o: Output): Output {
    if o.changes == {} && o.crtc != o.currentCrtc then o.(changes := {ChangeCrtc}) else o
  }

  /** The rows the search works on when the first pass has left the outputs as given. */
  function SearchRows(modes: seq<Mode>, crtcs: seq<Crtc>, outs: seq<Output>): seq<Row> {
    Rows(modes, crtcs, Remembered(outs))
  }

  /** The outputs with the CRTCs the search finds, if it connects every enabled one. */
  function Swapped(modes: seq<Mode>, crtcs: seq<Crtc>, outs: seq<Output>): Option<seq<Output>> {
    var rows := SearchRows(modes, crtcs, outs);
    var a := Best(rows, []).crtcs;
    if !ListsUnknown(crtcs, outs, 0) && Full(rows, a) then Some(Moved(Remembered(outs), a)) else None
  }

  /** The outputs with their CRTCs, if every enabled one gets a CRTC. */
  function Picks(modes: seq<Mode>, crtcs: seq<Crtc>, outs: seq<Output>): Option<seq<Output>>
    requires ValidCrtcs(crtcs, outs)
  {
    match PassFrom(modes, crtcs, outs, 0)
    case Happy(picked) => Some(picked)
    case Unknown => None
    case Unhappy(left) => Swapped(modes, crtcs, left)
  }

  datatype Picking = Picked | NoCrtcFor(i: nat) | UnknownCrtc

  method FindCrtcForOutput(modes: seq<Mode>, crtcs: seq<Crtc>, outputs: array<Output>, i: nat) returns (r: Fit)
    requires i < outputs.Length
    ensures r == FirstFit(modes, crtcs, outputs[..], i, 0)
    ensures FirstUsable(modes, crtcs, outputs[..], i, r)
  {
    FirstFitIs(modes, crtcs, outputs[..], i, 0);
    for k := 0 to |outputs[i].crtcIds|
      invariant FirstFit(modes, crtcs, outputs[..], i, 0) == FirstFit(modes, crtcs, outputs[..], i, k)
    {
      var c := FindCrtcByXid(crtcs, outputs[i].crtcIds[k]);
      if c == |crtcs| {
        return FitUnknown;
      }
      var ok := CheckCrtcForOutput(modes, crtcs, outputs, c, i);
      if ok {
        return FitsOn(c);
      }
    }
    return FitsNowhere;
  }

  /** The first pass; happy tells whether every changed output got its CRTC. */
  method MatchSpareCrtcs(modes: seq<Mode>, crtcs: seq<Crtc>, outputs: array<Output>) returns (happy: bool, known: bool)
    requires ValidCrtcs(crtcs, outputs[..])
    modifies outputs
    ensures var pass := PassFrom(modes, crtcs, old(outputs[..]), 0);
            && known == !pass.Unknown?
            && (known ==> happy == pass.Happy? && outputs[..] == pass.outs)
  {
    ghost var outs := outputs[..];
    ghost var pass := PassFrom(modes, crtcs, outs, 0);
    var i := 0;
    while i < outputs.Length
      invariant i <= outputs.Length && outs == outputs[..] && ValidCrtcs(crtcs, outs)
      invariant pass == PassFrom(modes, crtcs, outs, i)
    {
      happy, known := MatchSpareCrtc(modes, crtcs, outputs, i);
      outs := outputs[..];
      if !happy {
        return;
      }
      i := i + 1;
    }
    return true, true;
  }

  /** One output of the first pass. */
  method MatchSpareCrtc(modes: seq<Mode>, crtcs: seq<Crtc>, outputs: array<Output>, i: nat)
    returns (happy: bool, known: bool)
    requires i < outputs.Length && ValidCrtcs(crtcs, outputs[..])
    modifies outputs
    ensures ValidCrtcs(crtcs, outputs[..]) && (happy ==> known)
    ensures var pass := PassFrom(modes, crtcs, old(outputs[..]), i);
            if happy then pass == PassFrom(modes, crtcs, outputs[..], i + 1)
            else if known then pass == Unhappy(outputs[..])
            else pass == Unknown
  {
    ghost var outs := outputs[..];
    assert outs[i] == outputs[i];
    if outputs[i].changes != {} && outputs[i].mode.Some? {
      if outputs[i].crtc.Some? {
        var users := crtcs[outputs[i].crtc.value].info.outputs;
        if |users| > 0 {
          var user := FindOutputByXid(outputs, users[0]);
          if |users| > 1 || user != i {
            return false, true;
          }
        }
      } else {
        var fit := FindCrtcForOutput(modes, crtcs, outputs, i);
        match fit
        case FitUnknown => return false, false;
        case FitsNowhere => return false, true;
        case FitsOn(c) =>
          outputs[i] := outputs[i].(crtc := Some(c));
          assert outputs[..] == outs[i := outs[i].(crtc := Some(c))];
      }
    }
    return true, true;
  }

  /** What both passes keep: only CRTCs and remembered CRTCs change, and an output without changes keeps its CRTC. */
  predicate KeepsUnchanged(outs: seq<Output>, outs': seq<Output>) {
    && |outs'| == |outs|
    && forall k :: 0 <= k < |outs| ==> KeptOne(outs[k], outs'[k])
  }

  predicate KeptOne(o: Output, o': Output) {
    && o' == o.(crtc := o'.crtc, currentCrtc := o'.currentCrtc, changes := o'.changes)
    && (o'.changes == o.changes || o'.changes == {ChangeCrtc})
    && (o'.changes == {} ==> o.changes == {} && o'.crtc == o.crtc)
  }

  lemma {:induction false} PassKeepsUnchanged(modes: seq<Mode>, crtcs: seq<Crtc>, outs: seq<Output>, i: nat)
    requires i <= |outs| && ValidCrtcs(crtcs, outs)
    requires forall k :: 0 <= k < i && outs[k].mode.Some? ==> outs[k].crtc.Some?
    requires forall k :: 0 <= k < |outs| && outs[k].mode.Some? && outs[k].changes == {} ==> outs[k].crtc.Some?
    ensures var pass := PassFrom(modes, crtcs, outs, i);
            !pass.Unknown? ==>
              && KeepsUnchanged(outs, pass.outs)
              && ValidCrtcs(crtcs, pass.outs)
              && (forall k :: 0 <= k < |outs| ==> pass.outs[k].currentCrtc == outs[k].currentCrtc)
              && (pass.Happy? ==> forall k :: 0 <= k < |outs| && outs[k].mode.Some? ==> pass.outs[k].crtc.Some?)
    decreases |outs| - i
  {
    if i == |outs| {
    } else if outs[i].changes == {} || outs[i].mode.None? {
      PassKeepsUnchanged(modes, crtcs, outs, i + 1);
    } else if outs[i].crtc.Some? {
      if !Occupied(crtcs, outs, outs[i].crtc.value, i) {
        PassKeepsUnchanged(modes, crtcs, outs, i + 1);
      }
    } else {
      var fit := FirstFit(modes, crtcs, outs, i, 0);
      if fit.FitsOn? && fit.c < |crtcs| {
        var given := outs[i := outs[i].(crtc := Some(fit.c))];
        PassKeepsUnchanged(modes, crtcs, given, i + 1);
        var pass := PassFrom(modes, crtcs, given, i + 1);
        if !pass.Unknown? {
          GivenKeeps(outs, i, fit.c, pass.outs);
        }
      }
    }
  }

  lemma {:induction false} GivenKeeps(outs: seq<Output>, i: nat, c: nat, outs': seq<Output>)
    requires i < |outs| && outs[i].changes != {} && KeepsUnchanged(outs[i := outs[i].(crtc := Some(c))], outs')
    ensures KeepsUnchanged(outs, outs')
  {
    var given := outs[i := outs[i].(crtc := Some(c))];
    forall k | 0 <= k < |outs| ensures KeptOne(outs[k], outs'[k]) {
      assert KeptOne(given[k], outs'[k]);
    }
  }

  /** Everything is carried over but CRTCs, and every enabled output has one that exists. */
  lemma {:induction false} PicksKeep(modes: seq<Mode>, crtcs: seq<Crtc>, outs: seq<Output>)
    requires ValidCrtcs(crtcs, outs) && Picks(modes, crtcs, outs).Some?
    requires forall k :: 0 <= k < |outs| && outs[k].mode.Some? && outs[k].changes == {} ==> outs[k].crtc.Some?
    ensures var picked := Picks(modes, crtcs, outs).value;
            && KeepsUnchanged(outs, picked) && ValidCrtcs(crtcs, picked)
            && forall k :: 0 <= k < |outs| && outs[k].mode.Some? ==> picked[k].crtc.Some?
  {
    PassKeepsUnchanged(modes, crtcs, outs, 0);
    var pass := PassFrom(modes, crtcs, outs, 0);
    if pass.Unhappy? {
      SwapIsSound(modes, crtcs, pass.outs);
      MovedKeeps(crtcs, outs, pass.outs, Best(SearchRows(modes, crtcs, pass.outs), []).crtcs);
    }
  }

  /**
    Picks a CRTC for every enabled output, or names one that gets none.  When it
    gives up, no feasible assignment connects all enabled outputs, provided there
    are at most 1000 of them.
   */
  method PickCrtcs(modes: seq<Mode>, crtcs: seq<Crtc>, outputs: array<Output>) returns (r: Picking)
    requires ValidCrtcs(crtcs, outputs[..])
    requires forall k :: 0 <= k < outputs.Length && outputs[k].mode.Some? && outputs[k].changes == {} ==>
      outputs[k].crtc.Some?
    modifies outputs
    ensures var pass := PassFrom(modes, crtcs, old(outputs[..]), 0);
            && (r == UnknownCrtc <==> pass.Unknown? || (pass.Unhappy? && ListsUnknown(crtcs, pass.outs, 0)))
            && (pass.Unhappy? && r != UnknownCrtc ==>
                  var rows := SearchRows(modes, crtcs, pass.outs);
                  Enabled(rows, 0) <= 1000 ==> (r.NoCrtcFor? <==> !exists a :: Full(rows, a)))
    ensures r == Picked <==> Picks(modes, crtcs, old(outputs[..])).Some?
    ensures r == Picked ==>
      && outputs[..] == Picks(modes, crtcs, old(outputs[..])).value
      && KeepsUnchanged(old(outputs[..]), outputs[..])
      && ValidCrtcs(crtcs, outputs[..])
      && forall k :: 0 <= k < outputs.Length && outputs[k].mode.Some? ==> outputs[k].crtc.Some?
    ensures r.NoCrtcFor? ==> r.i < outputs.Length && outputs[r.i].mode.Some? && outputs[r.i].crtc.None?
  {
    ghost var start := outputs[..];
    if Picks(modes, crtcs, start).Some? {
      PicksKeep(modes, crtcs, start);
    }
    var happy, known := MatchSpareCrtcs(modes, crtcs, outputs);
    if !known {
      return UnknownCrtc;
    }
    if happy {
      return Picked;
    }
    SwapIsSound(modes, crtcs, outputs[..]);
    r := SwapCrtcs(modes, crtcs, outputs);
  }

  /**
    What the search chooses exists, connects every enabled output exactly when it is full, and
    is full when it can be.
   */
  lemma {:induction false} SwapIsSound(modes: seq<Mode>, crtcs: seq<Crtc>, outs: seq<Output>)
    ensures var rows := SearchRows(modes, crtcs, outs);
            var a := Best(rows, []).crtcs;
            && |a| == |outs|
            && (Full(rows, a) <==> forall k :: 0 <= k < |a| && outs[k].mode.Some? ==> a[k].Some?)
            && (forall k :: 0 <= k < |a| && a[k].Some? ==> a[k].value < |crtcs|)
            && (Enabled(rows, 0) <= 1000 ==> (Full(rows, a) <==> exists b :: Full(rows, b)))
  {
    SearchIsSound(modes, crtcs, Remembered(outs));
    forall k | 0 <= k < |outs| ensures Remembered(outs)[k].mode == outs[k].mode {
    }
  }

  /** When the simple way fails: search all ways to hand out the CRTCs. */
  method SwapCrtcs(modes: seq<Mode>, crtcs: seq<Crtc>, outputs: array<Output>) returns (r: Picking)
    modifies outputs
    ensures r == UnknownCrtc <==> ListsUnknown(crtcs, old(outputs[..]), 0)
    ensures r == Picked <==> Swapped(modes, crtcs, old(outputs[..])).Some?
    ensures r == Picked ==> outputs[..] == Swapped(modes, crtcs, old(outputs[..])).value
    ensures r.NoCrtcFor? ==> r.i < outputs.Length && outputs[r.i].mode.Some? && outputs[r.i].crtc.None?
  {
    ghost var start := outputs[..];
    RememberCrtcs(outputs);
    RememberedLists(crtcs, start);
    SwapIsSound(modes, crtcs, start);
    var known := SearchAll(modes, crtcs, outputs);
    if !known {
      return UnknownCrtc;
    }
    ghost var found, a := outputs[..], Best(SearchRows(modes, crtcs, start), []).crtcs;
    FoundBySearch(Remembered(start), found, a);
    r := MarkMovedOutputs(outputs);
  }

  /** The search from the first output on. */
  method SearchAll(modes: seq<Mode>, crtcs: seq<Crtc>, outputs: array<Output>) returns (known: bool)
    modifies outputs
    ensures known <==> !ListsUnknown(crtcs, old(outputs[..]), 0)
    ensures known ==>
      var a := Best(Rows(modes, crtcs, old(outputs[..])), []).crtcs;
      |a| == outputs.Length && outputs[..] == Assigned(old(outputs[..]), 0, a)
  {
    assert outputs[..0] == [];
    var score := PickCrtcsScore(modes, crtcs, outputs, 0);
    known := score != None;
  }

  lemma {:induction false} FoundBySearch(outs: seq<Output>, found: seq<Output>, a: Assignment)
    requires |a| == |outs| && found == Assigned(outs, 0, a)
    ensures CrtcsOf(found) == a && Moved(found, a) == Moved(outs, a)
    ensures forall k :: 0 <= k < |outs| ==> found[k].mode == outs[k].mode && found[k].crtc == a[k]
  {
    forall k | 0 <= k < |outs| ensures found[k] == outs[k].(crtc := a[k]) {
    }
  }

  lemma {:induction false} RememberedLists(crtcs: seq<Crtc>, outs: seq<Output>)
    ensures ListsUnknown(crtcs, Remembered(outs), 0) == ListsUnknown(crtcs, outs, 0)
  {
    forall k | 0 <= k < |outs|
      ensures Remembered(outs)[k].mode == outs[k].mode && Known(crtcs, Remembered(outs)[k]) == Known(crtcs, outs[k])
    {
    }
  }

  /** The chosen CRTCs exist, and being full means that no enabled output is left dark. */
  lemma {:induction false} SearchIsSound(modes: seq<Mode>, crtcs: seq<Crtc>, outs: seq<Output>)
    ensures var rows := Rows(modes, crtcs, outs);
            var a := Best(rows, []).crtcs;
            && |a| == |outs|
            && (Full(rows, a) <==> forall k :: 0 <= k < |a| && outs[k].mode.Some? ==> a[k].Some?)
            && (forall k :: 0 <= k < |a| && a[k].Some? ==> a[k].value < |crtcs|)
            && (Enabled(rows, 0) <= 1000 ==> (Full(rows, a) <==> exists b :: Full(rows, b)))
  {
    var rows := Rows(modes, crtcs, outs);
    var a := Best(rows, []).crtcs;
    BestIsSound(rows, []);
    assert [] + a == a;
    forall k | 0 <= k < |a| ensures rows[k].enabled == outs[k].mode.Some? {
    }
    forall k | 0 <= k < |a| && a[k].Some? ensures a[k].value < |crtcs| {
      assert Allowed(rows, a[..k], a[k].value);
    }
    if Enabled(rows, 0) <= 1000 {
      FallbackIsComplete(rows);
    }
  }

  lemma {:induction false} MovedKeeps(crtcs: seq<Crtc>, outs: seq<Output>, outs': seq<Output>, a: Assignment)
    requires KeepsUnchanged(outs, outs') && |a| == |outs|
    requires forall k :: 0 <= k < |a| && a[k].Some? ==> a[k].value < |crtcs|
    ensures KeepsUnchanged(outs, Moved(Remembered(outs'), a)) && ValidCrtcs(crtcs, Moved(Remembered(outs'), a))
  {
    var moved := Moved(Remembered(outs'), a);
    forall k | 0 <= k < |outs|
      ensures moved[k] == MarkMoved(outs'[k].(currentCrtc := outs'[k].crtc, crtc := a[k]))
    {
    }
  }

  method RememberCrtcs(outputs: array<Output>)
    modifies outputs
    ensures outputs[..] == Remembered(old(outputs[..]))
  {
    for i := 0 to outputs.Length
      invariant forall k :: 0 <= k < i ==> outputs[k] == old(outputs[k]).(currentCrtc := old(outputs[k]).crtc)
      invariant forall k :: i <= k < outputs.Length ==> outputs[k] == old(outputs[k])
    {
      outputs[i] := outputs[i].(currentCrtc := outputs[i].crtc);
    }
  }

  /** The last loop: complain about the first dark output, and mark the unchanged ones that were moved. */
  method MarkMovedOutputs(outputs: array<Output>) returns (r: Picking)
    modifies outputs
    ensures r != UnknownCrtc
    ensures r == Picked <==>
      forall k :: 0 <= k < outputs.Length && old(outputs[k]).mode.Some? ==> old(outputs[k]).crtc.Some?
    ensures r == Picked ==> outputs[..] == Moved(old(outputs[..]), CrtcsOf(old(outputs[..])))
    ensures r.NoCrtcFor? ==> r.i < outputs.Length && outputs[r.i].mode.Some? && outputs[r.i].crtc.None?
  {
    for i := 0 to outputs.Length
      invariant forall k :: 0 <= k < i ==> outputs[k] == MarkMoved(old(outputs[k]))
      invariant forall k :: i <= k < outputs.Length ==> outputs[k] == old(outputs[k])
      invariant forall k :: 0 <= k < i && old(outputs[k]).mode.Some? ==> old(outputs[k]).crtc.Some?
    {
      if outputs[i].mode.Some? && outputs[i].crtc.None? {
        return NoCrtcFor(i);
      }
      outputs[i] := MarkMoved(outputs[i]);
    }
    return Picked;
  }

  /** A row may take the CRTC if it were the only one on it. */
  predicate Joinable(row: Row, c: nat) {
    row.enabled && c in row.listed && c in row.fitting
  }

  /**
    Exactly when the search can put two outputs on one CRTC: each could have it alone, and
    the later one lists the earlier one among its clones.
   */
  lemma {:induction false} MayShareIffClone(rows: seq<Row>, j: nat, k: nat, c: nat)
    requires j < k < |rows|
    ensures (exists a: Assignment :: |a| == |rows| && Feasible(rows, a, 0) && a[j] == a[k] == Some(c)) <==>
            Joinable(rows[j], c) && Joinable(rows[k], c) && rows[j].xid in rows[k].clones
  {
    if Joinable(rows[j], c) && Joinable(rows[k], c) && rows[j].xid in rows[k].clones {
      var a: Assignment := seq(|rows|, i => if i == j || i == k then Some(c) else None);
      assert Allowed(rows, a[..j], c) && Allowed(rows, a[..k], c);
      assert Feasible(rows, a, 0) && a[j] == a[k] == Some(c);
    }
    if a: Assignment :| |a| == |rows| && Feasible(rows, a, 0) && a[j] == a[k] == Some(c) {
      assert Allowed(rows, a[..j], c) && Allowed(rows, a[..k], c);
      assert a[..k][j] == Some(c);
    }
  }

  /** Two outputs share a mode, a position and a rotation. */
  predicate Agree(o: Output, p: Output) {
    o.mode == p.mode && o.x == p.x && o.y == p.y && o.rotation == p.rotation
  }

  /**
    The limit of the check in the search: it can put two outputs that do not agree on one
    CRTC exactly when that CRTC is idle, both list it, and the later lists the earlier
    one among its clones.
   */
  lemma {:induction false} DisagreeingOutputsShareIffIdle(modes: seq<Mode>, crtcs: seq<Crtc>, outs: seq<Output>, j: nat,
                                                          k: nat, c: nat)
    requires j < k < |outs| && c < |crtcs| && crtcs[c].outputs == []
    requires outs[j].mode.Some? && outs[k].mode.Some? && !Agree(outs[j], outs[k])
    ensures var rows := Rows(modes, crtcs, outs);
            (exists a: Assignment :: |a| == |outs| && Feasible(rows, a, 0) && a[j] == a[k] == Some(c)) <==>
            crtcs[c].info.outputs == [] && c in rows[j].listed && c in rows[k].listed && outs[j].xid in outs[k].clones
  {
    var rows := Rows(modes, crtcs, outs);
    MayShareIffClone(rows, j, k, c);
    assert rows[j] == RowOf(modes, crtcs, outs[j]) && rows[k] == RowOf(modes, crtcs, outs[k]);
  }

  const IDENTITY := Transform([[65536, 0, 0], [0, 65536, 0], [0, 0, 65536]], "", [])

  /** n idle CRTCs, numbered by their ids. */
  function ChainCrtcs(n: nat): (crtcs: seq<Crtc>)
    ensures |crtcs| == n
  {
    seq(n, i requires 0 <= i < n =>
      Crtc(i, CrtcInfo(0, 0, None, NO_ROTATION, []), IDENTITY, IDENTITY, false, None, 0, 0, NO_ROTATION, [], None))
  }

  /**
    n outputs that were each given a CRTC and could also use the next one, but the last, which
    can use only the first CRTC.
   */
  function ChainOutputs(n: nat): (outs: seq<Output>)
    requires n > 0
    ensures |outs| == n
  {
    seq(n, i requires 0 <= i < n =>
      Output("", i, if i < n - 1 then [i, i + 1] else [0], [], Some(Mode(1, 640, 480)), NO_ROTATION, IDENTITY,
             Panning(0, 0, 0, 0), SameAs, "", {ChangeCrtc}, if i < n - 1 then Some(i) else None, None, 0, 0))
  }

  lemma {:induction false} ChainIds(n: nat, i: nat)
    requires i < n
    ensures FindCrtc(ChainCrtcs(n), i) == i
  {
    assert ChainCrtcs(n)[i].xid == i;
    var c := FindCrtc(ChainCrtcs(n), i);
    assert c < n ==> ChainCrtcs(n)[c].xid == c;
  }

  /** To the search they are the chain of rows. */
  lemma {:induction false} ChainRows(modes: seq<Mode>, n: nat)
    requires 1 < n
    ensures SearchRows(modes, ChainCrtcs(n), ChainOutputs(n)) == Chain(n)
    ensures !ListsUnknown(ChainCrtcs(n), ChainOutputs(n), 0)
  {
    var crtcs, outs := ChainCrtcs(n), ChainOutputs(n);
    forall i | 0 <= i < n
      ensures RowOf(modes, crtcs, Remembered(outs)[i]) == Chain(n)[i] && Known(crtcs, outs[i])
    {
      ChainRow(modes, n, i);
    }
    assert SearchRows(modes, crtcs, outs) == Chain(n);
  }

  lemma {:induction false} ChainRow(modes: seq<Mode>, n: nat, i: nat)
    requires 1 < n && i < n
    ensures RowOf(modes, ChainCrtcs(n), Remembered(ChainOutputs(n))[i]) == Chain(n)[i]
    ensures Known(ChainCrtcs(n), ChainOutputs(n)[i])
  {
    var crtcs, o := ChainCrtcs(n), ChainOutputs(n)[i];
    forall k | 0 <= k < |o.crtcIds| ensures FindCrtc(crtcs, o.crtcIds[k]) == o.crtcIds[k] < n {
      ChainIds(n, o.crtcIds[k]);
    }
    IdleRow(modes, crtcs, o.(currentCrtc := o.crtc));
  }

  /** An output with a choice of idle CRTCs, whose ids are their places, can have any of them. */
  lemma {:induction false} IdleRow(modes: seq<Mode>, crtcs: seq<Crtc>, o: Output)
    requires forall k :: 0 <= k < |o.crtcIds| ==> FindCrtc(crtcs, o.crtcIds[k]) == o.crtcIds[k] < |crtcs|
    requires forall c :: 0 <= c < |crtcs| ==> crtcs[c].outputs == [] && crtcs[c].info.outputs == []
    ensures RowOf(modes, crtcs, o) ==
            Row(o.mode.Some?, o.xid, o.clones, o.crtcIds, (set c | c in o.crtcIds), o.currentCrtc)
  {
    var row := RowOf(modes, crtcs, o);
    assert row.listed == o.crtcIds;
    forall c: nat ensures c in row.fitting <==> c in o.crtcIds {
    }
    assert row.fitting == set c | c in o.crtcIds;
  }

  /** The first pass is content with all but the last, which would have to be a clone of the first. */
  lemma {:induction false} ChainPass(modes: seq<Mode>, n: nat, i: nat)
    requires 1 < n && i < n
    ensures ValidCrtcs(ChainCrtcs(n), ChainOutputs(n))
    ensures PassFrom(modes, ChainCrtcs(n), ChainOutputs(n), i) == Unhappy(ChainOutputs(n))
    decreases n - i
  {
    var crtcs, outs := ChainCrtcs(n), ChainOutputs(n);
    if i < n - 1 {
      assert crtcs[i].info.outputs == [];
      ChainPass(modes, n, i + 1);
    } else {
      ChainIds(n, 0);
      assert outs[0].crtc == Some(0) && outs[0].xid !in outs[i].clones;
      assert outs[i].crtcIds == [0] && !Usable(modes, crtcs, outs, 0, i);
      assert FirstFit(modes, crtcs, outs, i, 1) == FitsNowhere;
    }
  }

  /** From 1001 on no CRTCs are picked for these outputs, although an assignment connects them all. */
  lemma {:induction false} ChainIsGivenUp(modes: seq<Mode>, n: nat)
    requires n >= 1001
    ensures ValidCrtcs(ChainCrtcs(n), ChainOutputs(n))
    ensures Picks(modes, ChainCrtcs(n), ChainOutputs(n)) == None
    ensures Full(SearchRows(modes, ChainCrtcs(n), ChainOutputs(n)), Shifted(n))
      && !ListsUnknown(ChainCrtcs(n), ChainOutputs(n), 0)
  {
    ChainPass(modes, n, 0);
    ChainRows(modes, n);
    FallbackMissesChain(n);
  }
}
