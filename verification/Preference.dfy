/**
  Which CRTCs are picked, told without following the program: what the first pass gives
  each output, and what the search prefers.
 */
module Preference {
  import opened Options
  import opened Display
  import opened CrtcSearch
  import opened CrtcFallback
  import opened CrtcAllocator
  import opened CrtcPicker

  /** The output is to change, and stays on or is turned on. */
  predicate Needs(o: Output) { o.changes != {} && o.mode.Some? }

  /** The server reported nobody on the CRTC but output i, the first one with its id. */
  predicate MayKeep(crtc: Crtc, outs: seq<Output>, i: nat)
    requires i < |outs|
  {
    || crtc.info.outputs == []
    || (crtc.info.outputs == [outs[i].xid] && forall j :: 0 <= j < i ==> outs[j].xid != outs[i].xid)
  }

  lemma {:induction false} OccupiedIs(crtcs: seq<Crtc>, outs: seq<Output>, c: nat, i: nat)
    requires c < |crtcs| && i < |outs|
    ensures Occupied(crtcs, outs, c, i) <==> !MayKeep(crtcs[c], outs, i)
  {
    var users := crtcs[c].info.outputs;
    assert |users| == 1 ==> users == [users[0]];
  }

  /** What the first pass leaves of output k, when left holds what it left of the ones before. */
  ghost predicate GivenAt(modes: seq<Mode>, crtcs: seq<Crtc>, outs: seq<Output>, left: seq<Output>, k: nat)
    requires k < |outs| == |left|
  {
    if !Needs(outs[k]) then left[k] == outs[k]
    else if outs[k].crtc.Some? then
      left[k] == outs[k] && outs[k].crtc.value < |crtcs| && MayKeep(crtcs[outs[k].crtc.value], outs, k)
    else
      && left[k].crtc.Some? && left[k] == outs[k].(crtc := left[k].crtc)
      && FirstUsable(modes, crtcs, left[..k] + outs[k..], k, FitsOn(left[k].crtc.value))
  }

  /** The first n outputs have been visited. */
  ghost predicate GivenUpTo(modes: seq<Mode>, crtcs: seq<Crtc>, outs: seq<Output>, left: seq<Output>, n: nat) {
    && n <= |outs| == |left| && left[n..] == outs[n..]
    && forall k :: 0 <= k < n ==> GivenAt(modes, crtcs, outs, left, k)
  }

  /**
    Output n, the next one, needs a CRTC, but the one it has is in use by others, or looking for
    one ends like this.
   */
  ghost predicate StopsAt(modes: seq<Mode>, crtcs: seq<Crtc>, outs: seq<Output>, left: seq<Output>, n: nat,
                          found: Fit) {
    && n < |outs| && GivenUpTo(modes, crtcs, outs, left, n) && Needs(outs[n])
    && if outs[n].crtc.Some? then
         found == FitsNowhere && outs[n].crtc.value < |crtcs| && !MayKeep(crtcs[outs[n].crtc.value], outs, n)
       else FirstUsable(modes, crtcs, left, n, found)
  }

  /** How the first pass ends. */
  ghost predicate PassedAs(modes: seq<Mode>, crtcs: seq<Crtc>, outs: seq<Output>, pass: FirstPass) {
    match pass
    case Happy(left) => GivenUpTo(modes, crtcs, outs, left, |outs|)
    case Unhappy(left) => exists n: nat :: StopsAt(modes, crtcs, outs, left, n, FitsNowhere)
    case Unknown => exists left, n: nat :: StopsAt(modes, crtcs, outs, left, n, FitUnknown)
  }

  /**
    The first pass gives every output that needs one the first CRTC in its list that it can
    use next to those before it, and stops at the first output that cannot be served so.
   */
  lemma {:induction false} PassServesInOrder(modes: seq<Mode>, crtcs: seq<Crtc>, outs: seq<Output>)
    requires ValidCrtcs(crtcs, outs)
    ensures PassedAs(modes, crtcs, outs, PassFrom(modes, crtcs, outs, 0))
  {
    PassGoesOn(modes, crtcs, outs, outs, 0);
  }

  lemma {:induction false} PassGoesOn(modes: seq<Mode>, crtcs: seq<Crtc>, outs: seq<Output>, now: seq<Output>, i: nat)
    requires ValidCrtcs(crtcs, now) && GivenUpTo(modes, crtcs, outs, now, i)
    ensures PassedAs(modes, crtcs, outs, PassFrom(modes, crtcs, now, i))
    decreases |outs| - i
  {
    if i < |outs| {
      assert now[i] == now[i..][0] == outs[i..][0] == outs[i];
      SameIds(modes, crtcs, outs, now, i);
      if !Needs(now[i]) {
        OneMoreGiven(modes, crtcs, outs, now, now, i);
        PassGoesOn(modes, crtcs, outs, now, i + 1);
      } else if now[i].crtc.Some? {
        OccupiedIs(crtcs, now, now[i].crtc.value, i);
        if Occupied(crtcs, now, now[i].crtc.value, i) {
          assert StopsAt(modes, crtcs, outs, now, i, FitsNowhere);
        } else {
          OneMoreGiven(modes, crtcs, outs, now, now, i);
          PassGoesOn(modes, crtcs, outs, now, i + 1);
        }
      } else {
        var found := FirstFit(modes, crtcs, now, i, 0);
        FirstFitIs(modes, crtcs, now, i, 0);
        if found.FitsOn? {
          var given := now[i := now[i].(crtc := Some(found.c))];
          assert now[..i] + outs[i..] == now;
          OneMoreGiven(modes, crtcs, outs, now, given, i);
          PassGoesOn(modes, crtcs, outs, given, i + 1);
        } else {
          assert StopsAt(modes, crtcs, outs, now, i, found);
        }
      }
    }
  }

  /** The pass changes no ids, so that what the reports say about output i stays. */
  lemma {:induction false} SameIds(modes: seq<Mode>, crtcs: seq<Crtc>, outs: seq<Output>, now: seq<Output>, i: nat)
    requires GivenUpTo(modes, crtcs, outs, now, i) && i < |outs| && now[i] == outs[i]
    ensures forall crtc :: MayKeep(crtc, now, i) == MayKeep(crtc, outs, i)
  {
    forall j | 0 <= j < i ensures now[j].xid == outs[j].xid {
      assert GivenAt(modes, crtcs, outs, now, j);
    }
  }

  lemma {:induction false} OneMoreGiven(modes: seq<Mode>, crtcs: seq<Crtc>, outs: seq<Output>, now: seq<Output>,
                                        next: seq<Output>, i: nat)
    requires i < |outs| && GivenUpTo(modes, crtcs, outs, now, i) && |next| == |now| && next == now[i := next[i]]
    requires GivenAt(modes, crtcs, outs, next, i)
    ensures GivenUpTo(modes, crtcs, outs, next, i + 1)
  {
    assert next[i + 1..] == now[i..][1..] == outs[i..][1..] == outs[i + 1..];
    forall k | 0 <= k < i ensures GivenAt(modes, crtcs, outs, next, k) {
      assert GivenAt(modes, crtcs, outs, now, k) && next[..k] == now[..k];
    }
  }

  /** The output's list leads to the CRTC. */
  predicate LeadsTo(crtcs: seq<Crtc>, o: Output, c: nat) {
    c < |crtcs| && exists l :: 0 <= l < |o.crtcIds| && FindCrtc(crtcs, o.crtcIds[l]) == c
  }

  /**
    Output k is enabled, lists its CRTC, agrees with what that shows and is a clone of the
    enabled outputs before it there.
   */
  predicate MayHave(modes: seq<Mode>, crtcs: seq<Crtc>, outs: seq<Output>, a: Assignment, k: nat)
    requires k < |a| == |outs| && a[k].Some?
  {
    && outs[k].mode.Some? && LeadsTo(crtcs, outs[k], a[k].value) && Fits(modes, crtcs[a[k].value], outs[k])
    && forall j :: 0 <= j < k && a[j] == a[k] && outs[j].mode.Some? ==> outs[j].xid in outs[k].clones
  }

  /** A way to hand out CRTCs. */
  predicate HandsOut(modes: seq<Mode>, crtcs: seq<Crtc>, outs: seq<Output>, a: Assignment) {
    |a| == |outs| && forall k :: 0 <= k < |a| && a[k].Some? ==> MayHave(modes, crtcs, outs, a, k)
  }

  /** It leaves no enabled output dark. */
  predicate Serves(outs: seq<Output>, a: Assignment) {
    |a| == |outs| && forall k :: 0 <= k < |a| && outs[k].mode.Some? ==> a[k].Some?
  }

  /** How many outputs, from output i on, have in a the CRTC they have in outs. */
  function KeptCrtcs(outs: seq<Output>, a: Assignment, i: nat): nat
    requires |a| == |outs| && i <= |a|
    decreases |a| - i
  {
    if i == |a| then 0 else (if a[i].Some? && a[i] == outs[i].crtc then 1 else 0) + KeptCrtcs(outs, a, i + 1)
  }

  lemma {:induction false} HandsOutOne(modes: seq<Mode>, crtcs: seq<Crtc>, outs: seq<Output>, k: nat, c: nat)
    requires k < |outs|
    ensures var row := SearchRows(modes, crtcs, outs)[k];
            && row.enabled == outs[k].mode.Some? && row.xid == outs[k].xid && row.clones == outs[k].clones
            && row.current == outs[k].crtc
            && (c in row.listed && c in row.fitting <==> LeadsTo(crtcs, outs[k], c) && Fits(modes, crtcs[c], outs[k]))
  {
    var o := Remembered(outs)[k];
    var row := RowOf(modes, crtcs, o);
    assert SearchRows(modes, crtcs, outs)[k] == row;
    if c in row.listed {
      var l :| 0 <= l < |row.listed| && row.listed[l] == c;
      assert FindCrtc(crtcs, o.crtcIds[l]) == c;
    }
    if LeadsTo(crtcs, o, c) {
      var l :| 0 <= l < |o.crtcIds| && FindCrtc(crtcs, o.crtcIds[l]) == c;
      assert row.listed[l] == c;
    }
  }

  /** To the search these are the feasible assignments. */
  lemma {:induction false} HandsOutIsFeasible(modes: seq<Mode>, crtcs: seq<Crtc>, outs: seq<Output>, a: Assignment)
    requires |a| == |outs|
    ensures HandsOut(modes, crtcs, outs, a) <==> Feasible(SearchRows(modes, crtcs, outs), a, 0)
    ensures KeptCrtcs(outs, a, 0) == Kept(SearchRows(modes, crtcs, outs), a, 0)
    ensures HandsOut(modes, crtcs, outs, a) && Serves(outs, a) <==> Full(SearchRows(modes, crtcs, outs), a)
  {
    var rows := SearchRows(modes, crtcs, outs);
    forall k | 0 <= k < |a| ensures rows[k].enabled == outs[k].mode.Some? && rows[k].current == outs[k].crtc {
      HandsOutOne(modes, crtcs, outs, k, 0);
    }
    forall k | 0 <= k < |a| && a[k].Some?
      ensures Allowed(rows, a[..k], a[k].value) <==> MayHave(modes, crtcs, outs, a, k)
    {
      AllowedIs(modes, crtcs, outs, a, k);
    }
    KeptAgree(rows, outs, a, 0);
  }

  lemma {:induction false} AllowedIs(modes: seq<Mode>, crtcs: seq<Crtc>, outs: seq<Output>, a: Assignment, k: nat)
    requires k < |a| == |outs| && a[k].Some?
    ensures Allowed(SearchRows(modes, crtcs, outs), a[..k], a[k].value) <==> MayHave(modes, crtcs, outs, a, k)
  {
    var rows := SearchRows(modes, crtcs, outs);
    HandsOutOne(modes, crtcs, outs, k, a[k].value);
    forall j | 0 <= j < k
      ensures rows[j].enabled == outs[j].mode.Some? && rows[j].xid == outs[j].xid && a[..k][j] == a[j]
    {
      HandsOutOne(modes, crtcs, outs, j, 0);
    }
  }

  lemma {:induction false} KeptAgree(rows: seq<Row>, outs: seq<Output>, a: Assignment, i: nat)
    requires |rows| == |outs| == |a| && i <= |a| && forall k :: 0 <= k < |a| ==> rows[k].current == outs[k].crtc
    ensures KeptCrtcs(outs, a, i) == Kept(rows, a, i)
    decreases |a| - i
  {
    if i < |a| {
      KeptAgree(rows, outs, a, i + 1);
    }
  }

  /**
    Who is connected and who keeps its CRTC: the assignment counts as many as there are
    connections exactly when all are kept.
   */
  lemma {:induction false} AllKeptWhen(outs: seq<Output>, a: Assignment, i: nat)
    requires |a| == |outs| && i <= |a|
    ensures KeptCrtcs(outs, a, i) <= Connected(a, i)
    ensures KeptCrtcs(outs, a, i) == Connected(a, i) <==>
      forall k :: i <= k < |a| && a[k].Some? ==> a[k] == outs[k].crtc
    decreases |a| - i
  {
    if i < |a| {
      AllKeptWhen(outs, a, i + 1);
    }
  }

  /**
    What the search prefers, up to 1000 enabled outputs: it serves all of them if that can be
    done at all, and of all the ways to do so it takes one that lets most of them keep their CRTC.
   */
  lemma {:induction false} SearchKeepsMost(modes: seq<Mode>, crtcs: seq<Crtc>, outs: seq<Output>, a: Assignment)
    requires !ListsUnknown(crtcs, outs, 0) && Enabled(SearchRows(modes, crtcs, outs), 0) <= 1000
    requires HandsOut(modes, crtcs, outs, a) && Serves(outs, a)
    ensures Swapped(modes, crtcs, outs).Some?
    ensures var found := CrtcsOf(Swapped(modes, crtcs, outs).value);
            && |found| == |outs| && HandsOut(modes, crtcs, outs, found) && Serves(outs, found)
            && KeptCrtcs(outs, a, 0) <= KeptCrtcs(outs, found, 0)
  {
    var rows := SearchRows(modes, crtcs, outs);
    HandsOutIsFeasible(modes, crtcs, outs, a);
    FallbackIsComplete(rows);
    BestKeepsMost(rows, a);
    var best := Best(rows, []).crtcs;
    HandsOutIsFeasible(modes, crtcs, outs, best);
    ConnectedUpToEnabled(rows, a, 0);
    ConnectedUpToEnabled(rows, best, 0);
    FoundCrtcs(outs, best);
  }

  lemma {:induction false} FoundCrtcs(outs: seq<Output>, a: Assignment)
    requires |a| == |outs|
    ensures |Moved(Remembered(outs), a)| == |outs| && CrtcsOf(Moved(Remembered(outs), a)) == a
  {
    var moved := Moved(Remembered(outs), a);
    forall k | 0 <= k < |outs| ensures moved[k].crtc == a[k] {
    }
  }

  /** So if the enabled outputs have CRTCs that could be handed out like that, the search moves none of them. */
  lemma {:induction false} NothingToMove(modes: seq<Mode>, crtcs: seq<Crtc>, outs: seq<Output>)
    requires !ListsUnknown(crtcs, outs, 0) && Enabled(SearchRows(modes, crtcs, outs), 0) <= 1000
    requires HandsOut(modes, crtcs, outs, CrtcsOf(outs)) && Serves(outs, CrtcsOf(outs))
    ensures Swapped(modes, crtcs, outs).Some?
    ensures CrtcsOf(Swapped(modes, crtcs, outs).value) == CrtcsOf(outs)
  {
    var own := CrtcsOf(outs);
    SearchKeepsMost(modes, crtcs, outs, own);
    var found := CrtcsOf(Swapped(modes, crtcs, outs).value);
    AllKeptWhen(outs, own, 0);
    AllKeptWhen(outs, found, 0);
    SameConnected(outs, own, found, 0);
    forall k | 0 <= k < |outs| ensures found[k] == own[k] {
      assert found[k].Some? ==> MayHave(modes, crtcs, outs, found, k);
      assert own[k].Some? ==> MayHave(modes, crtcs, outs, own, k);
    }
  }

  /** Two assignments that serve all enabled outputs, and no others, connect equally many. */
  lemma {:induction false} SameConnected(outs: seq<Output>, a: Assignment, b: Assignment, i: nat)
    requires |a| == |b| == |outs| && i <= |a|
    requires forall k :: 0 <= k < |a| ==> a[k].Some? == outs[k].mode.Some? == b[k].Some?
    ensures Connected(a, i) == Connected(b, i)
    decreases |a| - i
  {
    if i < |a| {
      SameConnected(outs, a, b, i + 1);
    }
  }

  /** An output is marked exactly when it had no changes and has another CRTC than before. */
  predicate MarkedIfMoved(o: Output, o': Output) {
    o'.changes == if o.changes == {} && o'.crtc != o.crtc then {ChangeCrtc} else o.changes
  }

  /** The first pass takes no CRTC away and marks nothing. */
  lemma {:induction false} PassTakesNothing(modes: seq<Mode>, crtcs: seq<Crtc>, outs: seq<Output>, left: seq<Output>,
                                            n: nat, k: nat)
    requires GivenUpTo(modes, crtcs, outs, left, n) && k < |outs|
    ensures left[k].changes == outs[k].changes
      && (outs[k].crtc.Some? || !Needs(outs[k]) ==> left[k].crtc == outs[k].crtc)
  {
    if k < n {
      assert GivenAt(modes, crtcs, outs, left, k);
    } else {
      assert left[k] == left[n..][k - n] == outs[n..][k - n];
    }
  }

  /** Whatever way is taken, the marks tell exactly who was moved. */
  lemma {:induction false} PicksMarkMoved(modes: seq<Mode>, crtcs: seq<Crtc>, outs: seq<Output>, k: nat)
    requires ValidCrtcs(crtcs, outs) && Picks(modes, crtcs, outs).Some? && k < |outs|
    ensures var picked := Picks(modes, crtcs, outs).value;
            |picked| == |outs| && MarkedIfMoved(outs[k], picked[k])
  {
    var pass := PassFrom(modes, crtcs, outs, 0);
    PassServesInOrder(modes, crtcs, outs);
    if pass.Happy? {
      PassTakesNothing(modes, crtcs, outs, pass.outs, |outs|, k);
    } else {
      var n: nat :| StopsAt(modes, crtcs, outs, pass.outs, n, FitsNowhere);
      PassTakesNothing(modes, crtcs, outs, pass.outs, n, k);
    }
  }

  /**
    What PickCrtcs leaves of the CRTCs the outputs had.  When the first pass succeeds all
    keep theirs.  Otherwise the search starts from what the first pass has given so far, and
    no other way to serve everybody keeps more of that.
   */
  lemma {:induction false} PicksKeepMost(modes: seq<Mode>, crtcs: seq<Crtc>, outs: seq<Output>, a: Assignment)
    requires ValidCrtcs(crtcs, outs)
    ensures var pass := PassFrom(modes, crtcs, outs, 0);
            !pass.Unknown? ==>
              && |pass.outs| == |outs|
              && (forall k :: 0 <= k < |outs| && outs[k].crtc.Some? ==> pass.outs[k].crtc == outs[k].crtc)
    ensures var pass := PassFrom(modes, crtcs, outs, 0);
            pass.Happy? ==> Picks(modes, crtcs, outs) == Some(pass.outs)
    ensures var pass := PassFrom(modes, crtcs, outs, 0);
            && pass.Unhappy? && !ListsUnknown(crtcs, pass.outs, 0)
            && Enabled(SearchRows(modes, crtcs, pass.outs), 0) <= 1000
            && HandsOut(modes, crtcs, pass.outs, a) && Serves(pass.outs, a) ==>
              && Picks(modes, crtcs, outs).Some? && |Picks(modes, crtcs, outs).value| == |outs|
              && KeptCrtcs(pass.outs, a, 0) <= KeptCrtcs(pass.outs, CrtcsOf(Picks(modes, crtcs, outs).value), 0)
  {
    var pass := PassFrom(modes, crtcs, outs, 0);
    PassServesInOrder(modes, crtcs, outs);
    if !pass.Unknown? {
      var n: nat :| n <= |outs| && GivenUpTo(modes, crtcs, outs, pass.outs, n);
      forall k | 0 <= k < |outs| && outs[k].crtc.Some? ensures pass.outs[k].crtc == outs[k].crtc {
        PassTakesNothing(modes, crtcs, outs, pass.outs, n, k);
      }
    }
    if && pass.Unhappy? && !ListsUnknown(crtcs, pass.outs, 0)
       && Enabled(SearchRows(modes, crtcs, pass.outs), 0) <= 1000
       && HandsOut(modes, crtcs, pass.outs, a) && Serves(pass.outs, a) {
      SearchKeepsMost(modes, crtcs, pass.outs, a);
    }
  }
}
