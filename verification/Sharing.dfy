/**
  When two outputs end up on one CRTC, by either way of picking CRTCs.  An output that
  already has a CRTC is never checked for compatibility, so that outputs can share a
  CRTC that cannot show both of them as planned.
 */
module Sharing {
  import opened Options
  import opened Display
  import opened CrtcSearch
  import opened CrtcFallback
  import opened CrtcAllocator
  import opened CrtcPicker
  import opened Agreement
  import opened Planning

  /** The output had the CRTC before any was picked. */
  predicate Keeps(o: Output, c: nat) { o.crtc == Some(c) }

  /** The output lists the CRTC and agrees with the state it shows, if it shows any. */
  predicate Suits(modes: seq<Mode>, crtc: Crtc, o: Output) {
    crtc.xid in o.crtcIds && Fits(modes, crtc, o)
  }

  /** Output p may be added to a CRTC that has output o. */
  predicate Joins(modes: seq<Mode>, crtc: Crtc, o: Output, p: Output) {
    Suits(modes, crtc, p) && o.xid in p.clones
  }

  /** Why the outputs j and k, of which only those from the i-th on were visited, share CRTC c. */
  predicate Explained(modes: seq<Mode>, crtcs: seq<Crtc>, outs: seq<Output>, i: nat, j: nat, k: nat, c: nat)
    requires j < |outs| && k < |outs| && c < |crtcs|
  {
    || (Keeps(outs[j], c) && Keeps(outs[k], c))
    || CameSecond(modes, crtcs, outs, i, j, k, c) || CameSecond(modes, crtcs, outs, i, k, j, c)
  }

  /** Output k was given the CRTC when j had it, either from the start or just given. */
  predicate CameSecond(modes: seq<Mode>, crtcs: seq<Crtc>, outs: seq<Output>, i: nat, j: nat, k: nat, c: nat)
    requires j < |outs| && k < |outs| && c < |crtcs|
  {
    && i <= k && outs[k].crtc.None? && Joins(modes, crtcs[c], outs[j], outs[k])
    && (Keeps(outs[j], c) || (i <= j < k && outs[j].crtc.None? && Suits(modes, crtcs[c], outs[j])))
  }

  lemma {:induction false} FirstFitSuits(modes: seq<Mode>, crtcs: seq<Crtc>, outs: seq<Output>, i: nat, k: nat)
    requires i < |outs| && k <= |outs[i].crtcIds| && FirstFit(modes, crtcs, outs, i, k).FitsOn?
    ensures var c := FirstFit(modes, crtcs, outs, i, k).c; c < |crtcs| && Usable(modes, crtcs, outs, c, i)
    decreases |outs[i].crtcIds| - k
  {
    var c := FindCrtc(crtcs, outs[i].crtcIds[k]);
    if c < |crtcs| && !Usable(modes, crtcs, outs, c, i) {
      FirstFitSuits(modes, crtcs, outs, i, k + 1);
    }
  }

  /** The first pass: what is shared at the end of it was kept, or was found usable by the one that came second. */
  lemma {:induction false} PassExplains(modes: seq<Mode>, crtcs: seq<Crtc>, outs: seq<Output>, i: nat, j: nat, k: nat,
                                        c: nat)
    requires i <= |outs| && ValidCrtcs(crtcs, outs) && PassFrom(modes, crtcs, outs, i).Happy?
    requires j < |outs| && k < |outs| && j != k && outs[j].mode.Some? && outs[k].mode.Some? && c < |crtcs|
    requires var picked := PassFrom(modes, crtcs, outs, i).outs;
             |picked| == |outs| && Keeps(picked[j], c) && Keeps(picked[k], c)
    ensures Explained(modes, crtcs, outs, i, j, k, c)
    decreases |outs| - i
  {
    if i == |outs| {
    } else if outs[i].changes == {} || outs[i].mode.None? || outs[i].crtc.Some? {
      PassExplains(modes, crtcs, outs, i + 1, j, k, c);
    } else {
      var d := FirstFit(modes, crtcs, outs, i, 0).c;
      FirstFitSuits(modes, crtcs, outs, i, 0);
      PassExplains(modes, crtcs, outs[i := outs[i].(crtc := Some(d))], i + 1, j, k, c);
      GivenExplains(modes, crtcs, outs, i, d, j, k, c);
    }
  }

  /** What explains the sharing after output i was given a CRTC it can use explains it before. */
  lemma {:induction false} GivenExplains(modes: seq<Mode>, crtcs: seq<Crtc>, outs: seq<Output>, i: nat, d: nat,
                                         j: nat, k: nat, c: nat)
    requires i < |outs| && d < |crtcs| && outs[i].crtc.None? && Usable(modes, crtcs, outs, d, i)
    requires j < |outs| && k < |outs| && j != k && outs[j].mode.Some? && outs[k].mode.Some? && c < |crtcs|
    requires Explained(modes, crtcs, outs[i := outs[i].(crtc := Some(d))], i + 1, j, k, c)
    ensures Explained(modes, crtcs, outs, i, j, k, c)
  {
  }

  /** Only a CRTC that is idle, or that only the output itself uses, is kept by a changed output. */
  lemma {:induction false} KeptIsFree(modes: seq<Mode>, crtcs: seq<Crtc>, outs: seq<Output>, i: nat, j: nat)
    requires i <= j < |outs| && ValidCrtcs(crtcs, outs) && PassFrom(modes, crtcs, outs, i).Happy?
    requires outs[j].mode.Some? && outs[j].changes != {} && outs[j].crtc.Some?
    ensures var users := crtcs[outs[j].crtc.value].info.outputs; users == [] || users == [outs[j].xid]
    decreases j - i
  {
    if i == j {
      var users := crtcs[outs[j].crtc.value].info.outputs;
      assert |users| == 1 ==> users == [users[0]];
    } else if outs[i].changes == {} || outs[i].mode.None? || outs[i].crtc.Some? {
      KeptIsFree(modes, crtcs, outs, i + 1, j);
    } else {
      var d := FirstFit(modes, crtcs, outs, i, 0).c;
      KeptIsFree(modes, crtcs, outs[i := outs[i].(crtc := Some(d))], i + 1, j);
    }
  }

  /** The search: both suit the CRTC, and the later one lists the earlier one as a clone. */
  lemma {:induction false} SearchExplains(modes: seq<Mode>, crtcs: seq<Crtc>, outs: seq<Output>, j: nat, k: nat, c: nat)
    requires j < k < |outs| && c < |crtcs| && Swapped(modes, crtcs, outs).Some?
    requires var picked := Swapped(modes, crtcs, outs).value; Keeps(picked[j], c) && Keeps(picked[k], c)
    ensures Suits(modes, crtcs[c], outs[j]) && Joins(modes, crtcs[c], outs[j], outs[k])
  {
    var rows := SearchRows(modes, crtcs, outs);
    var a := Best(rows, []).crtcs;
    assert a[j] == Some(c) && a[k] == Some(c);
    assert Allowed(rows, a[..j], c) && Allowed(rows, a[..k], c) && a[..k][j] == Some(c);
    ListedSuits(modes, crtcs, outs, j, c);
    ListedSuits(modes, crtcs, outs, k, c);
  }

  lemma {:induction false} ListedSuits(modes: seq<Mode>, crtcs: seq<Crtc>, outs: seq<Output>, k: nat, c: nat)
    requires k < |outs| && c < |crtcs|
    ensures var row := SearchRows(modes, crtcs, outs)[k];
            && row.xid == outs[k].xid && row.clones == outs[k].clones
            && (c in row.listed && c in row.fitting ==> Suits(modes, crtcs[c], outs[k]))
  {
    var o := Remembered(outs)[k];
    var row := RowOf(modes, crtcs, o);
    assert SearchRows(modes, crtcs, outs)[k] == row;
    if c in row.listed {
      var l :| 0 <= l < |row.listed| && row.listed[l] == c;
      assert FindCrtc(crtcs, o.crtcIds[l]) == c;
    }
  }

  /**
    Two outputs share a CRTC only if both had it before, or one of them may be added to
    the other one: it lists the CRTC and the other output, and agrees with what the CRTC shows.
   */
  lemma {:induction false} SharersKeepOrJoin(modes: seq<Mode>, crtcs: seq<Crtc>, outs: seq<Output>, j: nat, k: nat,
                                             c: nat)
    requires ValidCrtcs(crtcs, outs) && Picks(modes, crtcs, outs).Some? && j < k < |outs| && c < |crtcs|
    requires forall l :: 0 <= l < |outs| && outs[l].mode.Some? && outs[l].changes == {} ==> outs[l].crtc.Some?
    requires outs[j].mode.Some? && outs[k].mode.Some?
    requires var picked := Picks(modes, crtcs, outs).value;
             |picked| == |outs| && Keeps(picked[j], c) && Keeps(picked[k], c)
    ensures || (Keeps(outs[j], c) && Keeps(outs[k], c))
            || Joins(modes, crtcs[c], outs[j], outs[k])
            || (Joins(modes, crtcs[c], outs[k], outs[j]) && Keeps(outs[k], c))
  {
    var pass := PassFrom(modes, crtcs, outs, 0);
    PassKeepsUnchanged(modes, crtcs, outs, 0);
    if pass.Happy? {
      PassExplains(modes, crtcs, outs, 0, j, k, c);
    } else {
      SearchExplains(modes, crtcs, pass.outs, j, k, c);
      assert pass.outs[k] ==
        outs[k].(crtc := pass.outs[k].crtc, currentCrtc := pass.outs[k].currentCrtc, changes := pass.outs[k].changes);
    }
  }

  /** The output has the state the server reported for the CRTC. */
  predicate Reports(modes: seq<Mode>, crtc: Crtc, o: Output) {
    && FindMode(modes, crtc.info.mode) == o.mode
    && crtc.info.x == o.x && crtc.info.y == o.y && crtc.info.rotation == o.rotation
  }

  /** The output keeps a CRTC that it alone used, and another one is added that agrees with what the CRTC showed. */
  predicate JoinsOld(modes: seq<Mode>, crtc: Crtc, c: nat, o: Output, p: Output) {
    && Keeps(o, c) && !Keeps(p, c) && crtc.info.outputs == [o.xid]
    && Reports(modes, crtc, p) && o.xid in p.clones
  }

  /** Outputs o and p, in this order, can end up on CRTC c although they do not agree. */
  predicate MayDisagree(modes: seq<Mode>, crtc: Crtc, c: nat, o: Output, p: Output) {
    if crtc.info.outputs == [] then
      (Keeps(o, c) && Keeps(p, c)) || o.xid in p.clones || (Keeps(p, c) && p.xid in o.clones)
    else JoinsOld(modes, crtc, c, o, p) || JoinsOld(modes, crtc, c, p, o)
  }

  /**
    However many outputs and CRTCs there are, two outputs that do not agree end up on one
    CRTC only in these cases: it is idle, and both had it or one lists the other as a
    clone; or one of them keeps it as its only user, and the other one lists that one as
    a clone and agrees with what the CRTC showed before.
   */
  lemma {:induction false} DisagreeingSharers(modes: seq<Mode>, crtcs: seq<Crtc>, outs: seq<Output>, j: nat, k: nat,
                                              c: nat)
    requires ValidCrtcs(crtcs, outs) && Agreeing(outs, modes, crtcs) && Picks(modes, crtcs, outs).Some?
    requires j < k < |outs| && c < |crtcs| && crtcs[c].outputs == []
    requires outs[j].mode.Some? && outs[k].mode.Some? && !Agree(outs[j], outs[k])
    requires var picked := Picks(modes, crtcs, outs).value;
             |picked| == |outs| && Keeps(picked[j], c) && Keeps(picked[k], c)
    ensures MayDisagree(modes, crtcs[c], c, outs[j], outs[k])
  {
    var pass := PassFrom(modes, crtcs, outs, 0);
    forall l | 0 <= l < |outs| && outs[l].changes == {} ensures AsReported(outs[l], modes, crtcs) {
    }
    SharersKeepOrJoin(modes, crtcs, outs, j, k, c);
    if crtcs[c].info.outputs != [] {
      PassKeepsUnchanged(modes, crtcs, outs, 0);
      if pass.Happy? {
        PassExplains(modes, crtcs, outs, 0, j, k, c);
        if Keeps(outs[j], c) && outs[j].changes != {} {
          KeptIsFree(modes, crtcs, outs, 0, j);
        }
        if Keeps(outs[k], c) && outs[k].changes != {} {
          KeptIsFree(modes, crtcs, outs, 0, k);
        }
      } else {
        SearchExplains(modes, crtcs, pass.outs, j, k, c);
      }
    }
  }

  /** Every CRTC the output lists is this one, and it has no other. */
  predicate ListsOnly(crtc: Crtc, o: Output) {
    && o.crtcIds != [] && (forall l :: 0 <= l < |o.crtcIds| ==> o.crtcIds[l] == crtc.xid)
    && (o.crtc == None || o.crtc == Some(0))
  }

  lemma {:induction false} FirstFitOnOne(modes: seq<Mode>, crtc: Crtc, outs: seq<Output>, i: nat, k: nat)
    requires i < |outs| && ListsOnly(crtc, outs[i]) && k < |outs[i].crtcIds|
    ensures FirstFit(modes, [crtc], outs, i, k) == if Usable(modes, [crtc], outs, 0, i) then FitsOn(0) else FitsNowhere
    decreases |outs[i].crtcIds| - k
  {
    assert FindCrtc([crtc], outs[i].crtcIds[k]) == 0;
    if k + 1 < |outs[i].crtcIds| {
      FirstFitOnOne(modes, crtc, outs, i, k + 1);
    }
  }

  /** The CRTC is idle, or only the output uses it. */
  predicate FreeFor(crtc: Crtc, o: Output) { crtc.info.outputs == [] || crtc.info.outputs == [o.xid] }

  /** The first pass is content with an output, when q is the other one. */
  predicate Content(modes: seq<Mode>, crtc: Crtc, o: Output, q: Output) {
    if o.crtc.Some? then FreeFor(crtc, o) else Fits(modes, crtc, o) && (q.crtc.Some? ==> q.xid in o.clones)
  }

  /** Two changed outputs that list nothing but one CRTC, with no plan for it yet. */
  predicate TwoOnOne(crtc: Crtc, o: Output, p: Output) {
    && crtc.outputs == [] && o.xid != p.xid
    && o.mode.Some? && o.changes != {} && ListsOnly(crtc, o)
    && p.mode.Some? && p.changes != {} && ListsOnly(crtc, p)
  }

  lemma {:induction false} OccupiedOnOne(crtc: Crtc, o: Output, p: Output)
    requires TwoOnOne(crtc, o, p)
    ensures Occupied([crtc], [o, p], 0, 0) <==> !FreeFor(crtc, o)
    ensures Occupied([crtc], [o, p], 0, 1) <==> !FreeFor(crtc, p)
  {
    var users, outs := crtc.info.outputs, [o, p];
    assert outs[0] == o && outs[1] == p;
    if |users| == 1 {
      assert users == [users[0]];
      assert FindOutput(outs, users[0]) == 0 <==> users[0] == o.xid;
      assert FindOutput(outs, users[0]) == 1 <==> users[0] == p.xid;
    }
  }

  lemma {:induction false} UsableOnOne(modes: seq<Mode>, crtc: Crtc, o: Output, p: Output)
    requires TwoOnOne(crtc, o, p)
    ensures Usable(modes, [crtc], [o, p], 0, 0) <==> Fits(modes, crtc, o) && (p.crtc.Some? ==> p.xid in o.clones)
    ensures Usable(modes, [crtc], [o, p], 0, 1) <==> Fits(modes, crtc, p) && (o.crtc.Some? ==> o.xid in p.clones)
  {
    assert crtc.xid == o.crtcIds[0] && crtc.xid == p.crtcIds[0];
    assert [o, p][0] == o && [o, p][1] == p;
  }

  /** The first pass over two outputs and one CRTC. */
  lemma {:induction false} PassOnOne(modes: seq<Mode>, crtc: Crtc, o: Output, p: Output)
    requires TwoOnOne(crtc, o, p)
    ensures ValidCrtcs([crtc], [o, p])
    ensures var o', p' := o.(crtc := Some(0)), p.(crtc := Some(0));
            PassFrom(modes, [crtc], [o, p], 0) ==
              if !Content(modes, crtc, o, p) then Unhappy([o, p])
              else if !Content(modes, crtc, p, o') then Unhappy([o', p]) else Happy([o', p'])
  {
    var o', p' := o.(crtc := Some(0)), p.(crtc := Some(0));
    assert ValidCrtcs([crtc], [o, p]) && ValidCrtcs([crtc], [o', p]) && ValidCrtcs([crtc], [o', p']);
    OccupiedOnOne(crtc, o, p);
    OccupiedOnOne(crtc, o', p);
    UsableOnOne(modes, crtc, o, p);
    UsableOnOne(modes, crtc, o', p);
    FirstFitOnOne(modes, crtc, [o, p], 0, 0);
    FirstFitOnOne(modes, crtc, [o', p], 1, 0);
    assert [o, p][0 := o'] == [o', p] && [o', p][1 := p'] == [o', p'];
    assert o.crtc.Some? ==> o == o';
    assert p.crtc.Some? ==> p == p';
    assert PassFrom(modes, [crtc], [o', p'], 2) == Happy([o', p']);
    assert PassFrom(modes, [crtc], [o', p], 1) == if Content(modes, crtc, p, o') then Happy([o', p'])
      else Unhappy([o', p]);
  }

  /** When the first pass fails on an idle CRTC, the search puts both on it if the second lists the first as a clone. */
  lemma {:induction false} SearchOnOne(modes: seq<Mode>, crtc: Crtc, o: Output, p: Output)
    requires TwoOnOne(crtc, o, p) && crtc.info.outputs == [] && o.xid in p.clones
    ensures Swapped(modes, [crtc], [o, p]).Some?
  {
    var outs := [o, p];
    var rows := SearchRows(modes, [crtc], outs);
    forall k | 0 <= k < 2
      ensures rows[k].enabled && 0 in rows[k].listed && 0 in rows[k].fitting
      ensures rows[k].xid == outs[k].xid && rows[k].clones == outs[k].clones && Known([crtc], outs[k])
    {
      var r := Remembered(outs)[k];
      assert rows[k] == RowOf(modes, [crtc], r) && r.crtcIds[0] == crtc.xid;
      assert rows[k].listed[0] == FindCrtc([crtc], r.crtcIds[0]) == 0;
    }
    var a: Assignment := [Some(0), Some(0)];
    assert Allowed(rows, a[..0], 0) && Allowed(rows, a[..1], 0);
    assert Full(rows, a);
    assert Enabled(rows, 0) <= 2 by {
      assert Enabled(rows, 2) == 0 && Enabled(rows, 1) <= 1;
    }
    FallbackIsComplete(rows);
  }

  /**
    These cases are exact: with one CRTC and two changed outputs that do not agree, both
    end up on it in each of them, and in no other case does picking CRTCs succeed.
   */
  lemma {:induction false} DisagreeingOnOneCrtc(modes: seq<Mode>, crtc: Crtc, o: Output, p: Output)
    requires TwoOnOne(crtc, o, p) && !Agree(o, p)
    ensures ValidCrtcs([crtc], [o, p])
    ensures var picks := Picks(modes, [crtc], [o, p]);
            && (picks.Some? <==> MayDisagree(modes, crtc, 0, o, p))
            && (picks.Some? ==> |picks.value| == 2 && Keeps(picks.value[0], 0) && Keeps(picks.value[1], 0))
  {
    var outs := [o, p];
    PassOnOne(modes, crtc, o, p);
    if Picks(modes, [crtc], outs).Some? {
      PicksKeep(modes, [crtc], outs);
      var picked := Picks(modes, [crtc], outs).value;
      assert outs[0] == o && outs[1] == p;
      assert picked[0].crtc.Some? && picked[1].crtc.Some?;
      DisagreeingSharers(modes, [crtc], outs, 0, 1, 0);
    }
    if MayDisagree(modes, crtc, 0, o, p) && !PassFrom(modes, [crtc], outs, 0).Happy? {
      SearchOnOne(modes, crtc, o, p);
      SearchOnOne(modes, crtc, o.(crtc := Some(0)), p);
    }
  }

  /** Without clones, and when no two outputs have one CRTC from the start, no CRTC is shared. */
  lemma {:induction false} NoClonesNoSharing(modes: seq<Mode>, crtcs: seq<Crtc>, outs: seq<Output>, j: nat, k: nat)
    requires ValidCrtcs(crtcs, outs) && Picks(modes, crtcs, outs).Some? && j < k < |outs|
    requires forall l :: 0 <= l < |outs| && outs[l].mode.Some? && outs[l].changes == {} ==> outs[l].crtc.Some?
    requires outs[j].mode.Some? && outs[k].mode.Some? && outs[j].clones == outs[k].clones == []
    requires outs[j].crtc.Some? ==> outs[j].crtc != outs[k].crtc
    ensures var picked := Picks(modes, crtcs, outs).value;
            |picked| == |outs| && picked[j].crtc.Some? && picked[j].crtc != picked[k].crtc
  {
    PicksKeep(modes, crtcs, outs);
    var picked := Picks(modes, crtcs, outs).value;
    assert picked[j].crtc.Some? && picked[k].crtc.Some?;
    if picked[j].crtc == picked[k].crtc {
      SharersKeepOrJoin(modes, crtcs, outs, j, k, picked[j].crtc.value);
    }
  }

  /** An output gets only a CRTC it lists, or keeps the one it had. */
  lemma {:induction false} PassLists(modes: seq<Mode>, crtcs: seq<Crtc>, outs: seq<Output>, i: nat, k: nat)
    requires i <= |outs| && k < |outs| && ValidCrtcs(crtcs, outs) && PassFrom(modes, crtcs, outs, i).Happy?
    ensures var picked := PassFrom(modes, crtcs, outs, i).outs;
            |picked| == |outs| && (picked[k].crtc == outs[k].crtc ||
              (picked[k].crtc.Some? && picked[k].crtc.value < |crtcs|
                && crtcs[picked[k].crtc.value].xid in outs[k].crtcIds))
    decreases |outs| - i
  {
    if i == |outs| {
    } else if outs[i].changes == {} || outs[i].mode.None? || outs[i].crtc.Some? {
      PassLists(modes, crtcs, outs, i + 1, k);
    } else {
      var d := FirstFit(modes, crtcs, outs, i, 0).c;
      FirstFitSuits(modes, crtcs, outs, i, 0);
      PassLists(modes, crtcs, outs[i := outs[i].(crtc := Some(d))], i + 1, k);
    }
  }

  lemma {:induction false} PicksList(modes: seq<Mode>, crtcs: seq<Crtc>, outs: seq<Output>, k: nat)
    requires ValidCrtcs(crtcs, outs) && Picks(modes, crtcs, outs).Some? && k < |outs| && outs[k].mode.Some?
    requires forall l :: 0 <= l < |outs| && outs[l].mode.Some? && outs[l].changes == {} ==> outs[l].crtc.Some?
    ensures var picked := Picks(modes, crtcs, outs).value;
            && |picked| == |outs| && picked[k].crtc.Some? && picked[k].crtc.value < |crtcs|
            && (picked[k].crtc == outs[k].crtc || crtcs[picked[k].crtc.value].xid in outs[k].crtcIds)
  {
    PicksKeep(modes, crtcs, outs);
    var pass, picked := PassFrom(modes, crtcs, outs, 0), Picks(modes, crtcs, outs).value;
    assert picked[k].crtc.Some?;
    if pass.Happy? {
      PassLists(modes, crtcs, outs, 0, k);
    } else {
      PassKeepsUnchanged(modes, crtcs, outs, 0);
      var c := picked[k].crtc.value;
      var rows := SearchRows(modes, crtcs, pass.outs);
      var a := Best(rows, []).crtcs;
      assert a[k] == Some(c) && Allowed(rows, a[..k], c);
      ListedSuits(modes, crtcs, pass.outs, k, c);
      assert pass.outs[k] ==
        outs[k].(crtc := pass.outs[k].crtc, currentCrtc := pass.outs[k].currentCrtc, changes := pass.outs[k].changes);
    }
  }

  /** A monitor at the origin that lists one CRTC, with a new mode. */
  function Monitor(xid: nat, mode: Mode, crtc: Option<nat>, clones: seq<nat>): Output {
    Output("", xid, [10], clones, Some(mode), NO_ROTATION, IDENTITY, Panning(0, 0, 0, 0), SameAs, "", {ChangeMode},
           crtc, None, 0, 0)
  }

  /** That CRTC, with the mode and the outputs it shows. */
  function TheCrtc(mode: Option<nat>, users: seq<nat>): Crtc {
    Crtc(10, CrtcInfo(0, 0, mode, NO_ROTATION, users), IDENTITY, IDENTITY, false, None, 0, 0, NO_ROTATION, [], None)
  }

  /** A busy CRTC shared: its only user gets another mode, and an output is added that wants the old one. */
  lemma {:induction false} BusyCrtcShared(before: Mode, after: Mode)
    requires before.id != after.id
    ensures var crtc := TheCrtc(Some(before.id), [1]);
            var b, added := Monitor(1, after, Some(0), []), Monitor(2, before, None, [1]);
            && ValidCrtcs([crtc], [b, added]) && !Agree(b, added)
            && Picks([before, after], [crtc], [b, added]) == Some([b, added.(crtc := Some(0))])
  {
    var crtc := TheCrtc(Some(before.id), [1]);
    var b, added := Monitor(1, after, Some(0), []), Monitor(2, before, None, [1]);
    PassOnOne([before, after], crtc, b, added);
  }

  /** The clone list ignored: two outputs were given one idle CRTC, with different modes. */
  lemma {:induction false} CloneListIgnored(mode: Mode, other: Mode)
    requires mode.id != other.id
    ensures var crtc := TheCrtc(None, []);
            var a, b := Monitor(1, mode, Some(0), []), Monitor(2, other, Some(0), []);
            && ValidCrtcs([crtc], [a, b]) && !Agree(a, b)
            && Picks([mode, other], [crtc], [a, b]) == Some([a, b])
  {
    PassOnOne([mode, other], TheCrtc(None, []), Monitor(1, mode, Some(0), []), Monitor(2, other, Some(0), []));
  }

  /**
    Once outputs are planned for a CRTC, another one fits it exactly when it agrees with the
    first of them and wants the transform that is in force now, not the one planned.
   */
  lemma {:induction false} FitsPlanned(modes: seq<Mode>, crtcs: seq<Crtc>, outs: seq<Output>, c: nat, o: Output)
    requires PlannedFrom(crtcs, outs) && c < |crtcs| && crtcs[c].outputs != []
    ensures UsersOf(outs, c, |outs|) != []
    ensures Fits(modes, crtcs[c], o) <==>
      Agree(o, outs[FirstUser(outs, c)]) && o.transform == crtcs[c].currentTransform
  {
    assert PlannedOne(crtcs[c], outs, c);
  }
}
