/**
  Allocation of CRTCs to outputs: the compatibility check, the first-fit pass, and
  the recursive search that overwrites the outputs' CRTC fields as it goes.
 */
module CrtcAllocator {
  import opened Options
  import opened Display
  import opened CrtcSearch
  import opened CrtcFallback

  /**
    The output's state agrees with what the CRTC already shows: the plan when
    outputs have been assigned to it, else the server's report when it is in use.
   */
  predicate Fits(modes: seq<Mode>, crtc: Crtc, o: Output) {
    if crtc.outputs != [] then
      && crtc.mode == o.mode && crtc.x == o.x && crtc.y == o.y && crtc.rotation == o.rotation
      && crtc.currentTransform == o.transform
    else if crtc.info.outputs != [] then
      && FindMode(modes, crtc.info.mode) == o.mode
      && crtc.info.x == o.x && crtc.info.y == o.y && crtc.info.rotation == o.rotation
    else true
  }

  /** Output i may use CRTC c, whatever the other outputs now have. */
  predicate Usable(modes: seq<Mode>, crtcs: seq<Crtc>, outs: seq<Output>, c: nat, i: nat)
    requires c < |crtcs| && i < |outs|
  {
    && crtcs[c].xid in outs[i].crtcIds
    && (forall j :: 0 <= j < |outs| && j != i && outs[j].mode.Some? && outs[j].crtc == Some(c) ==>
          outs[j].xid in outs[i].clones)
    && Fits(modes, crtcs[c], outs[i])
  }

  /** Every CRTC id the output lists was reported by the server. */
  predicate Known(crtcs: seq<Crtc>, o: Output) {
    forall k :: 0 <= k < |o.crtcIds| ==> FindCrtc(crtcs, o.crtcIds[k]) < |crtcs|
  }

  function RowOf(modes: seq<Mode>, crtcs: seq<Crtc>, o: Output): Row {
    var listed := seq(|o.crtcIds|, k requires 0 <= k < |o.crtcIds| => FindCrtc(crtcs, o.crtcIds[k]));
    var fitting := set c | c in listed && c < |crtcs| && Fits(modes, crtcs[c], o);
    Row(o.mode.Some?, o.xid, o.clones, listed, fitting, o.currentCrtc)
  }

  function Rows(modes: seq<Mode>, crtcs: seq<Crtc>, outs: seq<Output>): (rows: seq<Row>)
    ensures |rows| == |outs|
  {
    seq(|outs|, i requires 0 <= i < |outs| => RowOf(modes, crtcs, outs[i]))
  }

  function CrtcsOf(outs: seq<Output>): (a: Assignment)
    ensures |a| == |outs|
  {
    seq(|outs|, i requires 0 <= i < |outs| => outs[i].crtc)
  }

  /** The outputs with the given CRTCs from output i on. */
  function Assigned(outs: seq<Output>, i: nat, a: Assignment): (r: seq<Output>)
    requires i + |a| == |outs|
    ensures |r| == |outs|
  {
    seq(|outs|, k requires 0 <= k < |outs| => if k < i then outs[k] else outs[k].(crtc := a[k - i]))
  }

  /** Some output with a mode lists a CRTC the server did not report. */
  predicate ListsUnknown(crtcs: seq<Crtc>, outs: seq<Output>, i: nat) {
    exists k :: i <= k < |outs| && outs[k].mode.Some? && !Known(crtcs, outs[k])
  }

  /** Handing out CRTCs from output i on changes no row, no list of ids and nothing before i. */
  lemma {:induction false} AssignedFacts(modes: seq<Mode>, crtcs: seq<Crtc>, outs: seq<Output>, i: nat, a: Assignment)
    requires i + |a| == |outs|
    ensures Rows(modes, crtcs, Assigned(outs, i, a)) == Rows(modes, crtcs, outs)
    ensures CrtcsOf(Assigned(outs, i, a)[..i]) == CrtcsOf(outs[..i])
    ensures a != [] ==> CrtcsOf(Assigned(outs, i, a)[..i + 1]) == CrtcsOf(outs[..i]) + [a[0]]
    ensures CrtcsOf(Assigned(outs, i, a)[i..]) == a
    ensures ListsUnknown(crtcs, Assigned(outs, i, a), i) == ListsUnknown(crtcs, outs, i)
    ensures a != [] ==> ListsUnknown(crtcs, Assigned(outs, i, a), i + 1) == ListsUnknown(crtcs, outs, i + 1)
  {
    var now := Assigned(outs, i, a);
    forall k | 0 <= k < |outs|
      ensures RowOf(modes, crtcs, now[k]) == RowOf(modes, crtcs, outs[k])
      ensures now[k].mode == outs[k].mode && Known(crtcs, now[k]) == Known(crtcs, outs[k])
    {
    }
  }

  /** Handing out again from the next output on keeps what output i has. */
  lemma {:induction false} AssignedAgain(outs: seq<Output>, i: nat, a: Assignment, b: Assignment)
    requires i + |a| == |outs| && |a| == 1 + |b|
    ensures Assigned(Assigned(outs, i, a), i + 1, b) == Assigned(outs, i, [a[0]] + b)
  {
  }

  /** Once the following outputs are disabled, the check sees only the CRTCs handed out before. */
  lemma {:induction false} UsableIsAllowed(modes: seq<Mode>, crtcs: seq<Crtc>, outs: seq<Output>, k: nat, i: nat)
    requires i < |outs| && outs[i].mode.Some? && k < |outs[i].crtcIds|
    requires forall j :: i < j < |outs| ==> outs[j].crtc == None
    ensures var c := FindCrtc(crtcs, outs[i].crtcIds[k]);
            c < |crtcs| ==> (Usable(modes, crtcs, outs, c, i) <==>
                             Allowed(Rows(modes, crtcs, outs), CrtcsOf(outs[..i]), c))
  {
    var rows, before := Rows(modes, crtcs, outs), CrtcsOf(outs[..i]);
    var c := FindCrtc(crtcs, outs[i].crtcIds[k]);
    if c < |crtcs| {
      ListedFits(modes, crtcs, outs[i], k);
      EarlierClones(modes, crtcs, outs, c, i);
    }
  }

  lemma {:induction false} ListedFits(modes: seq<Mode>, crtcs: seq<Crtc>, o: Output, k: nat)
    requires k < |o.crtcIds| && FindCrtc(crtcs, o.crtcIds[k]) < |crtcs|
    ensures var c, row := FindCrtc(crtcs, o.crtcIds[k]), RowOf(modes, crtcs, o);
            c in row.listed && crtcs[c].xid in o.crtcIds && (c in row.fitting <==> Fits(modes, crtcs[c], o))
  {
    assert RowOf(modes, crtcs, o).listed[k] == FindCrtc(crtcs, o.crtcIds[k]);
  }

  /** When no later output has a CRTC, only the earlier ones matter for cloning. */
  lemma {:induction false} EarlierClones(modes: seq<Mode>, crtcs: seq<Crtc>, outs: seq<Output>, c: nat, i: nat)
    requires i < |outs| && forall j :: i < j < |outs| ==> outs[j].crtc == None
    ensures var rows, before := Rows(modes, crtcs, outs), CrtcsOf(outs[..i]);
      (forall j :: 0 <= j < |outs| && j != i && outs[j].mode.Some? && outs[j].crtc == Some(c) ==>
        outs[j].xid in outs[i].clones) <==>
      (forall j :: 0 <= j < |before| && before[j] == Some(c) && rows[j].enabled ==> rows[j].xid in outs[i].clones)
  {
    var rows, before := Rows(modes, crtcs, outs), CrtcsOf(outs[..i]);
    forall j | 0 <= j < i
      ensures before[j] == outs[j].crtc && rows[j].enabled == outs[j].mode.Some? && rows[j].xid == outs[j].xid
    {
    }
  }

  method CheckCrtcForOutput(modes: seq<Mode>, crtcs: seq<Crtc>, outputs: array<Output>, c: nat, i: nat)
    returns (ok: bool)
    requires c < |crtcs| && i < outputs.Length
    ensures ok <==> Usable(modes, crtcs, outputs[..], c, i)
  {
    var l := 0;
    while l < |outputs[i].crtcIds| && outputs[i].crtcIds[l] != crtcs[c].xid
      invariant l <= |outputs[i].crtcIds|
      invariant crtcs[c].xid !in outputs[i].crtcIds[..l]
    {
      l := l + 1;
    }
    if l == |outputs[i].crtcIds| {
      return false;
    }
    for j := 0 to outputs.Length
      invariant forall k :: 0 <= k < j && k != i && outputs[k].mode.Some? && outputs[k].crtc == Some(c) ==>
        outputs[k].xid in outputs[i].clones
    {
      if j == i || outputs[j].mode == None || outputs[j].crtc != Some(c) {
        continue;
      }
      l := 0;
      while l < |outputs[i].clones| && outputs[i].clones[l] != outputs[j].xid
        invariant l <= |outputs[i].clones|
        invariant outputs[j].xid !in outputs[i].clones[..l]
      {
        l := l + 1;
      }
      if l == |outputs[i].clones| {
        assert outputs[..][j] == outputs[j];
        return false;
      }
    }
    var crtc, o := crtcs[c], outputs[i];
    if crtc.outputs != [] {
      if crtc.mode != o.mode { return false; }
      if crtc.x != o.x { return false; }
      if crtc.y != o.y { return false; }
      if crtc.rotation != o.rotation { return false; }
      if crtc.currentTransform != o.transform { return false; }
    } else if crtc.info.outputs != [] {
      var mode := FindMode(modes, crtc.info.mode);
      if mode != o.mode { return false; }
      if crtc.info.x != o.x { return false; }
      if crtc.info.y != o.y { return false; }
      if crtc.info.rotation != o.rotation { return false; }
    }
    return true;
  }

  method DisableOutputs(outputs: array<Output>, from: nat)
    requires from <= outputs.Length
    modifies outputs
    ensures outputs[..] == Assigned(old(outputs[..]), from, seq(outputs.Length - from, _ => None))
  {
    var k := from;
    while k < outputs.Length
      invariant from <= k <= outputs.Length
      invariant forall j :: from <= j < k ==> outputs[j] == old(outputs[j]).(crtc := None)
      invariant forall j :: 0 <= j < outputs.Length && !(from <= j < k) ==> outputs[j] == old(outputs[j])
    {
      outputs[k] := outputs[k].(crtc := None);
      k := k + 1;
    }
  }

  /**
    The search overwrites the CRTCs of the outputs from i on, again and again, and
    runs once more to put the best ones back.  It returns None when it meets an
    unknown CRTC.  The result does not depend on what those fields held before.
   */
  method PickCrtcsScore(modes: seq<Mode>, crtcs: seq<Crtc>, outputs: array<Output>, i: nat) returns (r: Option<nat>)
    requires i <= outputs.Length
    modifies outputs
    ensures outputs[..] == Assigned(old(outputs[..]), i, CrtcsOf(outputs[i..]))
    ensures r.None? <==> ListsUnknown(crtcs, old(outputs[..]), i)
    ensures r.Some? ==>
      var best := Best(Rows(modes, crtcs, old(outputs[..])), CrtcsOf(old(outputs[..i])));
      && r.value == best.score
      && i + |best.crtcs| == outputs.Length
      && outputs[..] == Assigned(old(outputs[..]), i, best.crtcs)
    decreases outputs.Length - i, 3
  {
    if i == outputs.Length {
      return Some(0);
    }
    ghost var outs := outputs[..];
    ghost var rows, before := Rows(modes, crtcs, outs), CrtcsOf(outs[..i]);
    assert outs == Assigned(outs, i, CrtcsOf(outs[i..])) && outputs[..i] == outs[..i];
    BestIsSound(rows, before);
    var rest := FixAndSearch(modes, crtcs, outputs, i, None, outs);
    if rest == None {
      return None;
    }
    var bestScore := rest.value;
    assert rows[i] == RowOf(modes, crtcs, outs[i]);
    if outputs[i].mode == None {
      return Some(bestScore);
    }
    var known, bestCrtc;
    known, bestScore, bestCrtc := TryAll(modes, crtcs, outputs, i, bestScore, outs);
    if !known {
      return None;
    }
    rest := FixAndSearch(modes, crtcs, outputs, i, bestCrtc, outs);
    return Some(bestScore);
  }

  /** The plan that hands c to output i and the best CRTCs to the outputs after it. */
  function PlanWith(rows: seq<Row>, before: Assignment, c: Option<nat>, score: nat): Plan
    requires |before| < |rows|
  {
    Plan(score, [c] + Best(rows, before + [c]).crtcs)
  }

  /** The loop over the CRTCs output i lists. */
  method TryAll(modes: seq<Mode>, crtcs: seq<Crtc>, outputs: array<Output>, i: nat, offScore: nat,
                ghost outs: seq<Output>)
    returns (known: bool, bestScore: nat, bestCrtc: Option<nat>)
    requires i < outputs.Length == |outs| && outputs[..] == Assigned(outs, i, CrtcsOf(outputs[i..]))
    requires outs[i].mode.Some? && !ListsUnknown(crtcs, outs, i + 1)
    modifies outputs
    ensures outputs[..] == Assigned(outs, i, CrtcsOf(outputs[i..]))
    ensures known <==> Known(crtcs, outs[i])
    ensures known ==>
      var rows, before := Rows(modes, crtcs, outs), CrtcsOf(outs[..i]);
      PlanWith(rows, before, bestCrtc, bestScore)
        == Improve(rows, before, rows[i].listed, PlanWith(rows, before, None, offScore))
    decreases outputs.Length - i, 2
  {
    ghost var rows, before := Rows(modes, crtcs, outs), CrtcsOf(outs[..i]);
    ghost var off := PlanWith(rows, before, None, offScore);
    ghost var listed := rows[i].listed;
    assert rows[i] == RowOf(modes, crtcs, outs[i]);
    var ids := outputs[i].crtcIds;
    bestScore, bestCrtc := offScore, None;
    assert listed[0..] == listed;
    for k := 0 to |ids|
      invariant outputs[..] == Assigned(outs, i, CrtcsOf(outputs[i..]))
      invariant forall l :: 0 <= l < k ==> listed[l] < |crtcs|
      invariant Improve(rows, before, listed, off) ==
        Improve(rows, before, listed[k..], PlanWith(rows, before, bestCrtc, bestScore))
    {
      var c := FindCrtcByXid(crtcs, ids[k]);
      assert listed[k] == c;
      if c == |crtcs| {
        return false, bestScore, bestCrtc;
      }
      ImproveStep(rows, before, listed, k, PlanWith(rows, before, bestCrtc, bestScore));
      bestScore, bestCrtc := TryOne(modes, crtcs, outputs, i, k, c, bestScore, bestCrtc, outs);
    }
    known := true;
    assert listed[|ids|..] == [];
    forall l | 0 <= l < |ids| ensures FindCrtc(crtcs, ids[l]) < |crtcs| {
      assert listed[l] < |crtcs|;
    }
  }

  /** One round of that loop. */
  method TryOne(modes: seq<Mode>, crtcs: seq<Crtc>, outputs: array<Output>, i: nat, k: nat, c: nat,
                score: nat, crtc: Option<nat>, ghost outs: seq<Output>)
    returns (bestScore: nat, bestCrtc: Option<nat>)
    requires i < outputs.Length == |outs| && outputs[..] == Assigned(outs, i, CrtcsOf(outputs[i..]))
    requires outs[i].mode.Some? && k < |outs[i].crtcIds| && c == FindCrtc(crtcs, outs[i].crtcIds[k]) < |crtcs|
    requires !ListsUnknown(crtcs, outs, i + 1)
    modifies outputs
    ensures outputs[..] == Assigned(outs, i, CrtcsOf(outputs[i..]))
    ensures var rows, before := Rows(modes, crtcs, outs), CrtcsOf(outs[..i]);
            PlanWith(rows, before, bestCrtc, bestScore) == Try(rows, before, c, PlanWith(rows, before, crtc, score))
    decreases outputs.Length - i, 1
  {
    bestScore, bestCrtc := score, crtc;
    var ok := ResetAndCheck(modes, crtcs, outputs, i, k, c, outs);
    if ok {
      var myScore := 1000;
      if Some(c) == outputs[i].currentCrtc {
        myScore := myScore + 1;
      }
      var rest := FixAndSearch(modes, crtcs, outputs, i, Some(c), outs);
      if myScore + rest.value > score {
        bestCrtc := Some(c);
        bestScore := myScore + rest.value;
      }
    }
  }

  lemma {:induction false} ImproveStep(rows: seq<Row>, before: Assignment, listed: seq<nat>, k: nat, plan: Plan)
    requires |before| < |rows| && k < |listed|
    ensures Improve(rows, before, listed[k..], plan) ==
            Improve(rows, before, listed[k + 1..], Try(rows, before, listed[k], plan))
  {
    assert listed[k..][1..] == listed[k + 1..];
  }

  /** One choice of the search: output i gets c, and the outputs after it are searched. */
  method FixAndSearch(modes: seq<Mode>, crtcs: seq<Crtc>, outputs: array<Output>, i: nat, c: Option<nat>,
                      ghost outs: seq<Output>)
    returns (r: Option<nat>)
    requires i < outputs.Length == |outs| && outputs[..] == Assigned(outs, i, CrtcsOf(outputs[i..]))
    modifies outputs
    ensures outputs[..] == Assigned(outs, i, CrtcsOf(outputs[i..]))
    ensures r.None? <==> ListsUnknown(crtcs, outs, i + 1)
    ensures r.Some? ==>
      var best := Best(Rows(modes, crtcs, outs), CrtcsOf(outs[..i]) + [c]);
      && r.value == best.score
      && i + 1 + |best.crtcs| == outputs.Length
      && outputs[..] == Assigned(outs, i, [c] + best.crtcs)
    decreases outputs.Length - i, 0
  {
    outputs[i] := outputs[i].(crtc := c);
    ghost var a := CrtcsOf(outputs[i..]);
    assert a[0] == c;
    assert outputs[..] == Assigned(outs, i, a);
    AssignedFacts(modes, crtcs, outs, i, a);
    label fixed:
    r := PickCrtcsScore(modes, crtcs, outputs, i + 1);
    ghost var b := CrtcsOf(outputs[i + 1..]);
    AssignedAgain(outs, i, a, b);
    AssignedFacts(modes, crtcs, outs, i, [c] + b);
    assert outputs[..][i..] == outputs[i..];
    assert old@fixed(outputs[..])[..i + 1] == old@fixed(outputs[..i + 1]);
    if r.Some? {
      AssignedAgain(outs, i, a, Best(Rows(modes, crtcs, outs), CrtcsOf(outs[..i]) + [c]).crtcs);
    }
  }

  /** The outputs after i are disabled, then output i is checked against its k-th CRTC. */
  method ResetAndCheck(modes: seq<Mode>, crtcs: seq<Crtc>, outputs: array<Output>, i: nat, k: nat, c: nat,
                       ghost outs: seq<Output>)
    returns (ok: bool)
    requires i < outputs.Length == |outs| && outputs[..] == Assigned(outs, i, CrtcsOf(outputs[i..]))
    requires outs[i].mode.Some? && k < |outs[i].crtcIds| && c == FindCrtc(crtcs, outs[i].crtcIds[k]) < |crtcs|
    modifies outputs
    ensures outputs[..] == Assigned(outs, i, CrtcsOf(outputs[i..]))
    ensures ok <==> Allowed(Rows(modes, crtcs, outs), CrtcsOf(outs[..i]), c)
  {
    ghost var a := CrtcsOf(outputs[i..]);
    DisableOutputs(outputs, i + 1);
    ghost var now := outputs[..];
    assert now == Assigned(Assigned(outs, i, a), i + 1, seq(|outs| - (i + 1), _ => None));
    LaterDisabled(modes, crtcs, outs, i, a);
    UsableIsAllowed(modes, crtcs, now, k, i);
    ok := CheckCrtcForOutput(modes, crtcs, outputs, c, i);
    assert outputs[..] == now && outputs[i..] == now[i..];
  }

  /** What the outputs look like when those after i have no CRTC any more. */
  lemma {:induction false} LaterDisabled(modes: seq<Mode>, crtcs: seq<Crtc>, outs: seq<Output>, i: nat, a: Assignment)
    requires i < |outs| == i + |a|
    ensures var now := Assigned(Assigned(outs, i, a), i + 1, seq(|outs| - (i + 1), _ => None));
            && now == Assigned(outs, i, CrtcsOf(now[i..]))
            && now[i] == outs[i].(crtc := a[0])
            && Rows(modes, crtcs, now) == Rows(modes, crtcs, outs) && CrtcsOf(now[..i]) == CrtcsOf(outs[..i])
            && forall j :: i < j < |outs| ==> now[j].crtc == None
  {
    var none: Assignment := seq(|outs| - (i + 1), _ => None);
    AssignedAgain(outs, i, a, none);
    AssignedFacts(modes, crtcs, outs, i, [a[0]] + none);
  }
}
