/**
  Outputs without changes are as the server reported them; with that, a CRTC that is
  skipped already shows its plan, and no two CRTCs are planned to share an output.
 */
module Agreement {
  import opened Options
  import opened Display
  import opened Server
  import opened Rollback
  import opened Apply
  import opened Planning

  /** No two outputs have one id. */
  predicate DistinctXids(outs: seq<Output>) {
    forall j, k :: 0 <= j < k < |outs| ==> outs[j].xid != outs[k].xid
  }

  /** The output is exactly as the server reported it: its CRTC lists it and has its state, or it is off. */
  predicate AsReported(o: Output, modes: seq<Mode>, crtcs: seq<Crtc>) {
    if o.crtc.None? then
      o.mode.None? && forall c :: 0 <= c < |crtcs| ==> o.xid !in crtcs[c].info.outputs
    else
      var c := o.crtc.value;
      && c < |crtcs|
      && o.mode.Some? && FindMode(modes, crtcs[c].info.mode) == o.mode
      && o.x == crtcs[c].info.x && o.y == crtcs[c].info.y && o.rotation == crtcs[c].info.rotation
      && o.transform == crtcs[c].currentTransform
      && forall d :: 0 <= d < |crtcs| ==> (o.xid in crtcs[d].info.outputs <==> d == c)
  }

  /** Outputs without changes agree with what the server reported about the CRTCs. */
  predicate Agreeing(outs: seq<Output>, modes: seq<Mode>, crtcs: seq<Crtc>) {
    DistinctXids(outs) && forall k :: 0 <= k < |outs| && outs[k].changes == {} ==> AsReported(outs[k], modes, crtcs)
  }

  /** The plan was made from the outputs, and every change of a user was marked. */
  predicate PlannedOne(crtc: Crtc, outs: seq<Output>, c: nat) {
    && crtc.outputs == UsersOf(outs, c, |outs|)
    && (crtc.outputs == [] ==> crtc.mode.None? && crtc.pendingTransform == crtc.currentTransform)
    && (crtc.outputs != [] ==>
          var o := outs[FirstUser(outs, c)];
          && crtc.mode == o.mode && crtc.x == o.x && crtc.y == o.y && crtc.rotation == o.rotation
          && crtc.pendingTransform == o.transform)
    && UsersKnown(crtc, outs)
    && (UsersChange(crtc, outs) ==> crtc.changing)
  }

  predicate PlannedFrom(crtcs: seq<Crtc>, outs: seq<Output>) {
    forall c :: 0 <= c < |crtcs| ==> PlannedOne(crtcs[c], outs, c)
  }

  function FirstUser(outs: seq<Output>, c: nat): (k: nat)
    requires UsersOf(outs, c, |outs|) != []
    ensures k < |outs| && outs[k].mode.Some? && outs[k].crtc == Some(c)
  {
    assert UsersOf(outs, c, |outs|)[0] in UsersOf(outs, c, |outs|);
    UsersOf(outs, c, |outs|)[0]
  }

  /** The CRTC shows what is planned for it; the order of the outputs does not matter. */
  ghost predicate ShowsPlan(crtc: Crtc, shown: Shown, outs: seq<Output>, randr13: bool)
    requires ValidPlan(crtc, outs)
  {
    if crtc.mode.None? then shown.mode.None? && shown.outputs == []
    else
      && shown.mode == Some(crtc.mode.value.id)
      && shown.x == crtc.x && shown.y == crtc.y && shown.rotation == crtc.rotation
      && shown.transform == PlannedTransform(crtc, randr13)
      && forall u :: u in shown.outputs <==> u in Xids(outs, crtc.outputs)
  }

  lemma {:induction false} PlannedFromIsValid(crtcs: seq<Crtc>, outs: seq<Output>)
    requires PlannedFrom(crtcs, outs)
    ensures ValidPlans(crtcs, outs)
  {
    forall c, i | 0 <= c < |crtcs| && 0 <= i < |crtcs[c].outputs| ensures crtcs[c].outputs[i] < |outs| {
      assert crtcs[c].outputs[i] in crtcs[c].outputs;
    }
  }

  /** Which ids are planned for a CRTC. */
  lemma {:induction false} PlannedXids(crtcs: seq<Crtc>, outs: seq<Output>, c: nat, u: nat)
    requires PlannedFrom(crtcs, outs) && ValidPlans(crtcs, outs) && c < |crtcs|
    ensures u in Xids(outs, crtcs[c].outputs) <==>
            exists k :: 0 <= k < |outs| && outs[k].mode.Some? && outs[k].crtc == Some(c) && outs[k].xid == u
  {
    var users, xids := crtcs[c].outputs, Xids(outs, crtcs[c].outputs);
    if u in xids {
      var i :| 0 <= i < |xids| && xids[i] == u;
      assert users[i] in users && XidOf(outs, users[i]) == u;
    }
    if k :| 0 <= k < |outs| && outs[k].mode.Some? && outs[k].crtc == Some(c) && outs[k].xid == u {
      assert k in users;
      var i :| 0 <= i < |users| && users[i] == k;
      assert xids[i] == XidOf(outs, users[i]);
    }
  }

  /** A user of a CRTC that is not changing has no changes itself. */
  lemma {:induction false} QuietUsers(crtcs: seq<Crtc>, outs: seq<Output>, c: nat)
    requires PlannedFrom(crtcs, outs) && ValidPlans(crtcs, outs) && c < |crtcs| && !crtcs[c].changing
      && DistinctXids(outs)
    ensures forall k :: 0 <= k < |outs| && outs[k].mode.Some? && outs[k].crtc == Some(c) ==> outs[k].changes == {}
    ensures forall u :: u in crtcs[c].info.outputs ==>
      exists k :: 0 <= k < |outs| && outs[k].xid == u && outs[k].changes == {}
  {
    var crtc := crtcs[c];
    forall k | 0 <= k < |outs| && outs[k].mode.Some? && outs[k].crtc == Some(c) ensures outs[k].changes == {} {
      assert k in crtc.outputs;
      var i :| 0 <= i < |crtc.outputs| && crtc.outputs[i] == k;
      assert !HasChanges(outs, crtc.outputs[i]);
    }
    forall u | u in crtc.info.outputs
      ensures exists k :: 0 <= k < |outs| && outs[k].xid == u && outs[k].changes == {}
    {
      var l :| 0 <= l < |crtc.info.outputs| && crtc.info.outputs[l] == u;
      var k := FindOutput(outs, crtc.info.outputs[l]);
      assert !HasChanges(outs, k);
      assert 0 <= k < |outs| && outs[k].xid == u && outs[k].changes == {};
    }
  }

  /** A CRTC that is skipped shows its plan already. */
  lemma {:induction false} SkippedShowsPlan(crtcs: seq<Crtc>, outs: seq<Output>, modes: seq<Mode>, c: nat,
                                            randr13: bool)
    requires PlannedFrom(crtcs, outs) && ValidPlans(crtcs, outs) && Agreeing(outs, modes, crtcs)
    requires c < |crtcs| && !crtcs[c].changing && crtcs[c].mode.Some?
    ensures ShowsPlan(crtcs[c], Reported(crtcs[c]), outs, randr13)
  {
    var crtc := crtcs[c];
    QuietUsers(crtcs, outs, c);
    var first := FirstUser(outs, c);
    assert AsReported(outs[first], modes, crtcs);
    forall u: nat ensures u in crtc.info.outputs <==> u in Xids(outs, crtc.outputs) {
      QuietUserStays(crtcs, outs, modes, c, u);
    }
  }

  /** An output is planned for a CRTC that is not changing exactly when the server reported it there. */
  lemma {:induction false} QuietUserStays(crtcs: seq<Crtc>, outs: seq<Output>, modes: seq<Mode>, c: nat, u: nat)
    requires PlannedFrom(crtcs, outs) && ValidPlans(crtcs, outs) && Agreeing(outs, modes, crtcs)
    requires c < |crtcs| && !crtcs[c].changing
    ensures u in crtcs[c].info.outputs <==> u in Xids(outs, crtcs[c].outputs)
  {
    QuietUsers(crtcs, outs, c);
    PlannedXids(crtcs, outs, c, u);
    if u in crtcs[c].info.outputs {
      var k :| 0 <= k < |outs| && outs[k].xid == u && outs[k].changes == {};
      assert AsReported(outs[k], modes, crtcs);
    }
    if k :| 0 <= k < |outs| && outs[k].mode.Some? && outs[k].crtc == Some(c) && outs[k].xid == u {
      assert AsReported(outs[k], modes, crtcs);
    }
  }

  lemma {:induction false} PlannedOnce(crtcs: seq<Crtc>, outs: seq<Output>, modes: seq<Mode>, c: nat, d: nat, u: nat)
    requires PlannedFrom(crtcs, outs) && ValidPlans(crtcs, outs) && Agreeing(outs, modes, crtcs)
    requires c < |crtcs| && d < |crtcs| && c != d && u in Xids(outs, crtcs[c].outputs)
    ensures u !in Xids(outs, crtcs[d].outputs)
    ensures !crtcs[d].changing && crtcs[d].mode.Some? ==> u !in crtcs[d].info.outputs
  {
    PlannedXids(crtcs, outs, c, u);
    PlannedXids(crtcs, outs, d, u);
    var k :| 0 <= k < |outs| && outs[k].mode.Some? && outs[k].crtc == Some(c) && outs[k].xid == u;
    if !crtcs[d].changing && u in crtcs[d].info.outputs {
      QuietUsers(crtcs, outs, d);
    }
  }

  /** Configuring one CRTC takes no output away from what another one is to show. */
  lemma {:induction false} PlansAreSeparate(crtcs: seq<Crtc>, outs: seq<Output>, modes: seq<Mode>)
    requires PlannedFrom(crtcs, outs) && ValidPlans(crtcs, outs) && Agreeing(outs, modes, crtcs)
    ensures Separate(crtcs, outs)
  {
    forall c, d | 0 <= c < |crtcs| && 0 <= d < |crtcs| && c != d && ToConfigure(crtcs[c])
      ensures forall u :: u in Xids(outs, crtcs[c].outputs) ==>
        && u !in Xids(outs, crtcs[d].outputs)
        && (!crtcs[d].changing && crtcs[d].mode.Some? ==> u !in crtcs[d].info.outputs)
    {
      forall u | u in Xids(outs, crtcs[c].outputs)
        ensures u !in Xids(outs, crtcs[d].outputs)
        ensures !crtcs[d].changing && crtcs[d].mode.Some? ==> u !in crtcs[d].info.outputs
      {
        PlannedOnce(crtcs, outs, modes, c, d, u);
      }
    }
  }

  /** What is shown is what the output wants; servers before version 1.3 know no transforms. */
  predicate ShowsOwn(o: Output, shown: Shown, randr13: bool) {
    && o.mode.Some? && shown.mode == Some(o.mode.value.id)
    && shown.x == o.x && shown.y == o.y && shown.rotation == o.rotation
    && (randr13 ==> shown.transform == o.transform)
  }

  predicate WantTheSame(o: Output, p: Output, randr13: bool) {
    && o.mode == p.mode && o.x == p.x && o.y == p.y && o.rotation == p.rotation
    && (randr13 ==> o.transform == p.transform)
  }

  /** The modes the outputs want are those the server has under their ids. */
  predicate ModesKnown(outs: seq<Output>, modes: seq<Mode>) {
    forall k :: 0 <= k < |outs| && outs[k].mode.Some? ==> FindMode(modes, Some(outs[k].mode.value.id)) == outs[k].mode
  }

  /** An enabled output is shown as it wants exactly when it wants the same as the first one on its CRTC. */
  ghost predicate ShownAsFirst(outs: seq<Output>, screen: Screen, randr13: bool) {
    forall k :: 0 <= k < |outs| && outs[k].mode.Some? && outs[k].crtc.Some? && outs[k].crtc.value < |screen.crtcs| ==>
      && UsersOf(outs, outs[k].crtc.value, |outs|) != []
      && (ShowsOwn(outs[k], screen.crtcs[outs[k].crtc.value], randr13) <==>
          WantTheSame(outs[k], outs[FirstUser(outs, outs[k].crtc.value)], randr13))
  }

  /** So an output that is alone on its CRTC, or the first there, is always shown as it wants. */
  lemma {:induction false} PlansShowFirst(crtcs: seq<Crtc>, outs: seq<Output>, modes: seq<Mode>, screen: Screen,
                                          randr13: bool)
    requires PlannedFrom(crtcs, outs) && ValidPlans(crtcs, outs) && ModesKnown(outs, modes)
    requires |crtcs| == |screen.crtcs|
    requires forall c :: 0 <= c < |crtcs| ==> ShowsPlan(crtcs[c], screen.crtcs[c], outs, randr13)
    ensures ShownAsFirst(outs, screen, randr13)
  {
    forall k | 0 <= k < |outs| && outs[k].mode.Some? && outs[k].crtc.Some? && outs[k].crtc.value < |crtcs|
      ensures UsersOf(outs, outs[k].crtc.value, |outs|) != []
      ensures ShowsOwn(outs[k], screen.crtcs[outs[k].crtc.value], randr13) <==>
              WantTheSame(outs[k], outs[FirstUser(outs, outs[k].crtc.value)], randr13)
    {
      var c := outs[k].crtc.value;
      assert k in UsersOf(outs, c, |outs|);
      var first := outs[FirstUser(outs, c)];
      assert PlannedOne(crtcs[c], outs, c) && ShowsPlan(crtcs[c], screen.crtcs[c], outs, randr13);
      assert crtcs[c].mode == first.mode;
    }
  }

  /** When everything is reached, everything planned is shown. */
  lemma {:induction false} ReachedShowsPlans(crtcs: seq<Crtc>, outs: seq<Output>, modes: seq<Mode>, screen: Screen,
                                             randr13: bool)
    requires PlannedFrom(crtcs, outs) && ValidPlans(crtcs, outs) && Agreeing(outs, modes, crtcs)
    requires AllReached(crtcs, screen, outs, randr13)
    ensures forall c :: 0 <= c < |crtcs| ==> ShowsPlan(crtcs[c], screen.crtcs[c], outs, randr13)
  {
    forall c | 0 <= c < |crtcs| ensures ShowsPlan(crtcs[c], screen.crtcs[c], outs, randr13) {
      if !crtcs[c].changing && crtcs[c].mode.Some? {
        SkippedShowsPlan(crtcs, outs, modes, c, randr13);
      }
    }
  }
}
