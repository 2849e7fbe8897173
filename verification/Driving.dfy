/**
  Whether the server can show what is planned.  The program checks that an output can use
  its CRTC and its rotation, but not that outputs which share a CRTC are clones of one another.
 */
module Driving {
  import opened Options
  import opened Display
  import opened CrtcPicker
  import opened Planning
  import opened Server
  import opened Apply
  import opened Agreement
  import opened Sharing

  /**
    What the program has checked: an output lists only CRTCs that can drive it, rotated as
    wanted, and has one it lists.
   */
  predicate Capable(server: XServer, crtcs: seq<Crtc>, outs: seq<Output>) {
    && (forall k, c: nat :: 0 <= k < |outs| && c < |crtcs| && crtcs[c].xid in outs[k].crtcIds ==>
          DrivenBy(server, outs[k], c))
    && (forall k :: 0 <= k < |outs| && outs[k].mode.Some? && outs[k].crtc.Some? ==>
          DrivenBy(server, outs[k], outs[k].crtc.value))
  }

  predicate DrivenBy(server: XServer, o: Output, c: nat) {
    c in server.connectors(o.xid).crtcs && server.rotates(c, o.rotation)
  }

  /**
    What it has not checked: modes taken over from a CRTC, and that outputs on one CRTC have one
    mode and are clones.
   */
  predicate Matching(server: XServer, outs: seq<Output>) {
    && (forall k :: 0 <= k < |outs| && outs[k].mode.Some? ==>
          outs[k].mode.value.id in server.connectors(outs[k].xid).modes)
    && (forall j, k :: 0 <= j < |outs| && 0 <= k < |outs| && j != k && Sharers(outs[j], outs[k]) ==>
          outs[j].mode == outs[k].mode && outs[j].xid in server.connectors(outs[k].xid).clones)
  }

  predicate Sharers(o: Output, p: Output) {
    o.mode.Some? && p.mode.Some? && o.crtc.Some? && o.crtc == p.crtc
  }

  /** After picking, every enabled output can be driven by its CRTC. */
  predicate AllDriven(server: XServer, outs: seq<Output>) {
    forall k :: 0 <= k < |outs| && outs[k].mode.Some? ==>
      outs[k].crtc.Some? && DrivenBy(server, outs[k], outs[k].crtc.value)
  }

  lemma {:induction false} PicksAreDriven(server: XServer, crtcs: seq<Crtc>, outs: seq<Output>)
    requires ValidCrtcs(crtcs, outs) && Capable(server, crtcs, outs) && Picks(server.modes, crtcs, outs).Some?
    requires forall k :: 0 <= k < |outs| && outs[k].mode.Some? && outs[k].changes == {} ==> outs[k].crtc.Some?
    ensures AllDriven(server, Picks(server.modes, crtcs, outs).value)
  {
    var picked := Picks(server.modes, crtcs, outs).value;
    PicksKeep(server.modes, crtcs, outs);
    forall k | 0 <= k < |picked| && picked[k].mode.Some?
      ensures picked[k].crtc.Some? && DrivenBy(server, picked[k], picked[k].crtc.value)
    {
      PicksList(server.modes, crtcs, outs, k);
      assert picked[k].xid == outs[k].xid && picked[k].rotation == outs[k].rotation && picked[k].mode == outs[k].mode;
    }
  }

  /** The plans break no precondition when the outputs on each CRTC match. */
  lemma {:induction false} MatchingPlansDrive(server: XServer, crtcs: seq<Crtc>, outs: seq<Output>, c: nat)
    requires PlannedFrom(crtcs, outs) && ValidPlans(crtcs, outs) && c < |crtcs| && crtcs[c].mode.Some?
    requires AllDriven(server, outs) && Matching(server, outs)
    ensures server.Drives(c, crtcs[c].mode.value.id, crtcs[c].rotation, Xids(outs, crtcs[c].outputs))
  {
    var users := crtcs[c].outputs;
    var xids := Xids(outs, users);
    assert PlannedOne(crtcs[c], outs, c) && users == UsersOf(outs, c, |outs|);
    var first := FirstUser(outs, c);
    forall i | 0 <= i < |users|
      ensures c in server.connectors(xids[i]).crtcs && crtcs[c].mode.value.id in server.connectors(xids[i]).modes
      ensures forall j :: 0 <= j < |users| && j != i ==> xids[j] in server.connectors(xids[i]).clones
    {
      var k := users[i];
      assert k in users && xids[i] == XidOf(outs, k);
      assert k != first ==> Sharers(outs[first], outs[k]);
      forall j | 0 <= j < |users| && j != i ensures xids[j] in server.connectors(xids[i]).clones {
        assert users[j] in users && xids[j] == XidOf(outs, users[j]) && Sharers(outs[users[j]], outs[k]);
        assert users[j] != users[i];
      }
    }
  }

  /** Outputs on one CRTC that are not clones for the server make the request for it break a precondition. */
  lemma {:induction false} NonClonesNotMet(server: XServer, crtcs: seq<Crtc>, outs: seq<Output>, c: nat, j: nat, k: nat,
                                           width: int, height: int)
    requires PlannedFrom(crtcs, outs) && ValidPlans(crtcs, outs) && c < |crtcs|
    requires j < |outs| && k < |outs| && j != k && outs[j].mode.Some? && outs[k].mode.Some?
    requires outs[j].crtc == outs[k].crtc == Some(c) && outs[j].xid !in server.connectors(outs[k].xid).clones
    ensures !PlanMeets(server, crtcs[c], c, outs, width, height)
  {
    var users := crtcs[c].outputs;
    assert PlannedOne(crtcs[c], outs, c) && j in users && k in users;
    var a :| 0 <= a < |users| && users[a] == j;
    var b :| 0 <= b < |users| && users[b] == k;
    assert Xids(outs, users)[a] == XidOf(outs, users[a]) && Xids(outs, users)[b] == XidOf(outs, users[b]);
  }

  /** So does an output that does not support the mode planned for its CRTC. */
  lemma {:induction false} UnsupportedModeNotMet(server: XServer, crtcs: seq<Crtc>, outs: seq<Output>, c: nat, k: nat,
                                                 width: int, height: int)
    requires PlannedFrom(crtcs, outs) && ValidPlans(crtcs, outs) && c < |crtcs|
    requires k < |outs| && outs[k].mode.Some? && outs[k].crtc == Some(c)
    requires crtcs[c].mode.Some? && crtcs[c].mode.value.id !in server.connectors(outs[k].xid).modes
    ensures !PlanMeets(server, crtcs[c], c, outs, width, height)
  {
    var users := crtcs[c].outputs;
    assert PlannedOne(crtcs[c], outs, c) && k in users;
    var a :| 0 <= a < |users| && users[a] == k;
    assert Xids(outs, users)[a] == XidOf(outs, users[a]);
  }

  /**
    A run that breaks a precondition: two outputs that are no clones were given one idle
    CRTC.  They are picked as they are, and no plan made from them can be carried out.
   */
  lemma {:induction false} CloneListMatters(server: XServer, plans: seq<Crtc>, mode: Mode, other: Mode, width: int,
                                            height: int)
    requires mode.id != other.id && 1 !in server.connectors(2).clones
    requires var outs := [Monitor(1, mode, Some(0), []), Monitor(2, other, Some(0), [])];
             |plans| == 1 && PlannedFrom(plans, outs) && ValidPlans(plans, outs)
    ensures var outs := [Monitor(1, mode, Some(0), []), Monitor(2, other, Some(0), [])];
            && ValidCrtcs([TheCrtc(None, [])], outs)
            && Picks([mode, other], [TheCrtc(None, [])], outs) == Some(outs)
            && !AllCarryable(server, plans, outs, width, height)
  {
    var outs := [Monitor(1, mode, Some(0), []), Monitor(2, other, Some(0), [])];
    CloneListIgnored(mode, other);
    NonClonesNotMet(server, plans, outs, 0, 0, 1, width, height);
    var plan := plans[0];
    assert PlannedOne(plan, outs, 0) && 0 in plan.outputs;
    var i :| 0 <= i < |plan.outputs| && plan.outputs[i] == 0;
    assert HasChanges(outs, plan.outputs[i]);
    assert ToConfigure(plan);
    assert !Carryable(server, plans[0], 0, outs, width, height);
  }
}
