/**
  From outputs with CRTCs to a plan for every CRTC, and which CRTCs the plan changes.
 */
module Planning {
  import opened Options
  import opened Display

  /** Which of the first n outputs show on CRTC c, in order. */
  function UsersOf(outs: seq<Output>, c: nat, n: nat): (users: seq<nat>)
    requires n <= |outs|
    ensures forall k: nat :: k in users <==> k < n && outs[k].mode.Some? && outs[k].crtc == Some(c)
    ensures forall i, j :: 0 <= i < j < |users| ==> users[i] < users[j]
  {
    if n == 0 then []
    else
      var users := UsersOf(outs, c, n - 1);
      assert forall i :: 0 <= i < |users| ==> users[i] in users;
      if outs[n - 1].mode.Some? && outs[n - 1].crtc == Some(c) then users + [n - 1] else users
  }

  /** The plan for a CRTC takes its state from the first of its users. */
  function PlanFor(crtc: Crtc, outs: seq<Output>, users: seq<nat>): Crtc
    requires forall k: nat :: k in users ==> k < |outs|
  {
    if users == [] then crtc
    else
      assert users[0] in users;
      var o := outs[users[0]];
      crtc.(x := o.x, y := o.y, rotation := o.rotation, mode := o.mode, pendingTransform := o.transform,
        outputs := users)
  }

  /** No output is assigned to any CRTC yet. */
  predicate Unassigned(crtcs: seq<Crtc>) {
    forall c :: 0 <= c < |crtcs| ==> crtcs[c].outputs == []
  }

  /** The CRTC with the output on it; the first one determines its state. */
  function WithOutput(crtc: Crtc, o: Output, k: nat): Crtc {
    if crtc.outputs == [] then
      crtc.(x := o.x, y := o.y, rotation := o.rotation, mode := o.mode, pendingTransform := o.transform, outputs := [k])
    else crtc.(outputs := crtc.outputs + [k])
  }

  method CrtcAddOutput(crtcs: array<Crtc>, c: nat, o: Output, k: nat)
    requires c < crtcs.Length
    modifies crtcs
    ensures crtcs[..] == old(crtcs[..])[c := WithOutput(old(crtcs[c]), o, k)]
  {
    if crtcs[c].outputs == [] {
      crtcs[c] := crtcs[c].(x := o.x, y := o.y, rotation := o.rotation, mode := o.mode,
        pendingTransform := o.transform);
    }
    assert crtcs[c].outputs == [] ==> crtcs[c].outputs + [k] == [k];
    crtcs[c] := crtcs[c].(outputs := crtcs[c].outputs + [k]);
  }

  /** The CRTCs carry the plans that the first n outputs make. */
  ghost predicate PlansOf(start: seq<Crtc>, crtcs: seq<Crtc>, outs: seq<Output>, n: nat) {
    && |crtcs| == |start| && n <= |outs|
    && forall c :: 0 <= c < |crtcs| ==> crtcs[c] == PlanFor(start[c], outs, UsersOf(outs, c, n))
  }

  /** One more output joins the users of its CRTC. */
  lemma {:induction false} UsersGrow(crtc: Crtc, outs: seq<Output>, c: nat, k: nat)
    requires k < |outs| && crtc.outputs == []
    ensures var o, before := outs[k], PlanFor(crtc, outs, UsersOf(outs, c, k));
            PlanFor(crtc, outs, UsersOf(outs, c, k + 1)) ==
              if o.mode.Some? && o.crtc == Some(c) then WithOutput(before, o, k) else before
  {
    var users := UsersOf(outs, c, k);
    assert users != [] ==> (users + [k])[0] == users[0];
  }

  lemma {:induction false} PlansGrow(start: seq<Crtc>, crtcs: seq<Crtc>, outs: seq<Output>, k: nat)
    requires k < |outs| && Unassigned(start) && PlansOf(start, crtcs, outs, k)
    requires outs[k].mode.Some? ==> outs[k].crtc.Some? && outs[k].crtc.value < |crtcs|
    ensures PlansOf(start,
      if outs[k].mode.None? then crtcs
      else crtcs[outs[k].crtc.value := WithOutput(crtcs[outs[k].crtc.value], outs[k], k)], outs, k + 1)
  {
    forall c | 0 <= c < |crtcs|
      ensures PlanFor(start[c], outs, UsersOf(outs, c, k + 1)) ==
        if outs[k].mode.Some? && outs[k].crtc == Some(c) then WithOutput(crtcs[c], outs[k], k) else crtcs[c]
    {
      UsersGrow(start[c], outs, c, k);
    }
  }

  method SetCrtcs(outputs: array<Output>, crtcs: array<Crtc>)
    requires Unassigned(crtcs[..]) && ValidCrtcs(crtcs[..], outputs[..])
    requires forall k :: 0 <= k < outputs.Length && outputs[k].mode.Some? ==> outputs[k].crtc.Some?
    modifies crtcs
    ensures outputs[..] == old(outputs[..])
    ensures PlansOf(old(crtcs[..]), crtcs[..], outputs[..], outputs.Length)
  {
    ghost var outs, start := outputs[..], crtcs[..];
    for k := 0 to outputs.Length
      invariant outputs[..] == outs
      invariant PlansOf(start, crtcs[..], outs, k)
    {
      assert outputs[k] == outs[k];
      PlansGrow(start, crtcs[..], outs, k);
      if outputs[k].mode.None? {
        continue;
      }
      CrtcAddOutput(crtcs, outputs[k].crtc.value, outputs[k], k);
    }
  }

  /** One of the first n outputs the server reported on the CRTC has changes. */
  predicate OldUserChanges(crtc: Crtc, outs: seq<Output>, n: nat)
    requires n <= |crtc.info.outputs|
  {
    exists l :: 0 <= l < n && HasChanges(outs, FindOutput(outs, crtc.info.outputs[l]))
  }

  /** One of the first n outputs planned for the CRTC has changes. */
  predicate NewUserChanges(crtc: Crtc, outs: seq<Output>, n: nat)
    requires n <= |crtc.outputs|
  {
    exists l :: 0 <= l < n && HasChanges(outs, crtc.outputs[l])
  }

  predicate HasChanges(outs: seq<Output>, k: nat) {
    k < |outs| && outs[k].changes != {}
  }

  predicate UsersChange(crtc: Crtc, outs: seq<Output>) {
    OldUserChanges(crtc, outs, |crtc.info.outputs|) || NewUserChanges(crtc, outs, |crtc.outputs|)
  }

  /** Output k has changes, and is to be shown by the CRTC or was reported on it, as the first with its id. */
  predicate ChangesUser(crtc: Crtc, outs: seq<Output>, c: nat, k: nat) {
    && k < |outs| && outs[k].changes != {}
    && ((outs[k].mode.Some? && outs[k].crtc == Some(c))
        || (outs[k].xid in crtc.info.outputs && forall j :: 0 <= j < k ==> outs[j].xid != outs[k].xid))
  }

  /** Nothing else marks a CRTC. */
  lemma {:induction false} UsersChangeWhen(crtc: Crtc, outs: seq<Output>, c: nat)
    requires crtc.outputs == UsersOf(outs, c, |outs|)
    ensures UsersChange(crtc, outs) <==> exists k: nat :: ChangesUser(crtc, outs, c, k)
  {
    if l :| 0 <= l < |crtc.info.outputs| && HasChanges(outs, FindOutput(outs, crtc.info.outputs[l])) {
      assert ChangesUser(crtc, outs, c, FindOutput(outs, crtc.info.outputs[l]));
    }
    if l :| 0 <= l < |crtc.outputs| && HasChanges(outs, crtc.outputs[l]) {
      assert crtc.outputs[l] in crtc.outputs && ChangesUser(crtc, outs, c, crtc.outputs[l]);
    }
    if k: nat :| ChangesUser(crtc, outs, c, k) {
      if outs[k].mode.Some? && outs[k].crtc == Some(c) {
        assert k in crtc.outputs;
        var l :| 0 <= l < |crtc.outputs| && crtc.outputs[l] == k;
        assert HasChanges(outs, crtc.outputs[l]);
      } else {
        var l :| 0 <= l < |crtc.info.outputs| && crtc.info.outputs[l] == outs[k].xid;
        assert FindOutput(outs, crtc.info.outputs[l]) == k;
        assert HasChanges(outs, FindOutput(outs, crtc.info.outputs[l]));
      }
    }
  }

  /** Every output the server reported on the CRTC is in the list. */
  predicate UsersKnown(crtc: Crtc, outs: seq<Output>) {
    forall l :: 0 <= l < |crtc.info.outputs| ==> FindOutput(outs, crtc.info.outputs[l]) < |outs|
  }

  method MarkChangingCrtcs(outputs: array<Output>, crtcs: array<Crtc>) returns (known: bool)
    requires forall c, k: nat :: 0 <= c < crtcs.Length && k in crtcs[c].outputs ==> k < outputs.Length
    modifies crtcs
    ensures outputs[..] == old(outputs[..])
    ensures known <==> forall c :: 0 <= c < crtcs.Length ==> UsersKnown(old(crtcs[c]), outputs[..])
    ensures known ==> forall c :: 0 <= c < crtcs.Length ==>
      crtcs[c] == old(crtcs[c]).(changing := old(crtcs[c]).changing || UsersChange(old(crtcs[c]), outputs[..]))
  {
    ghost var outs := outputs[..];
    for c := 0 to crtcs.Length
      invariant outputs[..] == outs
      invariant forall d :: 0 <= d < c ==> UsersKnown(old(crtcs[d]), outs)
      invariant forall d :: 0 <= d < c ==>
        crtcs[d] == old(crtcs[d]).(changing := old(crtcs[d]).changing || UsersChange(old(crtcs[d]), outs))
      invariant forall d :: c <= d < crtcs.Length ==> crtcs[d] == old(crtcs[d])
    {
      var changes;
      known, changes := CheckUsers(outputs, crtcs[c]);
      if !known {
        return;
      }
      if changes {
        crtcs[c] := crtcs[c].(changing := true);
      }
    }
    known := true;
  }

  method CheckUsers(outputs: array<Output>, crtc: Crtc) returns (known: bool, changes: bool)
    requires forall k: nat :: k in crtc.outputs ==> k < outputs.Length
    ensures known <==> UsersKnown(crtc, outputs[..])
    ensures known ==> (changes <==> UsersChange(crtc, outputs[..]))
  {
    known, changes := true, false;
    ghost var outs := outputs[..];
    for l := 0 to |crtc.info.outputs|
      invariant forall m :: 0 <= m < l ==> FindOutput(outs, crtc.info.outputs[m]) < |outs|
      invariant changes <==> OldUserChanges(crtc, outs, l)
    {
      var k := FindOutputByXid(outputs, crtc.info.outputs[l]);
      if k == outputs.Length {
        return false, changes;
      }
      if outputs[k].changes != {} {
        changes := true;
      }
    }
    for l := 0 to |crtc.outputs|
      invariant changes <==> OldUserChanges(crtc, outs, |crtc.info.outputs|) || NewUserChanges(crtc, outs, l)
    {
      assert crtc.outputs[l] in crtc.outputs;
      if outputs[crtc.outputs[l]].changes != {} {
        changes := true;
      }
    }
  }
}
