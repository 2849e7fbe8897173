/**
  Going back to the reported configuration: every CRTC off, the old screen size, and
  every CRTC as it was.
 */
module Rollback {
  import opened Options
  import opened Display
  import opened Server

  /** A CRTC as the server reported it. */
  function Reported(crtc: Crtc): Shown {
    Shown(crtc.info.x, crtc.info.y, crtc.info.mode, crtc.info.rotation, crtc.info.outputs,
          crtc.currentTransform, crtc.currentTransform)
  }

  /** The program's records describe this screen. */
  predicate Describes(crtcs: seq<Crtc>, screen: Screen) {
    |crtcs| == |screen.crtcs| && forall c :: 0 <= c < |crtcs| ==> screen.crtcs[c] == Reported(crtcs[c])
  }

  predicate ShownDriven(server: XServer, c: nat, s: Shown) {
    s.mode.Some? ==> server.Drives(c, s.mode.value, s.rotation, s.outputs)
  }

  /** What the server guarantees of a configuration in force. */
  predicate Consistent(server: XServer, screen: Screen) {
    && InRange(server.limits, screen.width, screen.height)
    && (forall c :: 0 <= c < |screen.crtcs| ==>
          && (screen.crtcs[c].mode.None? <==> screen.crtcs[c].outputs == [])
          && ShownDriven(server, c, screen.crtcs[c])
          && ShownFits(server.modes, screen.crtcs[c], screen.width, screen.height))
    && (forall c, d, u :: 0 <= c < d < |screen.crtcs| && u in screen.crtcs[c].outputs ==> u !in screen.crtcs[d].outputs)
  }

  function Off(pending: Transform): Shown {
    Shown(0, 0, None, NO_ROTATION, [], pending, pending)
  }

  /**
    As long as the plan keeps the transform of a CRTC, and always on servers that know
    none, the pending transform is the reported one.
   */
  predicate PendingKept(crtc: Crtc, shown: Shown, randr13: bool) {
    crtc.currentTransform == crtc.pendingTransform || !randr13 ==> shown.pending == crtc.currentTransform
  }

  predicate AllPendingKept(crtcs: seq<Crtc>, screen: Screen, randr13: bool) {
    |crtcs| == |screen.crtcs| && forall c :: 0 <= c < |crtcs| ==> PendingKept(crtcs[c], screen.crtcs[c], randr13)
  }

  /** From request n on, the server refuses nothing. */
  ghost predicate AcceptsFrom(server: XServer, n: nat) {
    forall k :: k >= n ==> server.reply(k) == Accepted
  }

  method CrtcDisable(server: XServer, c: nat) returns (a: Answer)
    requires c < |server.screen.crtcs|
    modifies server`screen, server`requests
    ensures a == Answered(server.reply(old(server.requests))) && server.requests == old(server.requests) + 1
    ensures server.screen == if a.reply == Accepted
      then old(server.screen).(crtcs := old(server.screen.crtcs)[c := Off(old(server.screen.crtcs[c].pending))])
      else old(server.screen)
  {
    ConfiguredAlone(server.screen, c, 0, 0, None, NO_ROTATION, []);
    a := server.SetCrtcConfig(c, 0, 0, None, NO_ROTATION, []);
  }

  /** Restoring the CRTC takes no output away from another one, breaks no precondition and is not refused. */
  ghost predicate Restorable(server: XServer, crtc: Crtc, c: nat)
    reads server
  {
    && Untaken(server.screen, c, crtc.info.outputs)
    && (crtc.info.mode.None? <==> crtc.info.outputs == [])
    && ShownDriven(server, c, Reported(crtc))
    && ShownFits(server.modes, Reported(crtc), server.screen.width, server.screen.height)
    && server.reply(server.requests) == Accepted
  }

  method CrtcRevert(server: XServer, crtc: Crtc, c: nat) returns (a: Answer)
    requires c < |server.screen.crtcs| && PendingKept(crtc, server.screen.crtcs[c], server.randr13)
    modifies server`screen, server`requests
    ensures server.requests >= old(server.requests)
    ensures server.screen.(crtcs := []) == old(server.screen).(crtcs := [])
    ensures |server.screen.crtcs| == |old(server.screen.crtcs)|
    ensures forall d :: 0 <= d < |server.screen.crtcs| && d != c ==>
      server.screen.crtcs[d].pending == old(server.screen.crtcs[d]).pending
    ensures old(Restorable(server, crtc, c)) ==>
      a == Answered(Accepted) && server.screen.crtcs == old(server.screen.crtcs)[c := Reported(crtc)]
  {
    ghost var alone := Untaken(server.screen, c, crtc.info.outputs);
    if crtc.currentTransform != crtc.pendingTransform {
      server.SetCrtcTransform(c, crtc.currentTransform);
    }
    if alone {
      assert Untaken(server.screen, c, crtc.info.outputs);
      ConfiguredAlone(server.screen, c, crtc.info.x, crtc.info.y, crtc.info.mode, crtc.info.rotation,
        crtc.info.outputs);
    }
    a := server.SetCrtcConfig(c, crtc.info.x, crtc.info.y, crtc.info.mode, crtc.info.rotation, crtc.info.outputs);
  }

  /** First all CRTCs off, whatever they show now. */
  method DisableAll(server: XServer)
    modifies server`screen, server`requests
    ensures server.requests >= old(server.requests)
    ensures server.screen.(crtcs := []) == old(server.screen).(crtcs := [])
    ensures |server.screen.crtcs| == |old(server.screen.crtcs)|
    ensures forall c :: 0 <= c < |server.screen.crtcs| ==>
      server.screen.crtcs[c].pending == old(server.screen.crtcs[c]).pending
    ensures AcceptsFrom(server, old(server.requests)) ==>
      forall c :: 0 <= c < |server.screen.crtcs| ==> server.screen.crtcs[c] == Off(old(server.screen.crtcs[c]).pending)
  {
    ghost var before := server.screen;
    var n := |server.screen.crtcs|;
    for c := 0 to n
      invariant server.requests >= old(server.requests)
      invariant server.screen.(crtcs := []) == before.(crtcs := [])
      invariant |server.screen.crtcs| == n
      invariant forall d :: 0 <= d < n ==> server.screen.crtcs[d].pending == before.crtcs[d].pending
      invariant AcceptsFrom(server, old(server.requests)) ==>
        forall d :: 0 <= d < c ==> server.screen.crtcs[d] == Off(before.crtcs[d].pending)
    {
      var _ := CrtcDisable(server, c);
    }
  }

  /** The first n CRTCs are back, and the others are still off. */
  predicate Restoring(screen: Screen, target: Screen, n: nat) {
    && screen.(crtcs := []) == target.(crtcs := []) && |screen.crtcs| == |target.crtcs|
    && (forall d :: 0 <= d < n && d < |screen.crtcs| ==> screen.crtcs[d] == target.crtcs[d])
    && (forall d :: n <= d < |screen.crtcs| ==> screen.crtcs[d].outputs == [])
  }

  lemma {:induction false} NextIsRestorable(server: XServer, crtcs: seq<Crtc>, target: Screen, c: nat)
    requires Describes(crtcs, target) && Consistent(server, target) && c < |crtcs|
    requires Restoring(server.screen, target, c) && server.reply(server.requests) == Accepted
    ensures Restorable(server, crtcs[c], c)
  {
    assert target.crtcs[c] == Reported(crtcs[c]);
    forall d | 0 <= d < |server.screen.crtcs| && d != c
      ensures forall u :: u in server.screen.crtcs[d].outputs ==> u !in crtcs[c].info.outputs
    {
      if d < c {
        assert server.screen.crtcs[d] == target.crtcs[d];
      }
    }
  }

  /** Last all CRTCs as reported; false when a request breaks a precondition. */
  method RestoreAll(server: XServer, crtcs: array<Crtc>, ghost target: Screen) returns (ok: bool)
    requires |server.screen.crtcs| == crtcs.Length && Describes(crtcs[..], target)
    requires AllPendingKept(crtcs[..], server.screen, server.randr13)
    requires Consistent(server, target)
    modifies server`screen, server`requests
    ensures server.requests >= old(server.requests)
    ensures AcceptsFrom(server, old(server.requests)) && old(Restoring(server.screen, target, 0)) ==>
      ok && server.screen == target
  {
    ghost var easy := AcceptsFrom(server, server.requests) && Restoring(server.screen, target, 0);
    ghost var first, records := server.requests, crtcs[..];
    for c := 0 to crtcs.Length
      invariant server.requests >= first && |server.screen.crtcs| == crtcs.Length
      invariant easy ==> Restoring(server.screen, target, c)
      invariant forall d :: c <= d < crtcs.Length ==> PendingKept(records[d], server.screen.crtcs[d], server.randr13)
    {
      if easy {
        NextIsRestorable(server, records, target, c);
      }
      assert target.crtcs[c] == Reported(records[c]);
      var a := CrtcRevert(server, crtcs[c], c);
      if a.ProtocolError? {
        return false;
      }
    }
    assert easy ==> server.screen.crtcs == target.crtcs;
    return true;
  }

  /**
    Back to the reported configuration.  If the server refuses none of these requests,
    none of them breaks a precondition, and everything is as it was reported: size,
    modes, positions, rotations, outputs and transforms.
   */
  method Revert(server: XServer, crtcs: array<Crtc>, display: Screen) returns (ok: bool)
    requires |server.screen.crtcs| == crtcs.Length && Describes(crtcs[..], display)
    requires AllPendingKept(crtcs[..], server.screen, server.randr13)
    requires Consistent(server, display)
    modifies server`screen, server`requests, server`resizes
    ensures server.requests >= old(server.requests)
    ensures AcceptsFrom(server, old(server.requests)) ==> ok && server.screen == display
  {
    DisableAll(server);
    ok := server.SetScreenSize(display.width, display.height, display.widthMm, display.heightMm);
    if !ok {
      return;
    }
    ok := RestoreAll(server, crtcs, display);
  }
}
