/**
  Carrying out the plan: CRTCs that are to go dark or do not fit the new screen are
  turned off, the screen is resized, and the changing CRTCs are configured.  Any
  refusal on the way leads back to the reported configuration.
 */
module Apply {
  import opened Options
  import opened Display
  import opened Geometry
  import opened Server
  import opened Rollback

  function XidOf(outs: seq<Output>, k: nat): nat
    requires k < |outs|
  {
    outs[k].xid
  }

  /** The ids of the outputs planned for a CRTC. */
  function Xids(outs: seq<Output>, users: seq<nat>): (xids: seq<nat>)
    requires forall i :: 0 <= i < |users| ==> users[i] < |outs|
    ensures |xids| == |users|
  {
    seq(|users|, i requires 0 <= i < |users| => XidOf(outs, users[i]))
  }

  predicate ValidPlan(crtc: Crtc, outs: seq<Output>) {
    forall i :: 0 <= i < |crtc.outputs| ==> crtc.outputs[i] < |outs|
  }

  predicate ValidPlans(crtcs: seq<Crtc>, outs: seq<Output>) {
    forall c :: 0 <= c < |crtcs| ==> ValidPlan(crtcs[c], outs)
  }

  /** The transform a planned CRTC ends up with. */
  function PlannedTransform(crtc: Crtc, randr13: bool): Transform {
    if randr13 then crtc.pendingTransform else crtc.currentTransform
  }

  /** What a CRTC with a planned mode is to show. */
  function Planned(crtc: Crtc, outs: seq<Output>, randr13: bool): Shown
    requires crtc.mode.Some? && ValidPlan(crtc, outs)
  {
    var t := PlannedTransform(crtc, randr13);
    Shown(crtc.x, crtc.y, Some(crtc.mode.value.id), crtc.rotation, Xids(outs, crtc.outputs), t, t)
  }

  /** The area a CRTC shows now lies on a screen of the new size. */
  predicate OldAreaFits(modes: seq<Mode>, crtc: Crtc, width: int, height: int) {
    var old_mode := FindMode(modes, crtc.info.mode);
    && old_mode.Some?
    && crtc.info.x + Bounds(old_mode.value, crtc.info.rotation, crtc.currentTransform).x2 <= width
    && crtc.info.y + Bounds(old_mode.value, crtc.info.rotation, crtc.currentTransform).y2 <= height
  }

  /** The CRTC is left on during the resize. */
  predicate LeftOn(modes: seq<Mode>, crtc: Crtc, width: int, height: int) {
    crtc.info.mode.None? || (crtc.mode.Some? && OldAreaFits(modes, crtc, width, height))
  }

  /**
    So it stays on when it is dark anyway, or is to stay on and what it shows lies on the new
    screen: no other is turned off.
   */
  lemma {:induction false} LeftOnWhenItFits(modes: seq<Mode>, crtc: Crtc, width: int, height: int)
    requires crtc.info.mode.Some? ==> FindMode(modes, crtc.info.mode).Some?
    ensures LeftOn(modes, crtc, width, height) <==>
      crtc.info.mode.None? || (crtc.mode.Some? && ShownFits(modes, Reported(crtc), width, height))
  {
  }

  function AfterTurningOff(modes: seq<Mode>, crtc: Crtc, width: int, height: int): Shown {
    if LeftOn(modes, crtc, width, height) then Reported(crtc) else Off(crtc.currentTransform)
  }

  /** A CRTC that is turned off only for the resize counts as changing. */
  function MarkedForResize(modes: seq<Mode>, crtc: Crtc, width: int, height: int): Crtc {
    if !LeftOn(modes, crtc, width, height) && crtc.mode.Some? then crtc.(changing := true) else crtc
  }

  predicate AllMarkedForResize(modes: seq<Mode>, before: seq<Crtc>, after: seq<Crtc>, width: int, height: int) {
    |after| == |before| && forall c :: 0 <= c < |after| ==> after[c] == MarkedForResize(modes, before[c], width, height)
  }

  /** Only marks are added. */
  predicate MarksAdded(crtcs: seq<Crtc>, crtcs': seq<Crtc>) {
    |crtcs'| == |crtcs| && forall c :: 0 <= c < |crtcs| ==> MarkAdded(crtcs[c], crtcs'[c])
  }

  predicate MarkAdded(crtc: Crtc, crtc': Crtc) {
    crtc' == crtc || crtc' == crtc.(changing := true)
  }

  /** No request from number from on and before number to was refused. */
  predicate AllAccepted(server: XServer, from: nat, to: nat) {
    forall k :: from <= k < to ==> server.reply(k) == Accepted
  }

  /** One more request was answered. */
  lemma {:induction false} OneMoreReply(server: XServer, from: nat, n: nat)
    requires from <= n && AllAccepted(server, from, n)
    ensures if server.reply(n) == Accepted then AllAccepted(server, from, n + 1) else JustRefused(server, from, n + 1)
  {
    if server.reply(n) == Accepted {
      forall k | from <= k < n + 1 ensures server.reply(k) == Accepted {
        assert k < n || k == n;
      }
    }
  }

  /** Of these requests the last one was refused, and no other. */
  predicate JustRefused(server: XServer, from: nat, to: nat) {
    from < to && server.reply(to - 1) != Accepted && AllAccepted(server, from, to - 1)
  }

  lemma {:induction false} RepliesGoOn(server: XServer, from: nat, mid: nat, to: nat)
    requires from <= mid <= to && AllAccepted(server, from, mid)
    ensures AllAccepted(server, mid, to) ==> AllAccepted(server, from, to)
    ensures JustRefused(server, mid, to) ==> JustRefused(server, from, to)
  {
  }

  /** The CRTC is to stay on, but the mode it shows is not among the server's. */
  predicate ModeLost(modes: seq<Mode>, crtc: Crtc) {
    crtc.info.mode.Some? && crtc.mode.Some? && FindMode(modes, crtc.info.mode).None?
  }

  /** One CRTC before the resize; false when something fails. */
  method TurnOffOne(server: XServer, crtc: Crtc, c: nat, width: int, height: int) returns (ok: bool, marked: Crtc)
    requires c < |server.screen.crtcs| && server.screen.crtcs[c] == Reported(crtc)
    modifies server`screen, server`requests
    ensures server.requests >= old(server.requests)
    ensures server.screen.(crtcs := []) == old(server.screen).(crtcs := [])
    ensures |server.screen.crtcs| == |old(server.screen.crtcs)|
    ensures forall d :: 0 <= d < |server.screen.crtcs| && d != c ==>
      server.screen.crtcs[d] == old(server.screen.crtcs[d])
    ensures server.screen.crtcs[c].pending == crtc.currentTransform
    ensures MarkAdded(crtc, marked)
    ensures !ok ==> ModeLost(server.modes, crtc) || JustRefused(server, old(server.requests), server.requests)
    ensures ok ==> !ModeLost(server.modes, crtc) && AllAccepted(server, old(server.requests), server.requests)
    ensures ok ==>
      && server.requests == old(server.requests) + (if LeftOn(server.modes, crtc, width, height) then 0 else 1)
      && marked == MarkedForResize(server.modes, crtc, width, height)
      && server.screen.crtcs[c] == AfterTurningOff(server.modes, crtc, width, height)
  {
    marked := crtc;
    if crtc.info.mode.None? {
      return true, marked;
    }
    if crtc.mode.Some? {
      var oldMode := FindMode(server.modes, crtc.info.mode);
      if oldMode.None? {
        return false, marked;
      }
      var bounds := ModeGeometry(oldMode.value, crtc.info.rotation, crtc.currentTransform);
      var x, y := crtc.info.x + bounds.x1, crtc.info.y + bounds.y1;
      var w, h := bounds.x2 - bounds.x1, bounds.y2 - bounds.y1;
      if x + w <= width && y + h <= height {
        return true, marked;
      }
      marked := crtc.(changing := true);
    }
    var a := CrtcDisable(server, c);
    ok := a == Answered(Accepted);
  }

  /** The loop before the resize; false when a request fails. */
  method TurnOff(server: XServer, crtcs: array<Crtc>, width: int, height: int) returns (ok: bool)
    requires Describes(crtcs[..], server.screen)
    modifies server`screen, server`requests, crtcs
    ensures server.requests >= old(server.requests)
    ensures MarksAdded(old(crtcs[..]), crtcs[..])
    ensures AllPendingKept(crtcs[..], server.screen, server.randr13)
    ensures server.screen.(crtcs := []) == old(server.screen).(crtcs := [])
    ensures !ok ==>
      || (exists c :: 0 <= c < crtcs.Length && ModeLost(server.modes, old(crtcs[c])))
      || JustRefused(server, old(server.requests), server.requests)
    ensures ok ==> AllAccepted(server, old(server.requests), server.requests)
    ensures ok ==> forall c :: 0 <= c < crtcs.Length ==> !ModeLost(server.modes, old(crtcs[c]))
    ensures ok ==> forall c :: 0 <= c < crtcs.Length ==>
      && crtcs[c] == MarkedForResize(server.modes, old(crtcs[c]), width, height)
      && server.screen.crtcs[c] == AfterTurningOff(server.modes, old(crtcs[c]), width, height)
  {
    ghost var before := crtcs[..];
    for c := 0 to crtcs.Length
      invariant server.requests >= old(server.requests)
      invariant server.screen.(crtcs := []) == old(server.screen).(crtcs := [])
      invariant TurnedOffUpTo(server.modes, before, crtcs[..], server.screen, width, height, c)
      invariant AllAccepted(server, old(server.requests), server.requests)
      invariant forall d :: 0 <= d < c ==> !ModeLost(server.modes, before[d])
    {
      assert crtcs[c] == crtcs[..][c] == before[c];
      ghost var marks, screen := crtcs[..], server.screen;
      ok, crtcs[c] := TurnOffOne(server, crtcs[c], c, width, height);
      assert crtcs[..] == marks[c := crtcs[c]];
      KeptWhileTurningOff(server, before, marks, screen, crtcs[..], server.screen, width, height, c);
      if !ok {
        return;
      }
    }
    ok := true;
  }

  /** The first n CRTCs have been turned off where necessary, and the others are as reported. */
  predicate TurnedOffUpTo(modes: seq<Mode>, before: seq<Crtc>, crtcs: seq<Crtc>, screen: Screen, width: int,
                          height: int, n: nat) {
    && |before| == |crtcs| == |screen.crtcs|
    && forall d :: 0 <= d < |crtcs| ==>
         if d < n then
           && crtcs[d] == MarkedForResize(modes, before[d], width, height)
           && screen.crtcs[d] == AfterTurningOff(modes, before[d], width, height)
         else crtcs[d] == before[d] && screen.crtcs[d] == Reported(before[d])
  }

  lemma {:induction false} KeptWhileTurningOff(server: XServer, before: seq<Crtc>, marks: seq<Crtc>, screen: Screen,
                                               marks': seq<Crtc>, screen': Screen, width: int, height: int, c: nat)
    requires c < |before| && TurnedOffUpTo(server.modes, before, marks, screen, width, height, c)
    requires |screen'.crtcs| == |marks| == |marks'| && marks' == marks[c := marks'[c]]
      && MarkAdded(before[c], marks'[c])
    requires forall d :: 0 <= d < |marks| && d != c ==> screen'.crtcs[d] == screen.crtcs[d]
    requires screen'.crtcs[c].pending == before[c].currentTransform
    ensures MarksAdded(before, marks') && AllPendingKept(marks', screen', server.randr13)
  {
  }

  /** The screen keeps its size when nothing about it changes. */
  method ScreenApply(server: XServer, width: int, height: int, widthMm: int, heightMm: int) returns (ok: bool)
    requires server.MayResize(width, height)
    modifies server`screen, server`resizes
    ensures ok && server.screen == Screen(width, height, widthMm, heightMm, old(server.screen.crtcs))
    ensures server.requests == old(server.requests)
    ensures var s := old(server.screen);
            server.resizes == old(server.resizes) +
              (if Screen(width, height, widthMm, heightMm, s.crtcs) == s then 0 else 1)
  {
    if width == server.screen.width && height == server.screen.height
      && widthMm == server.screen.widthMm && heightMm == server.screen.heightMm {
      return true;
    }
    ok := server.SetScreenSize(width, height, widthMm, heightMm);
  }

  datatype Step = Fine | Refused | Rejected | NeedsRandr13

  /** A CRTC that is changing and has a planned mode. */
  predicate ToConfigure(crtc: Crtc) { crtc.changing && crtc.mode.Some? }

  /** The plan has outputs for its mode, and its area lies on a screen of this size. */
  predicate PlanFits(modes: seq<Mode>, crtc: Crtc, randr13: bool, width: int, height: int) {
    crtc.mode.Some? ==>
      var t := PlannedTransform(crtc, randr13);
      && crtc.outputs != []
      && ShownFits(modes, Shown(crtc.x, crtc.y, Some(crtc.mode.value.id), crtc.rotation, [], t, t), width, height)
  }

  /** Configuring the CRTC as planned breaks no precondition on a screen of this size. */
  predicate PlanMeets(server: XServer, crtc: Crtc, c: nat, outs: seq<Output>, width: int, height: int)
    requires ValidPlan(crtc, outs)
  {
    crtc.mode.Some? ==>
      && PlanFits(server.modes, crtc, server.randr13, width, height)
      && server.Drives(c, crtc.mode.value.id, crtc.rotation, Xids(outs, crtc.outputs))
  }

  /** The plan breaks no precondition, and asks for no panning of a server that knows none. */
  predicate Carryable(server: XServer, crtc: Crtc, c: nat, outs: seq<Output>, width: int, height: int)
    requires ValidPlan(crtc, outs)
  {
    ToConfigure(crtc) ==> PlanMeets(server, crtc, c, outs, width, height) && (crtc.panning.Some? ==> server.randr13)
  }

  /** How many requests carrying out the plan takes. */
  function Asked(crtc: Crtc): nat {
    if !ToConfigure(crtc) then 0 else if crtc.panning.Some? then 2 else 1
  }

  function AskedUpTo(crtcs: seq<Crtc>, n: nat): nat
    requires n <= |crtcs|
  {
    if n == 0 then 0 else AskedUpTo(crtcs, n - 1) + Asked(crtcs[n - 1])
  }

  function PannedAfter(crtc: Crtc, c: nat, before: map<nat, Panning>): map<nat, Panning> {
    if ToConfigure(crtc) && crtc.panning.Some? then before[c := crtc.panning.value] else before
  }

  /** The panning area of the CRTC is set if the plan has one, and otherwise is what it was. */
  predicate PannedOne(crtc: Crtc, c: nat, before: map<nat, Panning>, after: map<nat, Panning>) {
    if ToConfigure(crtc) && crtc.panning.Some? then c in after && after[c] == crtc.panning.value
    else (c in after <==> c in before) && (c in before ==> c in after && after[c] == before[c])
  }

  /** The areas of the first n CRTCs are as planned, and no other changed. */
  ghost predicate PannedUpTo(crtcs: seq<Crtc>, n: nat, before: map<nat, Panning>, after: map<nat, Panning>)
    requires n <= |crtcs|
  {
    && (forall c :: 0 <= c < n ==> PannedOne(crtcs[c], c, before, after))
    && (forall c: nat :: c >= n ==>
          (c in after <==> c in before) && (c in before ==> c in after && after[c] == before[c]))
  }

  method CrtcApply(server: XServer, crtc: Crtc, c: nat, outs: seq<Output>) returns (s: Step)
    requires c < |server.screen.crtcs| && server.screen.crtcs[c].pending == crtc.currentTransform
    requires ValidPlan(crtc, outs)
    modifies server
    ensures server.requests >= old(server.requests)
    ensures OnlyTouches(crtc, c, old(server.screen), server.screen, server.randr13)
    ensures !ToConfigure(crtc) ==> s == Fine
    ensures s == Fine ==> ConfiguredOne(crtc, c, outs, old(server.screen), server.screen, server.randr13)
    ensures s == Rejected <==>
      ToConfigure(crtc) && !PlanMeets(server, crtc, c, outs, old(server.screen.width), old(server.screen.height))
    ensures s == NeedsRandr13 ==> ToConfigure(crtc) && !server.randr13 && crtc.panning.Some?
    ensures s == Fine ==> Carryable(server, crtc, c, outs, old(server.screen.width), old(server.screen.height))
    ensures s == Refused ==> JustRefused(server, old(server.requests), server.requests)
    ensures s != Refused ==> AllAccepted(server, old(server.requests), server.requests)
    ensures s == Fine ==> server.requests == old(server.requests) + Asked(crtc)
    ensures s == Fine ==> server.panned == PannedAfter(crtc, c, old(server.panned))
  {
    if !crtc.changing || crtc.mode.None? {
      return Fine;
    }
    s := RequestPlan(server, crtc, c, outs);
    if s == Fine {
      s := RequestPanning(server, crtc, c);
    }
  }

  method RequestPanning(server: XServer, crtc: Crtc, c: nat) returns (s: Step)
    modifies server`requests, server`panned
    ensures server.requests >= old(server.requests)
    ensures s == Fine ==>
      && server.requests == old(server.requests) + (if crtc.panning.Some? then 1 else 0)
      && server.panned == if crtc.panning.Some? then old(server.panned)[c := crtc.panning.value] else old(server.panned)
    ensures s == NeedsRandr13 <==> crtc.panning.Some? && !server.randr13
    ensures s == Fine || s == Refused || s == NeedsRandr13
    ensures s == Refused ==> JustRefused(server, old(server.requests), server.requests)
    ensures s != Refused ==> AllAccepted(server, old(server.requests), server.requests)
  {
    if crtc.panning.Some? {
      if !server.randr13 {
        return NeedsRandr13;
      }
      var r := server.SetPanning(c, crtc.panning.value);
      if r != Accepted {
        return Refused;
      }
    }
    return Fine;
  }

  /** The screen with the transform for the CRTC's next configuration set. */
  function Readied(screen: Screen, c: nat, transform: Transform): Screen
    requires c < |screen.crtcs|
  {
    screen.(crtcs := screen.crtcs[c := screen.crtcs[c].(pending := transform)])
  }

  /** The screen after the planned configuration was accepted. */
  function Requested(screen: Screen, crtc: Crtc, c: nat, outs: seq<Output>, randr13: bool): Screen
    requires c < |screen.crtcs| && crtc.mode.Some? && ValidPlan(crtc, outs)
  {
    Configured(Readied(screen, c, PlannedTransform(crtc, randr13)), c, crtc.x, crtc.y, Some(crtc.mode.value.id),
               crtc.rotation, Xids(outs, crtc.outputs))
  }

  /** The size and the other CRTCs' pending transforms stay, and the one's own as far as it is planned to. */
  predicate OnlyTouches(crtc: Crtc, c: nat, before: Screen, after: Screen, randr13: bool) {
    && after.(crtcs := []) == before.(crtcs := []) && c < |before.crtcs| == |after.crtcs|
    && PendingKept(crtc, after.crtcs[c], randr13)
    && forall d :: 0 <= d < |after.crtcs| && d != c ==> after.crtcs[d].pending == before.crtcs[d].pending
  }

  lemma {:induction false} PlanRequested(before: Screen, after: Screen, crtc: Crtc, c: nat, outs: seq<Output>,
                                         randr13: bool, accepted: bool)
    requires c < |before.crtcs| && ToConfigure(crtc) && ValidPlan(crtc, outs)
    requires after == if accepted then Requested(before, crtc, c, outs, randr13)
      else Readied(before, c, PlannedTransform(crtc, randr13))
    ensures OnlyTouches(crtc, c, before, after, randr13)
    ensures accepted ==> ConfiguredOne(crtc, c, outs, before, after, randr13)
  {
  }

  /** The transform and the configuration of one CRTC. */
  method RequestPlan(server: XServer, crtc: Crtc, c: nat, outs: seq<Output>) returns (s: Step)
    requires c < |server.screen.crtcs| && server.screen.crtcs[c].pending == crtc.currentTransform
    requires ToConfigure(crtc) && ValidPlan(crtc, outs)
    modifies server`screen, server`requests
    ensures s == Fine || s == Refused || s == Rejected
    ensures s == Fine ==> server.requests == old(server.requests) + 1
    ensures s == Rejected <==> !PlanMeets(server, crtc, c, outs, old(server.screen.width), old(server.screen.height))
    ensures OnlyTouches(crtc, c, old(server.screen), server.screen, server.randr13)
    ensures s == Fine ==> ConfiguredOne(crtc, c, outs, old(server.screen), server.screen, server.randr13)
    ensures s == Refused ==> JustRefused(server, old(server.requests), server.requests)
    ensures s != Refused ==> AllAccepted(server, old(server.requests), server.requests)
    ensures server.requests >= old(server.requests)
  {
    ghost var before := server.screen;
    assert AllAccepted(server, server.requests, server.requests);
    OneMoreReply(server, server.requests, server.requests);
    var a := RequestConfig(server, crtc, c, outs);
    PlanRequested(before, server.screen, crtc, c, outs, server.randr13, a == Answered(Accepted));
    match a
    case ProtocolError => return Rejected;
    case Answered(Accepted) => return Fine;
    case Answered(_) => return Refused;
  }

  method RequestConfig(server: XServer, crtc: Crtc, c: nat, outs: seq<Output>) returns (a: Answer)
    requires c < |server.screen.crtcs| && server.screen.crtcs[c].pending == crtc.currentTransform
    requires ToConfigure(crtc) && ValidPlan(crtc, outs)
    modifies server`screen, server`requests
    ensures a == if PlanMeets(server, crtc, c, outs, old(server.screen.width), old(server.screen.height))
      then Answered(server.reply(old(server.requests))) else ProtocolError
    ensures server.requests == if a.Answered? then old(server.requests) + 1 else old(server.requests)
    ensures server.screen == if a == Answered(Accepted)
      then Requested(old(server.screen), crtc, c, outs, server.randr13)
      else Readied(old(server.screen), c, PlannedTransform(crtc, server.randr13))
  {
    ghost var before := server.screen;
    if crtc.currentTransform != crtc.pendingTransform {
      server.SetCrtcTransform(c, crtc.pendingTransform);
    }
    assert server.screen == Readied(before, c, PlannedTransform(crtc, server.randr13));
    PlanIsRequest(server, crtc, c, outs);
    a := server.SetCrtcConfig(c, crtc.x, crtc.y, Some(crtc.mode.value.id), crtc.rotation, Xids(outs, crtc.outputs));
  }

  /** The request breaks a precondition exactly when the plan does. */
  lemma {:induction false} PlanIsRequest(server: XServer, crtc: Crtc, c: nat, outs: seq<Output>)
    requires c < |server.screen.crtcs| && crtc.mode.Some? && ValidPlan(crtc, outs)
    requires server.screen.crtcs[c].pending == PlannedTransform(crtc, server.randr13)
    ensures var xids := Xids(outs, crtc.outputs);
            server.MayConfigure(c, crtc.x, crtc.y, Some(crtc.mode.value.id), crtc.rotation, xids) <==>
            PlanMeets(server, crtc, c, outs, server.screen.width, server.screen.height)
  {
  }

  /** A CRTC that is skipped stays as reported; one without a mode is dark; any other shows its plan. */
  predicate Reached(crtc: Crtc, shown: Shown, outs: seq<Output>, randr13: bool)
    requires ValidPlan(crtc, outs)
  {
    if crtc.mode.None? then shown.mode.None? && shown.outputs == []
    else if !crtc.changing then shown == Reported(crtc)
    else shown == Planned(crtc, outs, randr13)
  }

  /** What is configured on one CRTC is neither planned for another one nor shown by one that is skipped. */
  predicate Separate(crtcs: seq<Crtc>, outs: seq<Output>)
    requires ValidPlans(crtcs, outs)
  {
    forall c, d :: 0 <= c < |crtcs| && 0 <= d < |crtcs| && c != d && ToConfigure(crtcs[c]) ==>
      forall u :: u in Xids(outs, crtcs[c].outputs) ==>
        && u !in Xids(outs, crtcs[d].outputs)
        && (!crtcs[d].changing && crtcs[d].mode.Some? ==> u !in crtcs[d].info.outputs)
  }

  predicate AllPlansMeet(server: XServer, crtcs: seq<Crtc>, outs: seq<Output>, width: int, height: int)
    requires ValidPlans(crtcs, outs)
  {
    forall c :: 0 <= c < |crtcs| ==> PlanMeets(server, crtcs[c], c, outs, width, height)
  }

  predicate AllCarryable(server: XServer, crtcs: seq<Crtc>, outs: seq<Output>, width: int, height: int)
    requires ValidPlans(crtcs, outs)
  {
    forall c :: 0 <= c < |crtcs| ==> Carryable(server, crtcs[c], c, outs, width, height)
  }

  /** The first n CRTCs have been dealt with: what is skipped and what was configured earlier is undisturbed. */
  ghost predicate ConfiguredUpTo(plans: seq<Crtc>, outs: seq<Output>, screen: Screen, randr13: bool, n: nat)
    requires ValidPlans(plans, outs)
  {
    && |screen.crtcs| == |plans|
    && (forall d :: 0 <= d < n <= |plans| ==> PendingKept(plans[d], screen.crtcs[d], randr13))
    && (forall d :: n <= d < |plans| ==> screen.crtcs[d].pending == plans[d].currentTransform)
    && (Separate(plans, outs) ==>
          forall d :: 0 <= d < |plans| && (d < n || !ToConfigure(plans[d])) ==>
            Reached(plans[d], screen.crtcs[d], outs, randr13))
  }

  /** What a successful CrtcApply does to the screen. */
  predicate ConfiguredOne(crtc: Crtc, c: nat, outs: seq<Output>, before: Screen, after: Screen, randr13: bool)
    requires ValidPlan(crtc, outs) && c < |before.crtcs| == |after.crtcs|
  {
    && PendingKept(crtc, after.crtcs[c], randr13)
    && (forall d :: 0 <= d < |after.crtcs| && d != c ==> after.crtcs[d].pending == before.crtcs[d].pending)
    && if !ToConfigure(crtc) then after == before
       else
         && after.crtcs[c] == Planned(crtc, outs, randr13)
         && forall d :: 0 <= d < |after.crtcs| && d != c ==>
               after.crtcs[d] == Released(before.crtcs[d], Xids(outs, crtc.outputs))
  }

  lemma {:induction false} OneMoreConfigured(plans: seq<Crtc>, outs: seq<Output>, before: Screen, after: Screen,
                                             randr13: bool, c: nat)
    requires c < |plans| && ValidPlans(plans, outs) && ConfiguredUpTo(plans, outs, before, randr13, c)
    requires |after.crtcs| == |plans| && ConfiguredOne(plans[c], c, outs, before, after, randr13)
    ensures ConfiguredUpTo(plans, outs, after, randr13, c + 1)
  {
    if Separate(plans, outs) && ToConfigure(plans[c]) {
      forall d | 0 <= d < |plans| && d != c && (d < c || !ToConfigure(plans[d]))
        ensures after.crtcs[d] == before.crtcs[d]
      {
        ReachedUndisturbed(plans, outs, c, d, before.crtcs[d], randr13);
      }
    }
  }

  /** The loop after the resize. */
  method ConfigureAll(server: XServer, crtcs: array<Crtc>, outs: seq<Output>) returns (s: Step)
    requires ValidPlans(crtcs[..], outs) && ConfiguredUpTo(crtcs[..], outs, server.screen, server.randr13, 0)
    modifies server
    ensures server.requests >= old(server.requests)
    ensures AllPendingKept(crtcs[..], server.screen, server.randr13)
    ensures server.screen.(crtcs := []) == old(server.screen).(crtcs := [])
    ensures s == Fine ==> ConfiguredUpTo(crtcs[..], outs, server.screen, server.randr13, crtcs.Length)
    ensures Just(server, crtcs[..], outs, s, old(server.screen.width), old(server.screen.height))
    ensures s == Refused ==> JustRefused(server, old(server.requests), server.requests)
    ensures s != Refused ==> AllAccepted(server, old(server.requests), server.requests)
    ensures s == Fine ==>
      && server.requests == old(server.requests) + AskedUpTo(crtcs[..], crtcs.Length)
      && PannedUpTo(crtcs[..], crtcs.Length, old(server.panned), server.panned)
  {
    ghost var plans, start, sent, panned := crtcs[..], server.screen, server.requests, server.panned;
    NothingAsked(server, plans, outs, sent, panned, start);
    for c := 0 to crtcs.Length
      invariant crtcs[..] == plans && server.requests >= sent
      invariant ConfiguredUpTo(plans, outs, server.screen, server.randr13, c)
      invariant CarriedUpTo(server, plans, outs, c, start, server.screen)
      invariant AskedFor(server, plans, c, sent, server.requests, panned, server.panned)
    {
      assert crtcs[c] == plans[c];
      s := ConfigureNext(server, crtcs[c], c, outs, plans, start, sent, panned);
      if s != Fine {
        return;
      }
    }
    AllCarried(server, plans, outs, start, server.screen);
    s := Fine;
  }

  lemma {:induction false} NothingAsked(server: XServer, plans: seq<Crtc>, outs: seq<Output>, sent: nat,
                                        panned: map<nat, Panning>, start: Screen)
    requires ValidPlans(plans, outs)
    ensures AskedFor(server, plans, 0, sent, sent, panned, panned) && CarriedUpTo(server, plans, outs, 0, start, start)
  {
  }

  lemma {:induction false} AllCarried(server: XServer, plans: seq<Crtc>, outs: seq<Output>, start: Screen,
                                      screen: Screen)
    requires ValidPlans(plans, outs) && CarriedUpTo(server, plans, outs, |plans|, start, screen)
    ensures Just(server, plans, outs, Fine, start.width, start.height)
  {
  }

  /** What a step that was not refused says about the plans. */
  ghost predicate Just(server: XServer, plans: seq<Crtc>, outs: seq<Output>, s: Step, width: int, height: int)
    requires ValidPlans(plans, outs)
  {
    && (s == Rejected ==> !AllPlansMeet(server, plans, outs, width, height))
    && (s == NeedsRandr13 ==> !server.randr13 && exists c :: 0 <= c < |plans| && plans[c].panning.Some?)
    && (s != Refused ==> (s == Fine <==> AllCarryable(server, plans, outs, width, height)))
  }

  lemma {:induction false} StopIsJust(server: XServer, plans: seq<Crtc>, outs: seq<Output>, c: nat, s: Step,
                                      width: int, height: int)
    requires ValidPlans(plans, outs) && c < |plans| && s != Fine
    requires s == Rejected ==> ToConfigure(plans[c]) && !PlanMeets(server, plans[c], c, outs, width, height)
    requires s == NeedsRandr13 ==> ToConfigure(plans[c]) && !server.randr13 && plans[c].panning.Some?
    ensures Just(server, plans, outs, s, width, height)
  {
    assert s != Refused ==> !Carryable(server, plans[c], c, outs, width, height);
  }

  /** The first n plans can be carried out, and the size of the screen has not changed. */
  predicate CarriedUpTo(server: XServer, plans: seq<Crtc>, outs: seq<Output>, n: nat, start: Screen, screen: Screen)
    requires ValidPlans(plans, outs)
  {
    && screen.(crtcs := []) == start.(crtcs := [])
    && forall d :: 0 <= d < n && d < |plans| ==> Carryable(server, plans[d], d, outs, start.width, start.height)
  }

  lemma {:induction false} OneMoreCarried(server: XServer, plans: seq<Crtc>, outs: seq<Output>, c: nat, start: Screen,
                                          before: Screen, after: Screen)
    requires ValidPlans(plans, outs) && c < |plans| && CarriedUpTo(server, plans, outs, c, start, before)
    requires after.(crtcs := []) == before.(crtcs := [])
    requires Carryable(server, plans[c], c, outs, before.width, before.height)
    ensures CarriedUpTo(server, plans, outs, c + 1, start, after)
  {
  }

  /** What the first n plans take was asked for, and nothing was refused. */
  ghost predicate AskedFor(server: XServer, plans: seq<Crtc>, n: nat, from: nat, to: nat, before: map<nat, Panning>,
                           after: map<nat, Panning>)
  {
    && n <= |plans| && to == from + AskedUpTo(plans, n) && AllAccepted(server, from, to)
    && PannedUpTo(plans, n, before, after)
  }

  lemma {:induction false} OneMoreAskedFor(server: XServer, plans: seq<Crtc>, c: nat, from: nat, mid: nat, to: nat,
                                           first: map<nat, Panning>, before: map<nat, Panning>,
                                           after: map<nat, Panning>)
    requires c < |plans| && AskedFor(server, plans, c, from, mid, first, before)
    requires to == mid + Asked(plans[c]) && AllAccepted(server, mid, to) && after == PannedAfter(plans[c], c, before)
    ensures AskedFor(server, plans, c + 1, from, to, first, after)
  {
    RepliesGoOn(server, from, mid, to);
    OneMorePanned(plans, c, first, before, after);
  }

  lemma {:induction false} OneMorePanned(plans: seq<Crtc>, c: nat, first: map<nat, Panning>, before: map<nat, Panning>,
                                         after: map<nat, Panning>)
    requires c < |plans| && PannedUpTo(plans, c, first, before)
    requires after == PannedAfter(plans[c], c, before)
    ensures PannedUpTo(plans, c + 1, first, after)
  {
    forall d | 0 <= d < c ensures PannedOne(plans[d], d, first, after) {
      assert PannedOne(plans[d], d, first, before);
    }
  }

  /** One round of that loop, which began with the given screen, number of requests and panning areas. */
  method ConfigureNext(server: XServer, crtc: Crtc, c: nat, outs: seq<Output>, ghost plans: seq<Crtc>,
                       ghost start: Screen, ghost sent: nat, ghost panned: map<nat, Panning>)
    returns (s: Step)
    requires c < |plans| && crtc == plans[c] && ValidPlans(plans, outs)
    requires ConfiguredUpTo(plans, outs, server.screen, server.randr13, c)
    requires CarriedUpTo(server, plans, outs, c, start, server.screen)
    requires AskedFor(server, plans, c, sent, server.requests, panned, server.panned)
    modifies server
    ensures server.requests >= old(server.requests)
    ensures server.screen.(crtcs := []) == start.(crtcs := [])
    ensures AllPendingKept(plans, server.screen, server.randr13)
    ensures s == Fine ==>
      && ConfiguredUpTo(plans, outs, server.screen, server.randr13, c + 1)
      && CarriedUpTo(server, plans, outs, c + 1, start, server.screen)
      && AskedFor(server, plans, c + 1, sent, server.requests, panned, server.panned)
    ensures s != Fine ==> Just(server, plans, outs, s, start.width, start.height)
    ensures s == Refused ==> JustRefused(server, sent, server.requests)
    ensures s != Refused ==> AllAccepted(server, sent, server.requests)
  {
    ghost var before, mid, pans := server.screen, server.requests, server.panned;
    s := CrtcApply(server, crtc, c, outs);
    RepliesGoOn(server, sent, mid, server.requests);
    if s == Fine {
      OneMoreConfigured(plans, outs, before, server.screen, server.randr13, c);
      OneMoreCarried(server, plans, outs, c, start, before, server.screen);
      OneMoreAskedFor(server, plans, c, sent, mid, server.requests, panned, pans, server.panned);
    } else {
      StopIsJust(server, plans, outs, c, s, start.width, start.height);
    }
  }

  lemma {:induction false} ReachedUndisturbed(crtcs: seq<Crtc>, outs: seq<Output>, c: nat, d: nat, shown: Shown,
                                              randr13: bool)
    requires ValidPlans(crtcs, outs) && Separate(crtcs, outs) && c < |crtcs| && d < |crtcs| && c != d
      && ToConfigure(crtcs[c])
    requires Reached(crtcs[d], shown, outs, randr13)
    ensures Released(shown, Xids(outs, crtcs[c].outputs)) == shown
  {
    var taken := Xids(outs, crtcs[c].outputs);
    forall u | u in shown.outputs ensures u !in taken {
    }
    ReleasedDisjoint(shown, taken);
  }

  /** How carrying out a plan ends; from is the first request of the way back. */
  datatype Outcome =
    | Applied
    | RolledBack(from: nat, restored: bool)
    | Killed
    | Aborted

  predicate AllReached(crtcs: seq<Crtc>, screen: Screen, outs: seq<Output>, randr13: bool)
    requires ValidPlans(crtcs, outs)
  {
    |crtcs| == |screen.crtcs| && forall c :: 0 <= c < |crtcs| ==> Reached(crtcs[c], screen.crtcs[c], outs, randr13)
  }

  /**
    How carrying out the plans ends, from the given number of requests, screen and panning
    areas on.  It is rolled back exactly when a request was refused, right after the first
    one, and if the server then refuses nothing more, the screen ends as given.  Otherwise
    the plans are carried out exactly when every CRTC to be configured can be, and then
    the panning areas are those planned.
   */
  ghost predicate EndsWith(server: XServer, requests: nat, screen: Screen, panned: map<nat, Panning>, crtcs: seq<Crtc>,
                           outs: seq<Output>, r: Outcome)
    requires ValidPlans(crtcs, outs)
    reads server
  {
    && (r.RolledBack? ==>
          && JustRefused(server, requests, r.from) && r.from <= server.requests
          && (AcceptsFrom(server, r.from) ==> r.restored && server.screen == screen))
    && (!r.RolledBack? ==>
          && AllAccepted(server, requests, server.requests)
          && (r == Applied <==> AllCarryable(server, crtcs, outs, server.screen.width, server.screen.height)))
    && (r == Applied ==> PannedUpTo(crtcs, |crtcs|, panned, server.panned))
  }

  lemma {:induction false} TurnedOff(server: XServer, before: seq<Crtc>, crtcs: seq<Crtc>, display: Screen,
                                     screen: Screen, outs: seq<Output>, width: int, height: int)
    requires Describes(before, display) && Consistent(server, display)
    requires |crtcs| == |before| == |screen.crtcs| && ValidPlans(before, outs)
    requires forall c :: 0 <= c < |crtcs| ==>
      && crtcs[c] == MarkedForResize(server.modes, before[c], width, height)
      && screen.crtcs[c] == AfterTurningOff(server.modes, before[c], width, height)
    ensures ValidPlans(crtcs, outs)
    ensures forall c :: 0 <= c < |crtcs| ==>
      && ShownFits(server.modes, screen.crtcs[c], width, height)
      && screen.crtcs[c].pending == crtcs[c].currentTransform
      && (!ToConfigure(crtcs[c]) ==> Reached(crtcs[c], screen.crtcs[c], outs, server.randr13))
  {
    forall c | 0 <= c < |crtcs|
      ensures ValidPlan(crtcs[c], outs) && ShownFits(server.modes, screen.crtcs[c], width, height)
      ensures screen.crtcs[c].pending == crtcs[c].currentTransform
      ensures !ToConfigure(crtcs[c]) ==> Reached(crtcs[c], screen.crtcs[c], outs, server.randr13)
    {
      assert display.crtcs[c] == Reported(before[c]);
    }
  }

  /**
    Carries out the plan.  The resize never breaks a precondition, and no request does
    when every plan meets them.  How it ends is told by EndsWith.
   */
  method Apply(server: XServer, crtcs: array<Crtc>, outs: seq<Output>, width: int, height: int, widthMm: int,
               heightMm: int)
    returns (r: Outcome)
    requires Describes(crtcs[..], server.screen) && Consistent(server, server.screen)
    requires ValidPlans(crtcs[..], outs) && InRange(server.limits, width, height)
    modifies server, crtcs
    ensures MarksAdded(old(crtcs[..]), crtcs[..]) && ValidPlans(crtcs[..], outs)
    ensures !r.RolledBack? ==>
      && server.screen.(crtcs := []) == Screen(width, height, widthMm, heightMm, [])
      && AllMarkedForResize(server.modes, old(crtcs[..]), crtcs[..], width, height)
    ensures r == Applied && Separate(crtcs[..], outs) ==> AllReached(crtcs[..], server.screen, outs, server.randr13)
    ensures EndsWith(server, old(server.requests), old(server.screen), old(server.panned), crtcs[..], outs, r)
    ensures AllPlansMeet(server, old(crtcs[..]), outs, width, height) ==> r != Killed
    ensures r == Aborted ==> !server.randr13 && exists c :: 0 <= c < crtcs.Length && crtcs[c].panning.Some?
  {
    var display := server.screen;
    ghost var before := crtcs[..];
    NoModeLost(server, before, display);
    var ok := TurnOff(server, crtcs, width, height);
    MarksAddedFacts(server, before, crtcs[..], display, outs, width, height);
    if ok {
      TurnedOff(server, before, crtcs[..], display, server.screen, outs, width, height);
      r := ResizeAndConfigure(server, crtcs, outs, display, width, height, widthMm, heightMm);
    } else {
      r := Panic(server, crtcs, display);
    }
  }

  /** The server knows the modes in force. */
  lemma {:induction false} NoModeLost(server: XServer, crtcs: seq<Crtc>, display: Screen)
    requires Describes(crtcs, display) && Consistent(server, display)
    ensures forall c :: 0 <= c < |crtcs| ==> !ModeLost(server.modes, crtcs[c])
  {
    forall c | 0 <= c < |crtcs| ensures !ModeLost(server.modes, crtcs[c]) {
      assert display.crtcs[c] == Reported(crtcs[c]);
    }
  }

  method ResizeAndConfigure(server: XServer, crtcs: array<Crtc>, outs: seq<Output>, display: Screen,
                            width: int, height: int, widthMm: int, heightMm: int)
    returns (r: Outcome)
    requires Describes(crtcs[..], display) && Consistent(server, display) && ValidPlans(crtcs[..], outs)
    requires |server.screen.crtcs| == crtcs.Length && server.MayResize(width, height)
    requires forall c :: 0 <= c < crtcs.Length ==>
      && server.screen.crtcs[c].pending == crtcs[c].currentTransform
      && (!ToConfigure(crtcs[c]) ==> Reached(crtcs[c], server.screen.crtcs[c], outs, server.randr13))
    modifies server
    ensures !r.RolledBack? ==> server.screen.(crtcs := []) == Screen(width, height, widthMm, heightMm, [])
    ensures r == Applied && Separate(crtcs[..], outs) ==> AllReached(crtcs[..], server.screen, outs, server.randr13)
    ensures EndsWith(server, old(server.requests), display, old(server.panned), crtcs[..], outs, r)
    ensures AllPlansMeet(server, crtcs[..], outs, width, height) ==> r != Killed
    ensures r == Aborted ==> !server.randr13 && exists c :: 0 <= c < crtcs.Length && crtcs[c].panning.Some?
  {
    var sized := ScreenApply(server, width, height, widthMm, heightMm);
    var s := ConfigureAll(server, crtcs, outs);
    match s
    case Fine => return Applied;
    case Refused => r := Panic(server, crtcs, display);
    case Rejected => return Killed;
    case NeedsRandr13 => return Aborted;
  }

  lemma {:induction false} MarksAddedFacts(server: XServer, before: seq<Crtc>, crtcs: seq<Crtc>, display: Screen,
                                           outs: seq<Output>, width: int, height: int)
    requires MarksAdded(before, crtcs) && Describes(before, display) && ValidPlans(before, outs)
    ensures Describes(crtcs, display) && ValidPlans(crtcs, outs)
    ensures AllPlansMeet(server, before, outs, width, height) ==> AllPlansMeet(server, crtcs, outs, width, height)
  {
    forall c | 0 <= c < |crtcs|
      ensures Reported(crtcs[c]) == Reported(before[c]) && ValidPlan(crtcs[c], outs)
      ensures PlanMeets(server, before[c], c, outs, width, height) ==>
        PlanMeets(server, crtcs[c], c, outs, width, height)
    {
      assert MarkAdded(before[c], crtcs[c]);
    }
  }

  method Panic(server: XServer, crtcs: array<Crtc>, display: Screen) returns (r: Outcome)
    requires Describes(crtcs[..], display) && Consistent(server, display)
    requires AllPendingKept(crtcs[..], server.screen, server.randr13)
    modifies server
    ensures r.RolledBack? && r.from == old(server.requests) <= server.requests
    ensures AcceptsFrom(server, r.from) ==> r.restored && server.screen == display
  {
    var from := server.requests;
    var ok := Revert(server, crtcs, display);
    return RolledBack(from, ok);
  }
}
