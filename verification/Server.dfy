/**
  The X server as the planner meets it: a screen and its CRTCs, changed by requests
  that have preconditions (X Resize, Rotate and Reflect Extension, requests of
  version 1.2).  A request that breaks one is a protocol error, which ends the
  client; any other may still be refused, as the server pleases.
 */
module Server {
  import opened Options
  import opened Display
  import opened Geometry
  import opened ScreenSize

  datatype Reply = Accepted | Failed | InvalidConfigTime | InvalidTime | BadAlloc

  datatype Answer = Answered(reply: Reply) | ProtocolError

  /** What a CRTC shows; pending is the transform its next configuration will use. */
  datatype Shown = Shown(x: int, y: int, mode: Option<nat>, rotation: Rotation, outputs: seq<nat>,
                         transform: Transform, pending: Transform)

  datatype Screen = Screen(width: int, height: int, widthMm: int, heightMm: int, crtcs: seq<Shown>)

  /** The users that are not taken away. */
  function Without(users: seq<nat>, taken: seq<nat>): (left: seq<nat>)
    ensures forall u :: u in left <==> u in users && u !in taken
    ensures (forall u :: u in users ==> u !in taken) ==> left == users
  {
    if users == [] then []
    else
      var rest := Without(users[1..], taken);
      assert users == [users[0]] + users[1..];
      if users[0] in taken then rest else [users[0]] + rest
  }

  /** A CRTC gives up the outputs another one takes, and goes dark when none is left. */
  function Released(s: Shown, taken: seq<nat>): Shown {
    var left := Without(s.outputs, taken);
    if left == s.outputs then s
    else if left == [] then s.(mode := None, outputs := [])
    else s.(outputs := left)
  }

  function Configured(screen: Screen, c: nat, x: int, y: int, mode: Option<nat>, rotation: Rotation,
                      outputs: seq<nat>): Screen
    requires c < |screen.crtcs|
  {
    var pending := screen.crtcs[c].pending;
    screen.(crtcs := seq(|screen.crtcs|, d requires 0 <= d < |screen.crtcs| =>
      if d == c then Shown(x, y, mode, rotation, outputs, pending, pending) else Released(screen.crtcs[d], outputs)))
  }

  /** The area shown does not reach beyond the right and bottom edges. */
  predicate ShownFits(modes: seq<Mode>, s: Shown, width: int, height: int) {
    s.mode.Some? ==>
      var mode := FindMode(modes, s.mode);
      && mode.Some?
      && s.x + Bounds(mode.value, s.rotation, s.transform).x2 <= width
      && s.y + Bounds(mode.value, s.rotation, s.transform).y2 <= height
  }

  predicate InRange(limits: Limits, width: int, height: int) {
    limits.minWidth <= width <= limits.maxWidth && limits.minHeight <= height <= limits.maxHeight
  }

  /** What the server knows of an output: the CRTCs that can drive it, the modes it supports, and its clones. */
  datatype Connector = Connector(crtcs: set<nat>, modes: set<nat>, clones: set<nat>)

  class XServer {
    const modes: seq<Mode>
    const limits: Limits
    const randr13: bool
    const connectors: nat -> Connector
    /** Whether a CRTC can be rotated and reflected like this. */
    const rotates: (nat, Rotation) -> bool
    /** How the server answers its n-th configuration or panning request, if that breaks no precondition. */
    const reply: nat -> Reply
    var requests: nat
    /** The panning areas that were set. */
    var panned: map<nat, Panning>
    /** How many times the client asked for another screen size. */
    var resizes: nat
    var screen: Screen

    constructor (modes: seq<Mode>, limits: Limits, randr13: bool, connectors: nat -> Connector,
                 rotates: (nat, Rotation) -> bool, reply: nat -> Reply, screen: Screen)
      ensures this.modes == modes && this.limits == limits && this.randr13 == randr13
      ensures this.connectors == connectors && this.rotates == rotates && this.reply == reply
      ensures this.screen == screen && requests == 0 && resizes == 0 && panned == map[]
    {
      this.modes, this.limits, this.randr13 := modes, limits, randr13;
      this.connectors, this.rotates, this.reply := connectors, rotates, reply;
      this.screen, requests, resizes, panned := screen, 0, 0, map[];
    }

    /** Every active CRTC must fit the new size, which must be in range; there is no reply. */
    predicate MayResize(width: int, height: int)
      reads this`screen
    {
      && InRange(limits, width, height)
      && forall c :: 0 <= c < |screen.crtcs| ==> ShownFits(modes, screen.crtcs[c], width, height)
    }

    method SetScreenSize(width: int, height: int, widthMm: int, heightMm: int) returns (ok: bool)
      modifies `screen, `resizes
      ensures ok == old(MayResize(width, height)) && resizes == old(resizes) + 1
      ensures screen == if ok then Screen(width, height, widthMm, heightMm, old(screen.crtcs)) else old(screen)
    {
      ok := MayResize(width, height);
      resizes := resizes + 1;
      if ok {
        screen := screen.(width := width, height := height, widthMm := widthMm, heightMm := heightMm);
      }
    }

    /** CRTC c can show the mode like this on all the outputs at once: each of them supports it, and they are clones. */
    predicate Drives(c: nat, mode: nat, rotation: Rotation, outputs: seq<nat>) {
      && rotates(c, rotation)
      && forall i :: 0 <= i < |outputs| ==>
           && c in connectors(outputs[i]).crtcs && mode in connectors(outputs[i]).modes
           && forall j :: 0 <= j < |outputs| && j != i ==> outputs[j] in connectors(outputs[i]).clones
    }

    /** A mode needs outputs that can show it and the other way around, and the area must lie on the screen. */
    predicate MayConfigure(c: nat, x: int, y: int, mode: Option<nat>, rotation: Rotation, outputs: seq<nat>)
      requires c < |screen.crtcs|
      reads this`screen
    {
      var pending := screen.crtcs[c].pending;
      && (mode.None? <==> outputs == [])
      && (mode.Some? ==> Drives(c, mode.value, rotation, outputs))
      && ShownFits(modes, Shown(x, y, mode, rotation, outputs, pending, pending), screen.width, screen.height)
    }

    method SetCrtcConfig(c: nat, x: int, y: int, mode: Option<nat>, rotation: Rotation, outputs: seq<nat>)
      returns (a: Answer)
      requires c < |screen.crtcs|
      modifies `screen, `requests
      ensures a == if old(MayConfigure(c, x, y, mode, rotation, outputs)) then Answered(reply(old(requests)))
        else ProtocolError
      ensures requests == if a.Answered? then old(requests) + 1 else old(requests)
      ensures screen == if a == Answered(Accepted) then Configured(old(screen), c, x, y, mode, rotation, outputs)
        else old(screen)
    {
      if !MayConfigure(c, x, y, mode, rotation, outputs) {
        return ProtocolError;
      }
      a := Answered(reply(requests));
      requests := requests + 1;
      if a.reply == Accepted {
        screen := Configured(screen, c, x, y, mode, rotation, outputs);
      }
    }

    /** Takes effect with the next configuration; servers before version 1.3 are not asked. */
    method SetCrtcTransform(c: nat, transform: Transform)
      requires c < |screen.crtcs|
      modifies `screen
      ensures screen == if randr13
        then old(screen).(crtcs := old(screen.crtcs)[c := old(screen.crtcs[c]).(pending := transform)])
        else old(screen)
    {
      if randr13 {
        screen := screen.(crtcs := screen.crtcs[c := screen.crtcs[c].(pending := transform)]);
      }
    }

    /** Panning is not part of what is shown here. */
    method SetPanning(c: nat, area: Panning) returns (r: Reply)
      modifies `requests, `panned
      ensures r == reply(old(requests)) && requests == old(requests) + 1
      ensures panned == if r == Accepted then old(panned)[c := area] else old(panned)
    {
      r := reply(requests);
      requests := requests + 1;
      if r == Accepted {
        panned := panned[c := area];
      }
    }
  }

  /** No other CRTC shows one of the outputs. */
  predicate Untaken(screen: Screen, c: nat, outputs: seq<nat>) {
    forall d :: 0 <= d < |screen.crtcs| && d != c ==> forall u :: u in screen.crtcs[d].outputs ==> u !in outputs
  }

  /** Then configuring a CRTC changes only that one. */
  lemma {:induction false} ConfiguredAlone(screen: Screen, c: nat, x: int, y: int, mode: Option<nat>,
                                           rotation: Rotation, outputs: seq<nat>)
    requires c < |screen.crtcs| && Untaken(screen, c, outputs)
    ensures var pending := screen.crtcs[c].pending;
            Configured(screen, c, x, y, mode, rotation, outputs)
              == screen.(crtcs := screen.crtcs[c := Shown(x, y, mode, rotation, outputs, pending, pending)])
  {
    var configured := Configured(screen, c, x, y, mode, rotation, outputs);
    forall d | 0 <= d < |screen.crtcs| && d != c ensures configured.crtcs[d] == screen.crtcs[d] {
      ReleasedDisjoint(screen.crtcs[d], outputs);
    }
  }

  /** Releasing outputs a CRTC does not have changes nothing. */
  lemma {:induction false} ReleasedDisjoint(s: Shown, taken: seq<nat>)
    requires forall u :: u in s.outputs ==> u !in taken
    ensures Released(s, taken) == s
  {
  }
}
