/**
  The records the display planner works on.  The program keeps its outputs in a
  linked list that is only walked from head to tail, and its CRTCs in one
  allocated block; here both are arrays whose elements are overwritten in place,
  a pointer to an element is its index, and the array length plays NULL in lookups.
 */
module Display {
  import opened Options

  datatype Mode = Mode(id: nat, width: nat, height: nat)

  /** turn is the low four bits of the rotation word: 1, 2, 4 and 8 stand for 0, 90, 180 and 270 degrees. */
  datatype Rotation = Rotation(turn: nat, reflectX: bool, reflectY: bool)

  const NO_ROTATION := Rotation(1, false, false)

  /** Three rows of three 16.16 fixed point numbers. */
  type Matrix = m: seq<seq<int>> | |m| == 3 && forall r :: r in m ==> |r| == 3
    witness [[65536, 0, 0], [0, 65536, 0], [0, 0, 65536]]

  datatype Transform = Transform(matrix: Matrix, filter: string, params: seq<int>)

  datatype Panning = Panning(left: int, top: int, width: nat, height: nat)

  datatype Change =
    | ChangeCrtc | ChangeMode | ChangeRelation | ChangePosition | ChangeRotation
    | ChangeReflection | ChangeAutomatic | ChangeRefresh | ChangeProperty
    | ChangeTransform | ChangePanning | ChangeGamma | ChangePrimary

  datatype Relation = LeftOf | RightOf | Above | Below | SameAs

  /** An output, completed from the server's report: an output without a mode is off. */
  datatype Output = Output(
    name: string,
    xid: nat,
    crtcIds: seq<nat>,
    clones: seq<nat>,
    mode: Option<Mode>,
    rotation: Rotation,
    transform: Transform,
    panning: Panning,
    relation: Relation,
    relativeTo: string,
    changes: set<Change>,
    crtc: Option<nat>,
    currentCrtc: Option<nat>,
    x: int,
    y: int)

  /** What the server reported about a CRTC before anything was changed. */
  datatype CrtcInfo = CrtcInfo(x: int, y: int, mode: Option<nat>, rotation: Rotation, outputs: seq<nat>)

  /** A CRTC: the server's report, and the configuration planned for it. */
  datatype Crtc = Crtc(
    xid: nat,
    info: CrtcInfo,
    currentTransform: Transform,
    pendingTransform: Transform,
    changing: bool,
    mode: Option<Mode>,
    x: int,
    y: int,
    rotation: Rotation,
    outputs: seq<nat>,
    panning: Option<Panning>)

  function ModeWidth(mode: Mode, rotation: Rotation): nat {
    if rotation.turn == 1 || rotation.turn == 4 then mode.width
    else if rotation.turn == 2 || rotation.turn == 8 then mode.height
    else 0
  }

  function ModeHeight(mode: Mode, rotation: Rotation): nat {
    if rotation.turn == 1 || rotation.turn == 4 then mode.height
    else if rotation.turn == 2 || rotation.turn == 8 then mode.width
    else 0
  }

  /** Every CRTC pointer leads into the list of CRTCs. */
  predicate ValidCrtcs(crtcs: seq<Crtc>, outs: seq<Output>) {
    forall k :: 0 <= k < |outs| && outs[k].crtc.Some? ==> outs[k].crtc.value < |crtcs|
  }

  /** The larger of two numbers. */
  function Max(a: int, b: int): int { if a < b then b else a }

  /** The first CRTC with the given id, or |crtcs|. */
  function FindCrtc(crtcs: seq<Crtc>, xid: nat): (c: nat)
    ensures c <= |crtcs|
    ensures c < |crtcs| ==> crtcs[c].xid == xid
    ensures forall k :: 0 <= k < c ==> crtcs[k].xid != xid
  {
    First(crtcs, (c: Crtc) => c.xid == xid)
  }

  /** The first output with the given id, or |outputs|. */
  function FindOutput(outputs: seq<Output>, xid: nat): (i: nat)
    ensures i <= |outputs|
    ensures i < |outputs| ==> outputs[i].xid == xid
    ensures forall k :: 0 <= k < i ==> outputs[k].xid != xid
  {
    First(outputs, (o: Output) => o.xid == xid)
  }

  /** The first output with the given name, or |outputs|. */
  function FindOutputByName(outputs: seq<Output>, name: string): (i: nat)
    ensures i <= |outputs|
    ensures i < |outputs| ==> outputs[i].name == name
    ensures forall k :: 0 <= k < i ==> outputs[k].name != name
  {
    First(outputs, (o: Output) => o.name == name)
  }

  /** The first mode with the given id; the identifier None finds nothing. */
  function FindMode(modes: seq<Mode>, id: Option<nat>): (m: Option<Mode>)
    ensures m.Some? ==> m.value in modes && id == Some(m.value.id)
    ensures m.None? ==> forall k :: 0 <= k < |modes| ==> id != Some(modes[k].id)
  {
    if |modes| == 0 then None
    else if id == Some(modes[0].id) then Some(modes[0])
    else FindMode(modes[1..], id)
  }

  /** The loop behind every lookup of a CRTC by id. */
  method FindCrtcByXid(crtcs: seq<Crtc>, xid: nat) returns (c: nat)
    ensures c == FindCrtc(crtcs, xid)
  {
    c := 0;
    while c < |crtcs| && crtcs[c].xid != xid
      invariant c <= |crtcs|
      invariant forall k :: 0 <= k < c ==> crtcs[k].xid != xid
    {
      c := c + 1;
    }
  }

  /** The loop behind every lookup of an output by id. */
  method FindOutputByXid(outputs: array<Output>, xid: nat) returns (i: nat)
    ensures i == FindOutput(outputs[..], xid)
  {
    i := 0;
    while i < outputs.Length && outputs[i].xid != xid
      invariant i <= outputs.Length
      invariant forall k :: 0 <= k < i ==> outputs[k].xid != xid
    {
      i := i + 1;
    }
  }
}
