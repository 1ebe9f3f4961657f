/** The data the display allocator works on: the global `outputs` list and `crtcs` array of
    xbmc-xrandr.c, with the values the server reported for them.

    An output points at a CRTC by its index in `crtcs`; `None` is the null pointer. */
module RandrState {

  datatype Option<+T> = None | Some(value: T)

  /** X resource ids; 0 is the protocol's None. */
  type Xid = nat

  datatype Change =
    | CrtcChange | ModeChange | RelationChange | PositionChange | RotationChange
    | ReflectionChange | AutomaticChange | RefreshChange | PropertyChange
    | TransformChange | PanningChange | GammaChange | PrimaryChange

  datatype Relation = LeftOf | RightOf | Above | Below | SameAs

  /** A rotation mask: the four direction bits and the two reflection bits. */
  datatype Rotation = Rotation(direction: nat, reflectX: bool, reflectY: bool)

  const ROTATE_0 := 1
  const ROTATE_90 := 2
  const ROTATE_180 := 4
  const ROTATE_270 := 8

  datatype Mode = Mode(id: Xid, width: nat, height: nat)

  /** Rows of a 3x3 homogeneous matrix. */
  datatype Row = Row(a: real, b: real, c: real)

  datatype Transform = Transform(r0: Row, r1: Row, r2: Row, filter: string, params: seq<int>)

  /** What the server reported for a CRTC when the program started. */
  datatype CrtcInfo = CrtcInfo(x: int, y: int, mode: Xid, rotation: Rotation, outputs: seq<Xid>)

  /** What the server reported for an output when the program started. */
  datatype OutputInfo = OutputInfo(crtc: Xid, crtcs: seq<Xid>, clones: seq<Xid>)

  class Output {
    const name: string
    const xid: Xid
    const info: OutputInfo
    const relation: Relation
    const relativeTo: string

    var changes: set<Change>
    var crtc: Option<nat>
    var currentCrtc: Option<nat>
    var mode: Option<Mode>
    var x: int
    var y: int
    var rotation: Rotation
    var transform: Transform

    /** An output as the command line left it: the requested fields are set, and `changes`
        says which ones they are. */
    constructor (name: string, xid: Xid, info: OutputInfo, relation: Relation, relativeTo: string,
                 changes: set<Change>, crtc: Option<nat>, mode: Option<Mode>,
                 x: int, y: int, rotation: Rotation, transform: Transform)
      ensures this.name == name && this.xid == xid && this.info == info
      ensures this.relation == relation && this.relativeTo == relativeTo
      ensures this.changes == changes && this.crtc == crtc && this.currentCrtc == None
      ensures this.mode == mode && this.x == x && this.y == y
      ensures this.rotation == rotation && this.transform == transform
    {
      this.name, this.xid, this.info := name, xid, info;
      this.relation, this.relativeTo := relation, relativeTo;
      this.changes, this.crtc, this.currentCrtc := changes, crtc, None;
      this.mode, this.x, this.y := mode, x, y;
      this.rotation, this.transform := rotation, transform;
    }
  }

  class Crtc {
    const xid: Xid
    const info: CrtcInfo
    const currentTransform: Transform

    var changing: bool
    var mode: Option<Mode>
    var x: int
    var y: int
    var rotation: Rotation
    var pendingTransform: Transform
    var outputs: seq<Output>

    /** A CRTC as `get_crtcs` builds it: nothing planned yet. */
    constructor (xid: Xid, info: CrtcInfo, currentTransform: Transform)
      ensures this.xid == xid && this.info == info && this.currentTransform == currentTransform
      ensures !changing && mode == None && outputs == [] && x == 0 && y == 0
      ensures rotation == Rotation(ROTATE_0, false, false) && pendingTransform == currentTransform
    {
      this.xid, this.info, this.currentTransform := xid, info, currentTransform;
      changing, mode, outputs, x, y := false, None, [], 0, 0;
      rotation, pendingTransform := Rotation(ROTATE_0, false, false), currentTransform;
    }
  }

  /** The list entries are different objects, as the nodes of a linked list are. */
  ghost predicate Distinct<T>(s: seq<T>) {
    forall i, j :: 0 <= i < j < |s| ==> s[i] != s[j]
  }

  /** The first CRTC with the given id (`find_crtc_by_xid`). */
  function FindCrtc(crtcs: seq<Crtc>, xid: Xid): (r: Option<nat>)
    ensures r.Some? ==> r.value < |crtcs| && crtcs[r.value].xid == xid
    ensures r.Some? ==> forall j :: 0 <= j < r.value ==> crtcs[j].xid != xid
    ensures r.None? ==> forall j :: 0 <= j < |crtcs| ==> crtcs[j].xid != xid
  {
    FindCrtcFrom(crtcs, xid, 0)
  }

  function FindCrtcFrom(crtcs: seq<Crtc>, xid: Xid, c: nat): (r: Option<nat>)
    requires c <= |crtcs|
    ensures r.Some? ==> c <= r.value < |crtcs| && crtcs[r.value].xid == xid
    ensures r.Some? ==> forall j :: c <= j < r.value ==> crtcs[j].xid != xid
    ensures r.None? ==> forall j :: c <= j < |crtcs| ==> crtcs[j].xid != xid
    decreases |crtcs| - c
  {
    if c == |crtcs| then None
    else if crtcs[c].xid == xid then Some(c)
    else FindCrtcFrom(crtcs, xid, c + 1)
  }

  /** The first mode with the given id (`find_mode_by_xid`). */
  function FindMode(modes: seq<Mode>, id: Xid): (r: Option<Mode>)
    ensures r.Some? ==> r.value in modes && r.value.id == id
    ensures r.None? ==> forall m :: m in modes ==> m.id != id
  {
    if modes == [] then None
    else if modes[0].id == id then Some(modes[0])
    else FindMode(modes[1..], id)
  }

  // ----- What the server reported -----

  /** `m` is the mode with this id, known to the client; id 0 is no mode. */
  predicate HasModeOf(modes: seq<Mode>, id: Xid, m: Option<Mode>) {
    if id == 0 then m == None else m.Some? && m == FindMode(modes, id)
  }

  /** These are the values the server has for the output. */
  ghost predicate ServerValues(modes: seq<Mode>, crtcs: seq<Crtc>, id: Xid, crtc: Option<nat>, mode: Option<Mode>,
                               x: int, y: int, rotation: Rotation, transform: Transform)
  {
    if id == 0 then
      crtc == None && mode == None
    else
      && crtc.Some? && crtc == FindCrtc(crtcs, id)
      && var on := crtcs[crtc.value];
      && HasModeOf(modes, on.info.mode, mode)
      && x == on.info.x && y == on.info.y
      && rotation == on.info.rotation && transform == on.currentTransform
  }

  /** An output without marks is, in the client, exactly as on the server. */
  ghost predicate AsLoaded(modes: seq<Mode>, crtcs: seq<Crtc>, o: Output)
    reads o`changes, o`crtc, o`mode, o`x, o`y, o`rotation, o`transform
  {
    o.changes == {} ==>
      ServerValues(modes, crtcs, o.info.crtc, o.crtc, o.mode, o.x, o.y, o.rotation, o.transform)
  }

  /** The server's lists agree: an output names a CRTC exactly when that CRTC lists it, ids are
      unique, and a CRTC that is off lists nothing. */
  ghost predicate ConsistentServer(outs: seq<Output>, crtcs: seq<Crtc>) {
    && Distinct(outs) && Distinct(crtcs)
    && (forall j, k :: 0 <= j < k < |outs| ==> outs[j].xid != outs[k].xid)
    && (forall c, d :: 0 <= c < d < |crtcs| ==> crtcs[c].xid != crtcs[d].xid)
    && (forall c :: 0 <= c < |crtcs| ==> crtcs[c].xid != 0)
    && (forall k, c :: 0 <= k < |outs| && 0 <= c < |crtcs| ==>
          (outs[k].info.crtc == crtcs[c].xid <==> outs[k].xid in crtcs[c].info.outputs))
    && (forall c, id :: 0 <= c < |crtcs| && id in crtcs[c].info.outputs ==>
          crtcs[c].info.mode != 0 && exists k :: 0 <= k < |outs| && outs[k].xid == id)
  }
}
