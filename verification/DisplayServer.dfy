/** The X server as the RandR requests of the display allocator see it: the screen size and, per
    CRTC, its configuration and pending transform (RandR protocol, section 7). */
module DisplayServer {
  import opened RandrState
  import opened ScreenSize

  datatype Config =
    | Off
    | On(mode: Mode, x: int, y: int, rotation: Rotation, transform: Transform, outputs: set<Xid>)

  /** A CRTC may be on only if what it shows lies inside the screen. */
  predicate Fits(c: Config, size: Size) {
    c.On? ==> Inside(Edge(c.mode, c.rotation, c.transform, c.x, c.y), size)
  }

  predicate AllFit(cs: seq<Config>, size: Size) {
    forall c :: 0 <= c < |cs| ==> Fits(cs[c], size)
  }

  /** A request is carried out, refused by the server for a reason of its own, or an X error, which
      ends the client. */
  datatype Status = Success | Refused | XError

  class Server {
    const modes: map<Xid, Mode>
    var size: Size
    var configs: seq<Config>
    var pending: seq<Transform>
    /** Requests refused, and X errors raised, so far. */
    ghost var refusals: nat
    ghost var errors: nat

    ghost predicate Valid()
      reads this`size, this`configs, this`pending
    {
      |configs| == |pending| && AllFit(configs, size)
    }

    constructor (modes: map<Xid, Mode>, size: Size, pending: seq<Transform>)
      ensures Valid() && this.modes == modes && this.size == size && this.pending == pending
      ensures forall c :: 0 <= c < |configs| ==> configs[c] == Off
      ensures refusals == 0 && errors == 0
    {
      this.modes, this.size, this.pending := modes, size, pending;
      configs := seq(|pending|, _ => Off);
      refusals, errors := 0, 0;
    }

    /** RRSetScreenSize: a BadMatch error if an enabled CRTC would not fit. */
    method SetScreenSize(to: Size) returns (s: Status)
      requires Valid()
      modifies this`size, this`errors
      ensures Valid()
      ensures s == if AllFit(configs, to) then Success else XError
      ensures size == (if s.Success? then to else old(size))
      ensures errors == old(errors) + (if s.Success? then 0 else 1)
    {
      if forall c :: 0 <= c < |configs| ==> Fits(configs[c], to) {
        size := to;
        return Success;
      }
      errors := errors + 1;
      return XError;
    }

    /** RRSetCrtcTransform: takes effect with the CRTC's next configuration. */
    method SetCrtcTransform(c: nat, t: Transform)
      requires Valid() && c < |pending|
      modifies this`pending
      ensures Valid() && pending == old(pending)[c := t]
    {
      pending := pending[c := t];
    }

    function Requested(c: nat, x: int, y: int, mode: Xid, rotation: Rotation, outputs: seq<Xid>): Config
      requires c < |pending| && (mode != 0 ==> mode in modes)
      reads this`pending
    {
      if mode == 0 then Off else On(modes[mode], x, y, rotation, pending[c], set id | id in outputs)
    }

    /** RRSetCrtcConfig: an error for an unknown mode or one that does not fit; otherwise the server
        may still refuse. */
    method SetCrtcConfig(c: nat, x: int, y: int, mode: Xid, rotation: Rotation, outputs: seq<Xid>)
      returns (s: Status)
      requires Valid() && c < |configs|
      modifies this`configs, this`refusals, this`errors
      ensures Valid()
      ensures s.XError? <==> mode != 0 && (mode !in modes || !Fits(Requested(c, x, y, mode, rotation, outputs), size))
      ensures configs ==
        if s.Success? then old(configs)[c := Requested(c, x, y, mode, rotation, outputs)] else old(configs)
      ensures refusals == old(refusals) + (if s.Refused? then 1 else 0)
      ensures errors == old(errors) + (if s.XError? then 1 else 0)
    {
      if mode != 0 && (mode !in modes || !Fits(Requested(c, x, y, mode, rotation, outputs), size)) {
        errors := errors + 1;
        return XError;
      }
      var willing: bool := *;
      if !willing {
        refusals := refusals + 1;
        return Refused;
      }
      configs := configs[c := Requested(c, x, y, mode, rotation, outputs)];
      return Success;
    }
  }
}
