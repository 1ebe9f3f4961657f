/** `CGUILargeTextureManager` and `CLargeTexture` as objects; every method is one step of the state
    machine in TextureLedger. `now` is the clock behind `CTimeUtils::GetFrameTime`. */
module TextureManager {
  import opened TextureLedger

  class LargeTexture {
    const path: string
    var refCount: nat
    var timeToDelete: nat
    var texture: Option<Pixels>

    constructor (path: string)
      ensures Value() == Image(path, 1, 0, None)
    {
      this.path, refCount, timeToDelete, texture := path, 1, 0, None;
    }

    function Value(): Image
      reads this
    {
      Image(path, refCount, timeToDelete, texture)
    }

    method AddRef()
      modifies this`refCount
      ensures Value() == old(Value()).(refs := old(refCount) + 1)
    {
      refCount := refCount + 1;
    }

    /** True when the last reference is gone; the caller then drops an image that is deleted at once. */
    method DecrRef(deleteImmediately: bool, now: nat) returns (last: bool)
      requires refCount > 0
      modifies this`refCount, this`timeToDelete
      ensures last <==> old(refCount) == 1
      ensures Value() == if last && deleteImmediately then old(Value()).(refs := 0) else Dropped(old(Value()), now)
    {
      refCount := refCount - 1;
      if refCount == 0 {
        if !deleteImmediately {
          timeToDelete := (Frame(now) + TIME_TO_DELETE) % WRAP;
        }
        return true;
      }
      return false;
    }

    /** True when the image is deleted; the destructor's assertion holds then. */
    method DeleteIfRequired(deleteImmediately: bool, now: nat) returns (deleted: bool)
      ensures deleted <==> Expired(Value(), deleteImmediately, now)
      ensures deleted ==> refCount == 0
    {
      return refCount == 0 && (deleteImmediately || timeToDelete < Frame(now));
    }

    method SetTexture(t: Option<Pixels>)
      requires texture.None?
      modifies this`texture
      ensures Value() == old(Value()).(texture := t)
    {
      texture := t;
    }
  }

  class LargeTextureManager {
    var queued: seq<(nat, LargeTexture)>
    var loaded: seq<LargeTexture>
    /** The counter of the job manager that starts the loaders. */
    var nextJob: nat

    constructor ()
      ensures Shows(State([], [], 1))
    {
      queued, loaded, nextJob := [], [], 1;
    }

    ghost function Objects(): set<LargeTexture>
      reads this`queued, this`loaded
    {
      (set i | 0 <= i < |loaded| :: loaded[i]) + (set j | 0 <= j < |queued| :: queued[j].1)
    }

    /** The lists hold different objects, whose values are `s`. */
    ghost predicate Shows(s: State)
      reads this, Objects()
    {
      && |loaded| == |s.loaded| && |queued| == |s.queued| && nextJob == s.nextJob
      && (forall i :: 0 <= i < |loaded| ==> loaded[i].Value() == s.loaded[i])
      && (forall j :: 0 <= j < |queued| ==> queued[j].1.Value() == s.queued[j].image && queued[j].0 == s.queued[j].id)
      && (forall i, j :: 0 <= i < j < |loaded| ==> loaded[i] != loaded[j])
      && (forall i, j :: 0 <= i < j < |queued| ==> queued[i].1 != queued[j].1)
      && (forall i, j :: 0 <= i < |loaded| && 0 <= j < |queued| ==> loaded[i] != queued[j].1)
    }

    method EraseLoaded(i: nat, ghost s: State)
      requires Shows(s) && i < |loaded|
      modifies this`loaded
      ensures Shows(s.(loaded := Without(s.loaded, i)))
      ensures loaded == Without(old(loaded), i) && Objects() <= old(Objects())
    {
      loaded := Without(loaded, i);
    }

    method EraseQueued(i: nat, ghost s: State)
      requires Shows(s) && i < |queued|
      modifies this`queued
      ensures Shows(s.(queued := Without(s.queued, i)))
      ensures queued == Without(old(queued), i) && Objects() <= old(Objects())
    {
      queued := Without(queued, i);
    }

    /** One reference less for a queued image, which is dropped at once when it was the last. */
    method DropQueued(i: nat, now: nat, ghost s: State) returns (last: bool)
      requires Shows(s) && i < |queued| && s.queued[i].image.refs > 0
      modifies Objects()`refCount, Objects()`timeToDelete
      ensures last <==> s.queued[i].image.refs == 1
      ensures var j := s.queued[i];
        Shows(s.(queued := s.queued[i := j.(image := j.image.(refs := j.image.refs - 1))]))
    {
      last := queued[i].1.DecrRef(true, now);
    }

    /** One reference less for a loaded image. */
    method DropLoaded(i: nat, immediately: bool, now: nat, ghost s: State) returns (last: bool)
      requires Shows(s) && i < |loaded| && s.loaded[i].refs > 0
      modifies Objects()`refCount, Objects()`timeToDelete
      ensures last <==> s.loaded[i].refs == 1
      ensures var x := if last && immediately then s.loaded[i].(refs := 0) else Dropped(s.loaded[i], now);
        Shows(s.(loaded := s.loaded[i := x]))
    {
      last := loaded[i].DecrRef(immediately, now);
    }

    method SetQueuedTexture(i: nat, t: Option<Pixels>, ghost s: State)
      requires Shows(s) && i < |queued| && s.queued[i].image.texture.None?
      modifies Objects()`texture
      ensures Shows(s.(queued := s.queued[i := s.queued[i].(image := s.queued[i].image.(texture := t))]))
    {
      queued[i].1.SetTexture(t);
    }

    method MoveToLoaded(i: nat, ghost s: State)
      requires Shows(s) && i < |queued|
      modifies this`queued, this`loaded
      ensures Shows(State(Without(s.queued, i), s.loaded + [s.queued[i].image], s.nextJob))
      ensures Objects() <= old(Objects())
    {
      var image := queued[i].1;
      queued := Without(queued, i);
      loaded := loaded + [image];
    }

    /** One turn of the loop of `CleanupUnusedImages`; `left` are the images still in the list. */
    method SweepOne(it: nat, immediately: bool, now: nat, ghost s: State, ghost left: seq<Image>)
      returns (deleted: bool, ghost after: seq<Image>)
      requires Shows(s.(loaded := left)) && it < |loaded|
      modifies this`loaded
      ensures Shows(s.(loaded := after)) && Objects() <= old(Objects())
      ensures |loaded| == |old(loaded)| - if deleted then 1 else 0
      ensures var next := if deleted then it else it + 1;
        Swept(after, next, immediately, now) == Swept(left, it, immediately, now)
    {
      SweptStep(left, it, immediately, now);
      deleted := loaded[it].DeleteIfRequired(immediately, now);
      after := left;
      if deleted {
        EraseLoaded(it, s.(loaded := left));
        after := Without(left, it);
      }
    }

    method CleanupUnusedImages(immediately: bool, now: nat, ghost s: State)
      requires Shows(s)
      modifies this`loaded
      ensures Shows(Cleanup(s, immediately, now))
      ensures Objects() <= old(Objects())
    {
      var it := 0;
      ghost var left := s.loaded;
      while it < |loaded|
        invariant it <= |loaded| && Shows(s.(loaded := left))
        invariant Objects() <= old(Objects())
        invariant Swept(left, it, immediately, now) == Surviving(s.loaded, immediately, now)
        decreases |loaded| - it
      {
        var deleted;
        deleted, left := SweepOne(it, immediately, now, s, left);
        if !deleted {
          it := it + 1;
        }
      }
      assert left[..it] == left && left[it..] == [];
    }

    /** The result is false only for an image whose loading failed or has not been set. */
    method GetImage(path: string, firstRequest: bool, ghost s: State) returns (texture: Option<Pixels>, ok: bool)
      requires Shows(s)
      modifies this`queued, this`nextJob, Objects()`refCount
      ensures Shows(Get(s, path, firstRequest))
      ensures fresh(Objects() - old(Objects()))
      ensures var i := FindLoaded(s.loaded, path);
        if i.Some? then texture == s.loaded[i.value].texture && ok == texture.Some? else texture == None && ok
    {
      var i := 0;
      while i < |loaded| && loaded[i].path != path
        invariant i <= |loaded|
        invariant forall j :: 0 <= j < i ==> s.loaded[j].path != path
      {
        i := i + 1;
      }
      if i < |loaded| {
        assert s.loaded[i].path == path;
        texture := loaded[i].texture;
        ok := texture.Some?;
        if firstRequest { loaded[i].AddRef(); }
        return;
      }
      if firstRequest { QueueImage(path, s); }
      return None, true;
    }

    method QueueImage(path: string, ghost s: State)
      requires Shows(s)
      modifies this`queued, this`nextJob, Objects()`refCount
      ensures Shows(Queue(s, path))
      ensures fresh(Objects() - old(Objects()))
    {
      if path == "" { return; }
      var i := 0;
      while i < |queued| && queued[i].1.path != path
        invariant i <= |queued|
        invariant forall j :: 0 <= j < i ==> s.queued[j].image.path != path
      {
        i := i + 1;
      }
      if i < |queued| {
        assert s.queued[i].image.path == path;
        queued[i].1.AddRef();
        return;
      }
      var image := new LargeTexture(path);
      queued := queued + [(nextJob, image)];
      nextJob := nextJob + 1;
    }

    method ReleaseImage(path: string, immediately: bool, now: nat, ghost s: State)
      requires Shows(s) && Unique(s) && CanRelease(s, path)
      modifies this`queued, this`loaded, Objects()`refCount, Objects()`timeToDelete
      ensures Shows(Release(s, path, immediately, now))
      ensures Objects() <= old(Objects())
    {
      var i := 0;
      while i < |loaded| && loaded[i].path != path
        invariant i <= |loaded|
        invariant forall j :: 0 <= j < i ==> s.loaded[j].path != path
      {
        i := i + 1;
      }
      if i < |loaded| {
        ReleaseLoaded(path, i, immediately, now, s);
      } else {
        ReleaseQueued(path, now, s);
      }
    }

    /** The loaded image at `i` is the first with the path. */
    method ReleaseLoaded(path: string, i: nat, immediately: bool, now: nat, ghost s: State)
      requires Shows(s) && Unique(s) && CanRelease(s, path)
      requires i < |loaded| == |s.loaded| && s.loaded[i].path == path
      requires forall j :: 0 <= j < i ==> s.loaded[j].path != path
      modifies this`loaded, Objects()`refCount, Objects()`timeToDelete
      ensures Shows(Release(s, path, immediately, now))
      ensures Objects() <= old(Objects())
    {
      var last := DropLoaded(i, immediately, now, s);
      if last && immediately {
        ghost var x := s.loaded[i].(refs := 0);
        EraseLoaded(i, s.(loaded := s.loaded[i := x]));
        assert Without(s.loaded[i := x], i) == Without(s.loaded, i);
      }
    }

    /** The second loop of `ReleaseImage`: it goes on after an image that is still referenced, but paths
        are unique, so it finds no other. */
    method ReleaseQueued(path: string, now: nat, ghost s: State)
      requires Shows(s) && Unique(s) && CanRelease(s, path) && FindLoaded(s.loaded, path).None?
      modifies this`queued, Objects()`refCount, Objects()`timeToDelete
      ensures Shows(Release(s, path, false, now))
      ensures Objects() <= old(Objects())
    {
      var it := 0;
      ghost var at := FindQueued(s.queued, path);
      ghost var cur := s;
      while it < |queued|
        invariant it <= |queued| == |s.queued| && queued == old(queued) && loaded == old(loaded)
        invariant Shows(cur)
        invariant cur == if at.Some? && it > at.value then Release(s, path, false, now) else s
        invariant at.Some? && it > at.value ==> s.queued[at.value].image.refs > 1
      {
        assert queued[it].1.path == s.queued[it].image.path;
        if queued[it].1.path == path {
          assert at == Some(it);
          var last := ReleaseQueuedAt(path, it, now, s);
          if last { return; }
          cur := Release(s, path, false, now);
        }
        it := it + 1;
      }
    }

    /** The queued image at `i` is the one with the path. */
    method ReleaseQueuedAt(path: string, i: nat, now: nat, ghost s: State) returns (last: bool)
      requires Shows(s) && CanRelease(s, path) && FindLoaded(s.loaded, path).None?
      requires i < |queued| && FindQueued(s.queued, path) == Some(i)
      modifies this`queued, Objects()`refCount, Objects()`timeToDelete
      ensures Shows(Release(s, path, false, now)) && Objects() <= old(Objects())
      ensures !last ==> queued == old(queued) && s.queued[i].image.refs > 1
    {
      last := DropQueued(i, now, s);
      if last {
        ghost var j := s.queued[i];
        ghost var dropped := s.queued[i := j.(image := j.image.(refs := 0))];
        EraseQueued(i, s.(queued := dropped));
        assert Without(dropped, i) == Without(s.queued, i);
      }
    }

    method OnJobComplete(jobID: nat, texture: Option<Pixels>, ghost s: State)
      requires Shows(s) && NoAssertFails(s, Done(jobID, texture))
      modifies this`queued, this`loaded, Objects()`texture
      ensures Shows(Complete(s, jobID, texture))
      ensures Objects() <= old(Objects())
    {
      var i := 0;
      while i < |queued| && queued[i].0 != jobID
        invariant i <= |queued|
        invariant forall j :: 0 <= j < i ==> s.queued[j].id != jobID
      {
        i := i + 1;
      }
      if i < |queued| {
        assert s.queued[i].id == jobID;
        ghost var j := s.queued[i];
        ghost var ready := s.(queued := s.queued[i := j.(image := j.image.(texture := texture))]);
        SetQueuedTexture(i, texture, s);
        MoveToLoaded(i, ready);
        assert Without(ready.queued, i) == Without(s.queued, i);
      }
    }
  }

  /** The list a sweep will leave when the first `it` images have been kept. */
  function Swept(left: seq<Image>, it: nat, immediately: bool, now: nat): seq<Image>
    requires it <= |left|
  {
    left[..it] + Surviving(left[it..], immediately, now)
  }

  lemma SweptStep(left: seq<Image>, it: nat, immediately: bool, now: nat)
    requires it < |left|
    ensures if Expired(left[it], immediately, now)
            then Swept(Without(left, it), it, immediately, now) == Swept(left, it, immediately, now)
            else Swept(left, it + 1, immediately, now) == Swept(left, it, immediately, now)
  {
    assert left[it..] == [left[it]] + left[it + 1..];
    assert Without(left, it)[..it] == left[..it] && Without(left, it)[it..] == left[it + 1..];
    assert left[..it + 1] == left[..it] + [left[it]];
  }
}
