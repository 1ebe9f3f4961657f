/** The large texture cache as a state machine: what each locked step of `CGUILargeTextureManager`
    does, and what holds in every interleaving of requests, releases, cleanups, job completions
    and the clock. */
module TextureLedger {

  datatype Option<+T> = None | Some(value: T)

  /** A decoded image; its content does not matter here. */
  type Pixels = nat

  const TIME_TO_DELETE := 2000
  const WRAP := 0x1_0000_0000

  /** The frame time is an unsigned 32-bit count of milliseconds. */
  function Frame(clock: nat): nat {
    clock % WRAP
  }

  /** One CLargeTexture. */
  datatype Image = Image(path: string, refs: nat, timeToDelete: nat, texture: Option<Pixels>)

  datatype Job = Job(id: nat, image: Image)

  datatype State = State(queued: seq<Job>, loaded: seq<Image>, nextJob: nat)

  // ----- Lookups -----

  function FindLoaded(a: seq<Image>, path: string): (r: Option<nat>)
    ensures r.Some? ==> r.value < |a| && a[r.value].path == path && forall j :: 0 <= j < r.value ==> a[j].path != path
    ensures r.None? ==> forall j :: 0 <= j < |a| ==> a[j].path != path
  {
    if a == [] then None
    else if a[0].path == path then Some(0)
    else match FindLoaded(a[1..], path) case None => None case Some(i) => Some(i + 1)
  }

  function FindQueued(q: seq<Job>, path: string): (r: Option<nat>)
    ensures r.Some? ==> r.value < |q| && q[r.value].image.path == path
    ensures r.Some? ==> forall j :: 0 <= j < r.value ==> q[j].image.path != path
    ensures r.None? ==> forall j :: 0 <= j < |q| ==> q[j].image.path != path
  {
    if q == [] then None
    else if q[0].image.path == path then Some(0)
    else match FindQueued(q[1..], path) case None => None case Some(i) => Some(i + 1)
  }

  function FindJob(q: seq<Job>, id: nat): (r: Option<nat>)
    ensures r.Some? ==> r.value < |q| && q[r.value].id == id && forall j :: 0 <= j < r.value ==> q[j].id != id
    ensures r.None? ==> forall j :: 0 <= j < |q| ==> q[j].id != id
  {
    if q == [] then None
    else if q[0].id == id then Some(0)
    else match FindJob(q[1..], id) case None => None case Some(i) => Some(i + 1)
  }

  function Without<T>(s: seq<T>, i: nat): (r: seq<T>)
    requires i < |s|
    ensures |r| == |s| - 1 && forall j :: 0 <= j < |r| ==> r[j] == s[if j < i then j else j + 1]
  {
    s[..i] + s[i + 1..]
  }

  // ----- Steps -----

  /** `QueueImage`. */
  function Queue(s: State, path: string): State {
    if path == "" then s
    else
      match FindQueued(s.queued, path)
      case Some(i) =>
        var j := s.queued[i];
        s.(queued := s.queued[i := j.(image := j.image.(refs := j.image.refs + 1))])
      case None =>
        State(s.queued + [Job(s.nextJob, Image(path, 1, 0, None))], s.loaded, s.nextJob + 1)
  }

  /** `GetImage`. */
  function Get(s: State, path: string, first: bool): State {
    match FindLoaded(s.loaded, path)
    case Some(i) =>
      if first then s.(loaded := s.loaded[i := s.loaded[i].(refs := s.loaded[i].refs + 1)]) else s
    case None => if first then Queue(s, path) else s
  }

  /** The time to delete of an image whose last reference goes at time `now`. */
  function Deadline(now: nat): nat {
    (Frame(now) + TIME_TO_DELETE) % WRAP
  }

  /** An image after its count has gone down at time `now`. */
  function Dropped(i: Image, now: nat): Image
    requires i.refs > 0
  {
    if i.refs == 1 then i.(refs := 0, timeToDelete := Deadline(now))
    else i.(refs := i.refs - 1)
  }

  /** No assertion of the program fails when `path` is released. */
  predicate CanRelease(s: State, path: string) {
    match FindLoaded(s.loaded, path)
    case Some(i) => s.loaded[i].refs > 0
    case None =>
      match FindQueued(s.queued, path)
      case Some(i) => s.queued[i].image.refs > 0
      case None => true
  }

  /** `ReleaseImage`. */
  function Release(s: State, path: string, immediately: bool, now: nat): State
    requires CanRelease(s, path)
  {
    match FindLoaded(s.loaded, path)
    case Some(i) =>
      if s.loaded[i].refs == 1 && immediately then s.(loaded := Without(s.loaded, i))
      else s.(loaded := s.loaded[i := Dropped(s.loaded[i], now)])
    case None =>
      match FindQueued(s.queued, path)
      case None => s
      case Some(i) =>
        var j := s.queued[i];
        if j.image.refs == 1 then s.(queued := Without(s.queued, i))
        else s.(queued := s.queued[i := j.(image := j.image.(refs := j.image.refs - 1))])
  }

  /** `DeleteIfRequired` would delete the image. */
  predicate Expired(i: Image, immediately: bool, now: nat) {
    i.refs == 0 && (immediately || i.timeToDelete < Frame(now))
  }

  function Surviving(a: seq<Image>, immediately: bool, now: nat): (r: seq<Image>) {
    if a == [] then []
    else if Expired(a[0], immediately, now) then Surviving(a[1..], immediately, now)
    else [a[0]] + Surviving(a[1..], immediately, now)
  }

  /** `CleanupUnusedImages`. */
  function Cleanup(s: State, immediately: bool, now: nat): State {
    s.(loaded := Surviving(s.loaded, immediately, now))
  }

  /** `OnJobComplete`; the texture is None when loading failed. */
  function Complete(s: State, id: nat, texture: Option<Pixels>): State {
    match FindJob(s.queued, id)
    case None => s
    case Some(i) =>
      State(Without(s.queued, i), s.loaded + [s.queued[i].image.(texture := texture)], s.nextJob)
  }

  // ----- Runs -----

  datatype Event =
    | Request(path: string, first: bool)
    | Drop(path: string, immediately: bool)
    | Sweep(immediately: bool)
    | Done(id: nat, texture: Option<Pixels>)
    | Tick(ms: nat)

  /** A state of the whole system: the cache and the clock; and, kept from the events alone, how many
      first requests for each path are not yet released, since when a path has had none, and which
      path each job was started for. */
  datatype World = World(cache: State, now: nat, due: map<string, nat>, idle: map<string, nat>, jobs: map<nat, string>)

  const START := World(State([], [], 1), 0, map[], map[], map[])

  function Due(w: World, path: string): nat {
    if path in w.due then w.due[path] else 0
  }

  /** Releases are balanced: only what was requested is released. */
  predicate Allowed(w: World, e: Event) {
    e.Drop? && e.path != "" ==> Due(w, e.path) > 0
  }

  /** None of the program's assertions fails in this step. */
  predicate NoAssertFails(c: State, e: Event) {
    match e
    case Drop(path, _) => CanRelease(c, path)
    case Done(id, _) => FindJob(c.queued, id).Some? ==> c.queued[FindJob(c.queued, id).value].image.texture.None?
    case _ => true
  }

  function Next(w: World, e: Event): World
    requires NoAssertFails(w.cache, e)
  {
    match e
    case Request(path, first) =>
      var c := Get(w.cache, path, first);
      w.(cache := c,
         due := if first && path != "" then w.due[path := Due(w, path) + 1] else w.due,
         idle := if first && path != "" then w.idle - {path} else w.idle,
         jobs := if c.nextJob > w.cache.nextJob then w.jobs[w.cache.nextJob := path] else w.jobs)
    case Drop(path, immediately) =>
      w.(cache := Release(w.cache, path, immediately, w.now),
         due := if path != "" && Due(w, path) > 0 then w.due[path := Due(w, path) - 1] else w.due,
         idle := if path != "" && Due(w, path) == 1 then w.idle[path := w.now] else w.idle)
    case Sweep(immediately) => w.(cache := Cleanup(w.cache, immediately, w.now))
    case Done(id, texture) => w.(cache := Complete(w.cache, id, texture))
    case Tick(ms) => w.(now := w.now + ms)
  }

  // ----- The invariant -----

  predicate QueuedOk(w: World, j: Job) {
    && j.image.path != "" && j.image.refs >= 1 && j.image.refs == Due(w, j.image.path)
    && j.image.texture.None?
    && j.id < w.cache.nextJob && j.id in w.jobs && w.jobs[j.id] == j.image.path
  }

  predicate LoadedOk(w: World, i: Image) {
    && i.path != "" && i.refs == Due(w, i.path)
    && (i.refs == 0 ==> i.path in w.idle && w.idle[i.path] <= w.now && i.timeToDelete == Deadline(w.idle[i.path]))
  }

  predicate InLoaded(a: seq<Image>, path: string) {
    exists i :: 0 <= i < |a| && a[i].path == path
  }

  predicate InQueued(q: seq<Job>, path: string) {
    exists j :: 0 <= j < |q| && q[j].image.path == path
  }

  /** No path is held twice, and no job id is used twice. */
  ghost predicate Unique(c: State) {
    && (forall i, j :: 0 <= i < j < |c.loaded| ==> c.loaded[i].path != c.loaded[j].path)
    && (forall i, j :: 0 <= i < j < |c.queued| ==> c.queued[i].image.path != c.queued[j].image.path)
    && (forall i, j :: 0 <= i < j < |c.queued| ==> c.queued[i].id != c.queued[j].id)
    && (forall i, j :: 0 <= i < |c.loaded| && 0 <= j < |c.queued| ==> c.loaded[i].path != c.queued[j].image.path)
  }

  /** Whatever is still requested is held. */
  ghost predicate DueAreHeld(w: World) {
    forall p :: Due(w, p) > 0 ==> p != "" && (InLoaded(w.cache.loaded, p) || InQueued(w.cache.queued, p))
  }

  /** Each path is held at most once, counted once for every outstanding request, and held if there
      is any; every queued image waits for the job started for its path. */
  ghost predicate Inv(w: World) {
    && Unique(w.cache) && DueAreHeld(w)
    && (forall j :: 0 <= j < |w.cache.queued| ==> QueuedOk(w, w.cache.queued[j]))
    && (forall i :: 0 <= i < |w.cache.loaded| ==> LoadedOk(w, w.cache.loaded[i]))
    && (forall id :: id in w.jobs ==> id < w.cache.nextJob)
  }

  lemma InvAllowsRelease(w: World, path: string)
    requires Inv(w) && (path != "" ==> Due(w, path) > 0)
    ensures CanRelease(w.cache, path)
  {
  }

  // ----- What each kind of change keeps -----

  /** `r` counts the requests like `w`, except for `path`. */
  ghost predicate SameDue(w: World, r: World, path: string) {
    && (forall p :: p != path ==> Due(r, p) == Due(w, p))
    && (forall p :: p != path && p in w.idle ==> p in r.idle && r.idle[p] == w.idle[p])
    && r.jobs == w.jobs && r.now == w.now && r.cache.nextJob == w.cache.nextJob
  }

  lemma LoadedReplaced(w: World, r: World, i: nat, x: Image)
    requires Inv(w) && i < |w.cache.loaded| && x.path == w.cache.loaded[i].path
    requires r.cache.loaded == w.cache.loaded[i := x] && r.cache.queued == w.cache.queued
    requires SameDue(w, r, x.path) && LoadedOk(r, x)
    ensures Inv(r)
  {
    forall p | Due(r, p) > 0
      ensures p != "" && (InLoaded(r.cache.loaded, p) || InQueued(r.cache.queued, p))
    {
      if p == x.path {
        assert r.cache.loaded[i].path == p;
      } else if InLoaded(w.cache.loaded, p) {
        var k :| 0 <= k < |w.cache.loaded| && w.cache.loaded[k].path == p;
        assert r.cache.loaded[k].path == p;
      }
    }
  }

  lemma QueuedReplaced(w: World, r: World, i: nat, x: Job)
    requires Inv(w) && i < |w.cache.queued| && x.image.path == w.cache.queued[i].image.path
    requires x.id == w.cache.queued[i].id
    requires r.cache.queued == w.cache.queued[i := x] && r.cache.loaded == w.cache.loaded
    requires SameDue(w, r, x.image.path) && QueuedOk(r, x)
    ensures Inv(r)
  {
    forall p | Due(r, p) > 0
      ensures p != "" && (InLoaded(r.cache.loaded, p) || InQueued(r.cache.queued, p))
    {
      if p == x.image.path {
        assert r.cache.queued[i].image.path == p;
      } else if InQueued(w.cache.queued, p) {
        var k :| 0 <= k < |w.cache.queued| && w.cache.queued[k].image.path == p;
        assert r.cache.queued[k].image.path == p;
      }
    }
  }

  lemma RemovedAreUnique(c: State, i: nat, inLoaded: bool)
    requires Unique(c) && i < if inLoaded then |c.loaded| else |c.queued|
    ensures Unique(if inLoaded then c.(loaded := Without(c.loaded, i)) else c.(queued := Without(c.queued, i)))
  {
  }

  lemma LoadedRemoved(w: World, r: World, i: nat)
    requires Inv(w) && i < |w.cache.loaded|
    requires r.cache == w.cache.(loaded := Without(w.cache.loaded, i))
    requires SameDue(w, r, w.cache.loaded[i].path) && Due(r, w.cache.loaded[i].path) == 0
    ensures Inv(r)
  {
    RemovedAreUnique(w.cache, i, true);
    forall p | Due(r, p) > 0
      ensures p != "" && (InLoaded(r.cache.loaded, p) || InQueued(r.cache.queued, p))
    {
      assert Due(w, p) > 0;
      if InLoaded(w.cache.loaded, p) {
        var k :| 0 <= k < |w.cache.loaded| && w.cache.loaded[k].path == p;
        assert r.cache.loaded[if k < i then k else k - 1].path == p;
      }
    }
  }

  lemma QueuedRemoved(w: World, r: World, i: nat)
    requires Inv(w) && i < |w.cache.queued|
    requires r.cache == w.cache.(queued := Without(w.cache.queued, i))
    requires SameDue(w, r, w.cache.queued[i].image.path) && Due(r, w.cache.queued[i].image.path) == 0
    ensures Inv(r)
  {
    RemovedAreUnique(w.cache, i, false);
    forall p | Due(r, p) > 0
      ensures p != "" && (InLoaded(r.cache.loaded, p) || InQueued(r.cache.queued, p))
    {
      assert Due(w, p) > 0;
      if InQueued(w.cache.queued, p) {
        var k :| 0 <= k < |w.cache.queued| && w.cache.queued[k].image.path == p;
        assert r.cache.queued[if k < i then k else k - 1].image.path == p;
      }
    }
  }

  // ----- Every step keeps the invariant -----

  lemma AddedIsUnique(c: State, x: Job)
    requires Unique(c) && !InLoaded(c.loaded, x.image.path) && !InQueued(c.queued, x.image.path)
    requires forall j :: 0 <= j < |c.queued| ==> c.queued[j].id != x.id
    ensures Unique(c.(queued := c.queued + [x]))
  {
  }

  lemma AddedAreHeld(w: World, r: World, x: Job)
    requires DueAreHeld(w) && x.image.path != ""
    requires forall p :: p != x.image.path ==> Due(r, p) == Due(w, p)
    requires r.cache.queued == w.cache.queued + [x] && r.cache.loaded == w.cache.loaded
    ensures DueAreHeld(r)
  {
    forall p | Due(r, p) > 0
      ensures p != "" && (InLoaded(r.cache.loaded, p) || InQueued(r.cache.queued, p))
    {
      if p == x.image.path {
        assert r.cache.queued[|w.cache.queued|].image.path == p;
      } else if InQueued(w.cache.queued, p) {
        var k :| 0 <= k < |w.cache.queued| && w.cache.queued[k].image.path == p;
        assert r.cache.queued[k].image.path == p;
      }
    }
  }

  /** A new image for a path that is not held, with a new job. */
  lemma ImageAdded(w: World, r: World, x: Job)
    requires Inv(w) && x.image.path != "" && x.image == Image(x.image.path, 1, 0, None) && x.id == w.cache.nextJob
    requires !InLoaded(w.cache.loaded, x.image.path) && !InQueued(w.cache.queued, x.image.path)
    requires r.cache == State(w.cache.queued + [x], w.cache.loaded, w.cache.nextJob + 1)
    requires Due(r, x.image.path) == 1 && forall p :: p != x.image.path ==> Due(r, p) == Due(w, p)
    requires forall p :: p != x.image.path && p in w.idle ==> p in r.idle && r.idle[p] == w.idle[p]
    requires r.jobs == w.jobs[x.id := x.image.path] && r.now == w.now
    ensures Inv(r)
  {
    AddedIsUnique(w.cache, x);
    AddedAreHeld(w, r, x);
    forall i | 0 <= i < |r.cache.loaded| ensures LoadedOk(r, r.cache.loaded[i]) {
      assert LoadedOk(w, w.cache.loaded[i]);
    }
    forall j | 0 <= j < |r.cache.queued| ensures QueuedOk(r, r.cache.queued[j]) {
      if j < |w.cache.queued| { assert QueuedOk(w, w.cache.queued[j]); }
    }
  }

  lemma NewImageKeepsInv(w: World, path: string)
    requires Inv(w) && path != "" && FindLoaded(w.cache.loaded, path).None? && FindQueued(w.cache.queued, path).None?
    ensures Inv(Next(w, Request(path, true)))
  {
    assert Due(w, path) == 0;
    ImageAdded(w, Next(w, Request(path, true)), Job(w.cache.nextJob, Image(path, 1, 0, None)));
  }

  lemma RequestKeepsInv(w: World, path: string, first: bool)
    requires Inv(w)
    ensures Inv(Next(w, Request(path, first)))
  {
    var r := Next(w, Request(path, first));
    var inLoaded, inQueued := FindLoaded(w.cache.loaded, path), FindQueued(w.cache.queued, path);
    if !first || path == "" {
      assert r == w;
    } else if inLoaded.Some? {
      LoadedReplaced(w, r, inLoaded.value, r.cache.loaded[inLoaded.value]);
    } else if inQueued.Some? {
      QueuedReplaced(w, r, inQueued.value, r.cache.queued[inQueued.value]);
    } else {
      NewImageKeepsInv(w, path);
    }
  }

  lemma DropLoadedKeepsInv(w: World, path: string, immediately: bool, i: nat)
    requires Inv(w) && path != "" && Due(w, path) > 0 && FindLoaded(w.cache.loaded, path) == Some(i)
    ensures Inv(Next(w, Drop(path, immediately)))
  {
    var r := Next(w, Drop(path, immediately));
    if w.cache.loaded[i].refs == 1 && immediately {
      LoadedRemoved(w, r, i);
    } else {
      LoadedReplaced(w, r, i, r.cache.loaded[i]);
    }
  }

  lemma DropQueuedKeepsInv(w: World, path: string, immediately: bool, i: nat)
    requires Inv(w) && path != "" && Due(w, path) > 0
    requires FindLoaded(w.cache.loaded, path).None? && FindQueued(w.cache.queued, path) == Some(i)
    ensures Inv(Next(w, Drop(path, immediately)))
  {
    var r := Next(w, Drop(path, immediately));
    if w.cache.queued[i].image.refs == 1 {
      QueuedRemoved(w, r, i);
    } else {
      QueuedReplaced(w, r, i, r.cache.queued[i]);
    }
  }

  lemma DropKeepsInv(w: World, path: string, immediately: bool)
    requires Inv(w) && Allowed(w, Drop(path, immediately))
    ensures CanRelease(w.cache, path) && Inv(Next(w, Drop(path, immediately)))
  {
    InvAllowsRelease(w, path);
    var inLoaded, inQueued := FindLoaded(w.cache.loaded, path), FindQueued(w.cache.queued, path);
    if inLoaded.Some? {
      DropLoadedKeepsInv(w, path, immediately, inLoaded.value);
    } else if inQueued.Some? {
      DropQueuedKeepsInv(w, path, immediately, inQueued.value);
    } else {
      assert Next(w, Drop(path, immediately)) == w;
    }
  }

  ghost predicate UniquePaths(a: seq<Image>) {
    forall i, j :: 0 <= i < j < |a| ==> a[i].path != a[j].path
  }

  /** A sweep keeps exactly the images that have not expired. */
  lemma {:induction false} SurvivingIsFilter(a: seq<Image>, immediately: bool, now: nat)
    ensures forall x :: x in Surviving(a, immediately, now) <==> x in a && !Expired(x, immediately, now)
    ensures UniquePaths(a) ==> UniquePaths(Surviving(a, immediately, now))
  {
    if a != [] {
      SurvivingIsFilter(a[1..], immediately, now);
      var r := Surviving(a[1..], immediately, now);
      assert forall x :: x in a <==> x == a[0] || x in a[1..];
      if UniquePaths(a) {
        assert UniquePaths(a[1..]);
        forall j | 0 <= j < |r| ensures r[j].path != a[0].path {
          assert r[j] in a[1..];
        }
      }
    }
  }

  lemma SweepKeepsInv(w: World, immediately: bool)
    requires Inv(w)
    ensures Inv(Next(w, Sweep(immediately)))
  {
    var a := w.cache.loaded;
    var r := Next(w, Sweep(immediately));
    SurvivingIsFilter(a, immediately, w.now);
    assert UniquePaths(a);
    forall i | 0 <= i < |r.cache.loaded| ensures r.cache.loaded[i] in a && LoadedOk(r, r.cache.loaded[i]) {
      assert r.cache.loaded[i] in r.cache.loaded;
      var k :| 0 <= k < |a| && a[k] == r.cache.loaded[i];
      assert LoadedOk(w, a[k]);
    }
    forall p | Due(r, p) > 0
      ensures p != "" && (InLoaded(r.cache.loaded, p) || InQueued(r.cache.queued, p))
    {
      if InLoaded(a, p) {
        var k :| 0 <= k < |a| && a[k].path == p;
        assert a[k] in r.cache.loaded;
      }
    }
  }

  /** Moving a finished job's image keeps what is held. */
  lemma MovedAreHeld(w: World, r: World, d: nat, x: Image)
    requires DueAreHeld(w) && r.due == w.due && d < |w.cache.queued| && x.path == w.cache.queued[d].image.path
    requires r.cache.loaded == w.cache.loaded + [x] && r.cache.queued == Without(w.cache.queued, d)
    ensures DueAreHeld(r)
  {
    var q, a := w.cache.queued, w.cache.loaded;
    forall p | Due(r, p) > 0
      ensures p != "" && (InLoaded(r.cache.loaded, p) || InQueued(r.cache.queued, p))
    {
      assert Due(w, p) > 0;
      if InLoaded(a, p) {
        var k :| 0 <= k < |a| && a[k].path == p;
        assert r.cache.loaded[k].path == p;
      } else {
        var k :| 0 <= k < |q| && q[k].image.path == p;
        if k == d { assert r.cache.loaded[|a|].path == p; }
        else { assert r.cache.queued[if k < d then k else k - 1].image.path == p; }
      }
    }
  }

  lemma MovedAreUnique(c: State, d: nat, x: Image)
    requires Unique(c) && d < |c.queued| && x.path == c.queued[d].image.path
    ensures Unique(State(Without(c.queued, d), c.loaded + [x], c.nextJob))
  {
  }

  lemma DoneKeepsInv(w: World, id: nat, texture: Option<Pixels>)
    requires Inv(w)
    ensures Inv(Next(w, Done(id, texture)))
  {
    var r := Next(w, Done(id, texture));
    if FindJob(w.cache.queued, id).Some? {
      var d := FindJob(w.cache.queued, id).value;
      var x := w.cache.queued[d].image.(texture := texture);
      assert QueuedOk(w, w.cache.queued[d]);
      MovedAreHeld(w, r, d, x);
      MovedAreUnique(w.cache, d, x);
      forall i | 0 <= i < |r.cache.loaded| ensures LoadedOk(r, r.cache.loaded[i]) {
        if i < |w.cache.loaded| { assert LoadedOk(w, w.cache.loaded[i]); }
      }
      forall j | 0 <= j < |r.cache.queued| ensures QueuedOk(r, r.cache.queued[j]) {
        assert QueuedOk(w, w.cache.queued[if j < d then j else j + 1]);
      }
    } else {
      assert r == w;
    }
  }

  lemma TickKeepsInv(w: World, ms: nat)
    requires Inv(w)
    ensures Inv(Next(w, Tick(ms)))
  {
    var r := Next(w, Tick(ms));
    forall p | Due(r, p) > 0
      ensures p != "" && (InLoaded(r.cache.loaded, p) || InQueued(r.cache.queued, p))
    {
      assert Due(w, p) > 0;
    }
  }

  lemma StepKeepsInv(w: World, e: Event)
    requires Inv(w) && Allowed(w, e)
    ensures NoAssertFails(w.cache, e) && Inv(Next(w, e))
  {
    match e
    case Request(path, first) => RequestKeepsInv(w, path, first);
    case Drop(path, immediately) => DropKeepsInv(w, path, immediately);
    case Sweep(immediately) => SweepKeepsInv(w, immediately);
    case Done(id, texture) => DoneKeepsInv(w, id, texture);
    case Tick(ms) => TickKeepsInv(w, ms);
  }

  // ----- Whole runs -----

  function IsRequest(e: Event, path: string): nat {
    if e == Request(path, true) then 1 else 0
  }

  function IsRelease(e: Event, path: string): nat {
    if e.Drop? && e.path == path then 1 else 0
  }

  lemma StepCounts(w: World, e: Event, path: string)
    requires NoAssertFails(w.cache, e) && Allowed(w, e) && path != ""
    ensures Due(Next(w, e), path) + IsRelease(e, path) == Due(w, path) + IsRequest(e, path)
  {
  }

  function Requests(es: seq<Event>, path: string): nat {
    if es == [] then 0
    else IsRequest(es[0], path) + Requests(es[1..], path)
  }

  function Releases(es: seq<Event>, path: string): nat {
    if es == [] then 0
    else IsRelease(es[0], path) + Releases(es[1..], path)
  }

  /** No prefix of the events releases a path more often than it was first requested. */
  ghost predicate Balanced(es: seq<Event>) {
    forall n, p :: 0 <= n <= |es| && p != "" ==> Releases(es[..n], p) <= Requests(es[..n], p)
  }

  /** No assertion fails anywhere in the run. */
  predicate Safe(w: World, es: seq<Event>)
    decreases es
  {
    es == [] || (NoAssertFails(w.cache, es[0]) && Safe(Next(w, es[0]), es[1..]))
  }

  function Run(w: World, es: seq<Event>): World
    requires Safe(w, es)
    decreases es
  {
    if es == [] then w else Run(Next(w, es[0]), es[1..])
  }

  /** Starting from `w`, no prefix of the events releases more than is due by then. */
  ghost predicate BalancedFrom(w: World, es: seq<Event>) {
    forall n, p :: 0 <= n <= |es| && p != "" ==> Releases(es[..n], p) <= Due(w, p) + Requests(es[..n], p)
  }

  lemma BalancedStep(w: World, es: seq<Event>)
    requires es != [] && BalancedFrom(w, es)
    ensures Allowed(w, es[0])
    ensures NoAssertFails(w.cache, es[0]) ==> BalancedFrom(Next(w, es[0]), es[1..])
  {
    var e, rest := es[0], es[1..];
    if e.Drop? && e.path != "" {
      assert es[..1] == [e];
      assert Releases([e], e.path) == 1 && Requests([e], e.path) == 0;
    }
    if NoAssertFails(w.cache, e) {
      forall n, p | 0 <= n <= |rest| && p != ""
        ensures Releases(rest[..n], p) <= Due(Next(w, e), p) + Requests(rest[..n], p)
      {
        StepCounts(w, e, p);
        assert es[..n + 1][1..] == rest[..n];
        assert Releases(es[..n + 1], p) <= Due(w, p) + Requests(es[..n + 1], p);
      }
    }
  }

  lemma {:induction false} BalancedRun(w: World, es: seq<Event>)
    requires Inv(w) && BalancedFrom(w, es)
    ensures Safe(w, es) && Inv(Run(w, es))
    decreases es
  {
    if es != [] {
      BalancedStep(w, es);
      StepKeepsInv(w, es[0]);
      BalancedRun(Next(w, es[0]), es[1..]);
    }
  }

  lemma {:induction false} RunCounts(w: World, es: seq<Event>, path: string)
    requires Inv(w) && BalancedFrom(w, es) && Safe(w, es) && path != ""
    ensures Due(Run(w, es), path) + Releases(es, path) == Due(w, path) + Requests(es, path)
    decreases es
  {
    if es != [] {
      BalancedStep(w, es);
      StepKeepsInv(w, es[0]);
      StepCounts(w, es[0], path);
      RunCounts(Next(w, es[0]), es[1..], path);
    }
  }

  /** In every run with balanced releases no assertion fails, and the invariant holds at the end; the
      count of every held image is the number of first requests less the number of releases, and a
      path that is still requested is held. */
  lemma EveryRun(es: seq<Event>)
    requires Balanced(es)
    ensures Safe(START, es) && Inv(Run(START, es))
    ensures forall p :: p != "" ==> Due(Run(START, es), p) == Requests(es, p) - Releases(es, p)
  {
    BalancedRun(START, es);
    forall p | p != "" ensures Due(Run(START, es), p) == Requests(es, p) - Releases(es, p) {
      RunCounts(START, es, p);
    }
  }

  // ----- Jobs -----

  /** A finished job's texture goes to the image of the path it was started for, if that image still
      waits for this job, and to nothing else. */
  lemma TextureReachesOwnPath(w: World, id: nat, texture: Option<Pixels>, i: nat)
    requires Inv(w) && i < |Next(w, Done(id, texture)).cache.loaded|
    ensures var x := Next(w, Done(id, texture)).cache.loaded[i];
      if i < |w.cache.loaded| then x == w.cache.loaded[i]
      else FindJob(w.cache.queued, id).Some? && x.texture == texture && id in w.jobs && x.path == w.jobs[id]
           && !InLoaded(w.cache.loaded, x.path)
  {
    if FindJob(w.cache.queued, id).Some? {
      assert QueuedOk(w, w.cache.queued[FindJob(w.cache.queued, id).value]);
    }
  }

  lemma GoneStep(w: World, e: Event, id: nat)
    requires NoAssertFails(w.cache, e)
    requires id < w.cache.nextJob && FindJob(w.cache.queued, id).None?
    ensures FindJob(Next(w, e).cache.queued, id).None? && id < Next(w, e).cache.nextJob
  {
    var r := Next(w, e).cache;
    forall j | 0 <= j < |r.queued| ensures r.queued[j].id != id {
      match e
      case Request(path, first) => assert j < |w.cache.queued| ==> r.queued[j].id == w.cache.queued[j].id;
      case Drop(path, immediately) =>
        assert |r.queued| == |w.cache.queued| ==> r.queued[j].id == w.cache.queued[j].id;
      case Sweep(immediately) =>
      case Done(other, texture) =>
      case Tick(ms) =>
    }
  }

  /** A job that no image waits for any more, because it was cancelled or has finished, never delivers
      again, whatever is queued afterwards. */
  lemma {:induction false} GoneJobsStayGone(w: World, es: seq<Event>, id: nat)
    requires Safe(w, es) && id < w.cache.nextJob && FindJob(w.cache.queued, id).None?
    ensures FindJob(Run(w, es).cache.queued, id).None?
    ensures forall t :: Complete(Run(w, es).cache, id, t) == Run(w, es).cache
    decreases es
  {
    if es != [] {
      GoneStep(w, es[0], id);
      GoneJobsStayGone(Next(w, es[0]), es[1..], id);
    }
  }

  // ----- Deletion -----

  /** A deadline is never met early exactly when computing it does not wrap around. */
  lemma NotEarlyIff(released: nat)
    ensures (forall now :: now >= released && Deadline(released) < Frame(now) ==> now - released > TIME_TO_DELETE)
            <==> Frame(released) + TIME_TO_DELETE < WRAP
  {
    if Frame(released) + TIME_TO_DELETE >= WRAP {
      assert Deadline(released) == Frame(released) + TIME_TO_DELETE - WRAP < Frame(released);
    } else {
      forall now | now >= released && Deadline(released) < Frame(now) ensures now - released > TIME_TO_DELETE {
        assert Frame(released) + TIME_TO_DELETE < Frame(now);
        assert now / WRAP >= released / WRAP;
      }
    }
  }

  /** A sweep that is not immediate deletes only images that nothing has requested since some time,
      more than TIME_TO_DELETE ago unless computing the deadline wrapped around. */
  lemma SweepDeletesOnlyIdle(w: World, x: Image)
    requires Inv(w) && x in w.cache.loaded && x !in Next(w, Sweep(false)).cache.loaded
    ensures x.path in w.idle && Due(w, x.path) == 0
    ensures Frame(w.idle[x.path]) + TIME_TO_DELETE < WRAP ==> w.now - w.idle[x.path] > TIME_TO_DELETE
  {
    SurvivingIsFilter(w.cache.loaded, false, w.now);
    var i :| 0 <= i < |w.cache.loaded| && w.cache.loaded[i] == x;
    assert LoadedOk(w, w.cache.loaded[i]);
    NotEarlyIff(w.idle[x.path]);
  }

  lemma {:induction false} RunSnoc(w: World, es: seq<Event>, e: Event)
    requires Safe(w, es + [e])
    ensures Safe(w, es) && NoAssertFails(Run(w, es).cache, e)
    ensures Run(w, es + [e]) == Next(Run(w, es), e)
    decreases es
  {
    if es == [] {
      assert es + [e] == [e];
      assert [e][1..] == [];
    } else {
      assert (es + [e])[0] == es[0] && (es + [e])[1..] == es[1..] + [e];
      RunSnoc(Next(w, es[0]), es[1..], e);
    }
  }

  lemma {:induction false} SafePrefix(w: World, es: seq<Event>, n: nat)
    requires Safe(w, es) && n <= |es|
    ensures Safe(w, es[..n])
    decreases es
  {
    if n > 0 {
      assert es[..n][1..] == es[1..][..n - 1];
      SafePrefix(Next(w, es[0]), es[1..], n - 1);
    }
  }

  /** `t` is the clock at the release, the last event before `n`, and nothing has been due for the
      path ever since. */
  ghost predicate ReleasedAt(es: seq<Event>, path: string, n: nat, t: nat)
    requires Safe(START, es)
  {
    && 0 < n <= |es| && es[n - 1].Drop? && es[n - 1].path == path
    && (SafePrefix(START, es, n - 1); Run(START, es[..n - 1]).now == t)
    && forall m :: n <= m <= |es| ==> (SafePrefix(START, es, m); Due(Run(START, es[..m]), path) == 0)
  }

  /** One more event after which nothing is due for the path leaves what was said of the release. */
  lemma {:induction false} ReleasedStill(es: seq<Event>, e: Event, path: string, n: nat, t: nat)
    requires Safe(START, es) && Safe(START, es + [e])
    requires ReleasedAt(es, path, n, t) && Due(Run(START, es + [e]), path) == 0
    ensures ReleasedAt(es + [e], path, n, t)
  {
    var all := es + [e];
    assert all[..n - 1] == es[..n - 1];
    forall m | n <= m <= |all| ensures (SafePrefix(START, all, m); Due(Run(START, all[..m]), path) == 0) {
      SafePrefix(START, all, m);
      if m <= |es| {
        SafePrefix(START, es, m);
        assert all[..m] == es[..m];
      } else {
        assert all[..m] == all;
      }
    }
  }

  /** The last drop of a path releases it. */
  lemma {:induction false} ReleasedNow(es: seq<Event>, e: Event, path: string)
    requires Safe(START, es) && Safe(START, es + [e])
    requires e.Drop? && e.path == path && Due(Run(START, es + [e]), path) == 0
    ensures ReleasedAt(es + [e], path, |es| + 1, Run(START, es).now)
  {
    var all := es + [e];
    assert all[..|es|] == es && all[..|all|] == all;
  }

  /** What `idle` means: the clock at the release since which nothing has been due for the path. */
  lemma {:induction false} IdleMeansReleased(es: seq<Event>, path: string) returns (n: nat)
    requires Safe(START, es) && path in Run(START, es).idle
    ensures ReleasedAt(es, path, n, Run(START, es).idle[path])
    decreases |es|
  {
    var before, e := es[..|es| - 1], es[|es| - 1];
    assert es == before + [e];
    RunSnoc(START, before, e);
    if e.Drop? && e.path == path && path != "" && Due(Run(START, before), path) == 1 {
      n := |es|;
      ReleasedNow(before, e, path);
    } else {
      n := IdleMeansReleased(before, path);
      assert before[..|before|] == before;
      ReleasedStill(before, e, path, n, Run(START, before).idle[path]);
    }
  }

  /** After any run with balanced releases, a sweep that is not immediate deletes only images whose path
      was released and not requested since, more than TIME_TO_DELETE ago unless the deadline computed at
      that release wrapped around. */
  lemma SweepAfterRun(es: seq<Event>, x: Image) returns (n: nat, released: nat)
    requires Balanced(es) && Safe(START, es)
    requires x in Run(START, es).cache.loaded && x !in Next(Run(START, es), Sweep(false)).cache.loaded
    ensures ReleasedAt(es, x.path, n, released)
    ensures Frame(released) + TIME_TO_DELETE < WRAP ==> Run(START, es).now - released > TIME_TO_DELETE
  {
    var w := Run(START, es);
    EveryRun(es);
    SweepDeletesOnlyIdle(w, x);
    released := w.idle[x.path];
    n := IdleMeansReleased(es, x.path);
  }
}
