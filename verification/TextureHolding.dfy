/** Where the texture cache has each path, as a machine of its own: nowhere, waiting for a job, or with what
    the job loaded; and exactly when a sweep takes an image off the list. */
module TextureHolding {
  import opened TextureLedger

  datatype Holding = Nowhere | Waiting(job: nat) | Loaded(texture: Option<Pixels>)

  /** The lists have the path as `h` says. */
  ghost predicate Has(c: State, path: string, h: Holding) {
    match h
    case Nowhere =>
      && (forall i :: 0 <= i < |c.loaded| ==> c.loaded[i].path != path)
      && (forall j :: 0 <= j < |c.queued| ==> c.queued[j].image.path != path)
    case Waiting(job) => exists j :: 0 <= j < |c.queued| && c.queued[j].image.path == path && c.queued[j].id == job
    case Loaded(texture) => exists i :: 0 <= i < |c.loaded| && c.loaded[i].path == path && c.loaded[i].texture == texture
  }

  /** They have it in one way only. */
  lemma OneWay(c: State, path: string, h: Holding, g: Holding)
    requires Unique(c) && Has(c, path, h) && Has(c, path, g)
    ensures h == g
  {
  }

  lemma SomeWay(c: State, path: string) returns (h: Holding)
    ensures Has(c, path, h)
  {
    if i :| 0 <= i < |c.loaded| && c.loaded[i].path == path {
      h := Loaded(c.loaded[i].texture);
    } else if j :| 0 <= j < |c.queued| && c.queued[j].image.path == path {
      h := Waiting(c.queued[j].id);
    } else {
      h := Nowhere;
    }
  }

  /** Nothing is due for the path, and the deadline set when that came about is past. */
  predicate Overdue(w: World, path: string) {
    Due(w, path) == 0 && path in w.idle && (w.idle[path] % 0x1_0000_0000 + 2000) % 0x1_0000_0000 < w.now % 0x1_0000_0000
  }

  /** What an event makes of a path: a first request starts a job if the path is nowhere; the last release
      cancels a waiting job and, if told so, deletes a loaded image at once; a sweep deletes a loaded image for
      which nothing is due, at once or when it is overdue; a finished job's texture is loaded. */
  function After(w: World, e: Event, path: string, h: Holding): Holding {
    match e
    case Request(p, first) =>
      if p == path && first && path != "" && h.Nowhere? then Waiting(w.cache.nextJob) else h
    case Drop(p, immediately) =>
      if p == path && Due(w, path) == 1 && (h.Waiting? || immediately) then Nowhere else h
    case Sweep(immediately) =>
      if h.Loaded? && Due(w, path) == 0 && (immediately || Overdue(w, path)) then Nowhere else h
    case Done(id, texture) => if h == Waiting(id) then Loaded(texture) else h
    case Tick(ms) => h
  }

  /** Counting a reference moves nothing. */
  lemma SamePlaces(c: State, r: State, path: string, h: Holding)
    requires |r.loaded| == |c.loaded| && |r.queued| == |c.queued| && Has(c, path, h)
    requires forall k :: 0 <= k < |c.loaded| ==> r.loaded[k].path == c.loaded[k].path && r.loaded[k].texture == c.loaded[k].texture
    requires forall k :: 0 <= k < |c.queued| ==> r.queued[k].image.path == c.queued[k].image.path && r.queued[k].id == c.queued[k].id
    ensures Has(r, path, h)
  {
  }

  lemma QueuedAt(c: State, p: string, path: string, h: Holding)
    requires FindLoaded(c.loaded, p).None? && FindQueued(c.queued, p).None? && Has(c, path, h)
    ensures Has(State(c.queued + [Job(c.nextJob, Image(p, 1, 0, None))], c.loaded, c.nextJob + 1), path,
                if p == path then Waiting(c.nextJob) else h)
  {
    var q := c.queued + [Job(c.nextJob, Image(p, 1, 0, None))];
    assert q[|c.queued|] == Job(c.nextJob, Image(p, 1, 0, None));
    if h.Waiting? {
      var k :| 0 <= k < |c.queued| && c.queued[k].image.path == path && c.queued[k].id == h.job;
      assert q[k] == c.queued[k];
    }
  }

  lemma RequestMoves(w: World, p: string, first: bool, path: string, h: Holding)
    requires Inv(w) && Has(w.cache, path, h)
    ensures Has(Next(w, Request(p, first)).cache, path, After(w, Request(p, first), path, h))
  {
    var c, r := w.cache, Next(w, Request(p, first)).cache;
    if !first || p == "" {
      assert r == c;
    } else if FindLoaded(c.loaded, p).Some? || FindQueued(c.queued, p).Some? {
      SamePlaces(c, r, path, h);
    } else {
      QueuedAt(c, p, path, h);
    }
  }

  lemma GoneFrom(c: State, i: nat, inLoaded: bool, path: string, h: Holding)
    requires Unique(c) && i < (if inLoaded then |c.loaded| else |c.queued|) && Has(c, path, h)
    ensures
      var gone := if inLoaded then c.loaded[i].path else c.queued[i].image.path;
      Has(if inLoaded then c.(loaded := Without(c.loaded, i)) else c.(queued := Without(c.queued, i)),
          path, if gone == path then Nowhere else h)
  {
    if inLoaded {
      var r := c.(loaded := Without(c.loaded, i));
      if h.Loaded? && c.loaded[i].path != path {
        var k :| 0 <= k < |c.loaded| && c.loaded[k].path == path && c.loaded[k].texture == h.texture;
        assert r.loaded[if k < i then k else k - 1] == c.loaded[k];
      }
    } else {
      var r := c.(queued := Without(c.queued, i));
      if h.Waiting? && c.queued[i].image.path != path {
        var k :| 0 <= k < |c.queued| && c.queued[k].image.path == path && c.queued[k].id == h.job;
        assert r.queued[if k < i then k else k - 1] == c.queued[k];
      }
    }
  }

  lemma DropLoadedMoves(w: World, p: string, immediately: bool, path: string, h: Holding, i: nat)
    requires Inv(w) && p != "" && Due(w, p) > 0 && FindLoaded(w.cache.loaded, p) == Some(i) && Has(w.cache, path, h)
    ensures CanRelease(w.cache, p)
    ensures Has(Next(w, Drop(p, immediately)).cache, path, After(w, Drop(p, immediately), path, h))
  {
    var c, r := w.cache, Next(w, Drop(p, immediately)).cache;
    assert LoadedOk(w, c.loaded[i]);
    if c.loaded[i].refs == 1 && immediately {
      GoneFrom(c, i, true, path, h);
    } else {
      assert forall k :: 0 <= k < |c.loaded| ==> r.loaded[k].path == c.loaded[k].path && r.loaded[k].texture == c.loaded[k].texture;
      assert p == path ==> h.Loaded?;
    }
  }

  lemma DropQueuedMoves(w: World, p: string, immediately: bool, path: string, h: Holding, i: nat)
    requires Inv(w) && p != "" && Due(w, p) > 0 && FindLoaded(w.cache.loaded, p).None?
    requires FindQueued(w.cache.queued, p) == Some(i) && Has(w.cache, path, h)
    ensures CanRelease(w.cache, p)
    ensures Has(Next(w, Drop(p, immediately)).cache, path, After(w, Drop(p, immediately), path, h))
  {
    var c, r := w.cache, Next(w, Drop(p, immediately)).cache;
    assert QueuedOk(w, c.queued[i]);
    assert p == path ==> h.Waiting?;
    if c.queued[i].image.refs == 1 {
      GoneFrom(c, i, false, path, h);
    } else {
      assert forall k :: 0 <= k < |c.queued| ==>
        r.queued[k].image.path == c.queued[k].image.path && r.queued[k].id == c.queued[k].id;
    }
  }

  lemma DropMoves(w: World, p: string, immediately: bool, path: string, h: Holding)
    requires Inv(w) && Allowed(w, Drop(p, immediately)) && Has(w.cache, path, h)
    ensures CanRelease(w.cache, p)
    ensures Has(Next(w, Drop(p, immediately)).cache, path, After(w, Drop(p, immediately), path, h))
  {
    InvAllowsRelease(w, p);
    var i, j := FindLoaded(w.cache.loaded, p), FindQueued(w.cache.queued, p);
    if p == "" {
      assert i.None? && j.None? && Due(w, p) == 0;
    } else if i.Some? {
      DropLoadedMoves(w, p, immediately, path, h, i.value);
    } else {
      DropQueuedMoves(w, p, immediately, path, h, j.value);
    }
  }

  /** Which images a sweep deletes. */
  lemma {:induction false} SweptIff(w: World, immediately: bool, i: nat)
    requires Inv(w) && i < |w.cache.loaded|
    ensures var x := w.cache.loaded[i];
      x in Next(w, Sweep(immediately)).cache.loaded <==> !(Due(w, x.path) == 0 && (immediately || Overdue(w, x.path)))
  {
    SurvivingIsFilter(w.cache.loaded, immediately, w.now);
    assert LoadedOk(w, w.cache.loaded[i]);
    assert w.cache.loaded[i] in w.cache.loaded;
  }

  lemma SweepMoves(w: World, immediately: bool, path: string, h: Holding)
    requires Inv(w) && Has(w.cache, path, h)
    ensures Has(Next(w, Sweep(immediately)).cache, path, After(w, Sweep(immediately), path, h))
  {
    var c, r := w.cache, Next(w, Sweep(immediately)).cache;
    SurvivingIsFilter(c.loaded, immediately, w.now);
    forall k | 0 <= k < |r.loaded| ensures exists i :: 0 <= i < |c.loaded| && c.loaded[i] == r.loaded[k] {
      assert r.loaded[k] in c.loaded;
    }
    if h.Loaded? {
      var i :| 0 <= i < |c.loaded| && c.loaded[i].path == path && c.loaded[i].texture == h.texture;
      SweptIff(w, immediately, i);
      if c.loaded[i] !in r.loaded {
        forall k | 0 <= k < |r.loaded| ensures r.loaded[k].path != path {
          var m :| 0 <= m < |c.loaded| && c.loaded[m] == r.loaded[k];
          assert m != i;
        }
      }
    }
  }

  lemma AddedTo(c: State, x: Image, path: string, h: Holding)
    requires Has(c, path, h)
    ensures Has(c.(loaded := c.loaded + [x]), path, if x.path == path && h.Nowhere? then Loaded(x.texture) else h)
  {
    var to := c.loaded + [x];
    assert to[|c.loaded|] == x;
    if h.Loaded? {
      var i :| 0 <= i < |c.loaded| && c.loaded[i].path == path && c.loaded[i].texture == h.texture;
      assert to[i] == c.loaded[i];
    }
  }

  lemma DeliveredMoves(c: State, d: nat, texture: Option<Pixels>, path: string, h: Holding)
    requires Unique(c) && d < |c.queued| && Has(c, path, h)
    ensures Has(State(Without(c.queued, d), c.loaded + [c.queued[d].image.(texture := texture)], c.nextJob), path,
                if h == Waiting(c.queued[d].id) then Loaded(texture) else h)
  {
    var gone, x := c.(queued := Without(c.queued, d)), c.queued[d].image.(texture := texture);
    GoneFrom(c, d, false, path, h);
    if x.path == path {
      OneWay(c, path, h, Waiting(c.queued[d].id));
      AddedTo(gone, x, path, Nowhere);
    } else {
      AddedTo(gone, x, path, h);
    }
  }

  lemma DoneMoves(w: World, id: nat, texture: Option<Pixels>, path: string, h: Holding)
    requires Inv(w) && Has(w.cache, path, h)
    ensures NoAssertFails(w.cache, Done(id, texture))
    ensures Has(Next(w, Done(id, texture)).cache, path, After(w, Done(id, texture), path, h))
  {
    StepKeepsInv(w, Done(id, texture));
    var found := FindJob(w.cache.queued, id);
    if found.Some? { DeliveredMoves(w.cache, found.value, texture, path, h); }
  }

  /** What a step of the cache does to each path. */
  lemma StepMoves(w: World, e: Event, path: string, h: Holding)
    requires Inv(w) && Allowed(w, e) && Has(w.cache, path, h)
    ensures NoAssertFails(w.cache, e) && Has(Next(w, e).cache, path, After(w, e, path, h))
  {
    match e
    case Request(p, first) => RequestMoves(w, p, first, path, h);
    case Drop(p, immediately) => DropMoves(w, p, immediately, path, h);
    case Sweep(immediately) => SweepMoves(w, immediately, path, h);
    case Done(id, texture) => DoneMoves(w, id, texture, path, h);
    case Tick(ms) =>
  }

  /** What becomes of a path in a run. */
  ghost function Story(w: World, es: seq<Event>, path: string, h: Holding): Holding
    requires Safe(w, es)
    decreases es
  {
    if es == [] then h else Story(Next(w, es[0]), es[1..], path, After(w, es[0], path, h))
  }

  lemma {:induction false} StoryFrom(w: World, es: seq<Event>, path: string, h: Holding)
    requires Inv(w) && BalancedFrom(w, es) && Has(w.cache, path, h)
    ensures Safe(w, es) && Has(Run(w, es).cache, path, Story(w, es, path, h))
    decreases es
  {
    if es != [] {
      BalancedStep(w, es);
      StepMoves(w, es[0], path, h);
      StepKeepsInv(w, es[0]);
      StoryFrom(Next(w, es[0]), es[1..], path, After(w, es[0], path, h));
    }
  }

  /** In every run with balanced releases the two lists have each path as its own story tells. */
  lemma {:induction false} EveryStory(es: seq<Event>, path: string)
    requires Balanced(es)
    ensures Safe(START, es) && Has(Run(START, es).cache, path, Story(START, es, path, Nowhere))
  {
    StoryFrom(START, es, path, Nowhere);
  }

  // ----- When a sweep deletes -----

  lemma {:induction false} DueAfter(w: World, es: seq<Event>, n: nat)
    requires Inv(w) && BalancedFrom(w, es) && Safe(w, es) && n < |es|
    ensures Safe(w, es[..n]) && Allowed(Run(w, es[..n]), es[n])
    decreases es
  {
    BalancedStep(w, es);
    StepKeepsInv(w, es[0]);
    if n > 0 {
      assert es[..n][1..] == es[1..][..n - 1];
      DueAfter(Next(w, es[0]), es[1..], n - 1);
    }
  }

  /** After that release there is no other. */
  lemma {:induction false} NoLaterRelease(es: seq<Event>, path: string, n: nat, t: nat, m: nat)
    requires Balanced(es) && Safe(START, es) && path != "" && ReleasedAt(es, path, n, t) && n < m <= |es|
    ensures es[m - 1] != Drop(path, true) && es[m - 1] != Drop(path, false)
  {
    DueAfter(START, es, m - 1);
    SafePrefix(START, es, m - 1);
    assert Due(Run(START, es[..m - 1]), path) == 0;
  }

  lemma {:induction false} ReleasedIsIdle(es: seq<Event>, path: string, n: nat, t: nat)
    requires Balanced(es) && Safe(START, es) && path != "" && ReleasedAt(es, path, n, t)
    requires path in Run(START, es).idle
    ensures Run(START, es).idle[path] == t
  {
    var m := IdleMeansReleased(es, path);
    var u := Run(START, es).idle[path];
    if n < m { NoLaterRelease(es, path, n, t, m); }
    if m < n { NoLaterRelease(es, path, m, u, n); }
  }

  /** After any run with balanced releases, a sweep takes an image that was released at clock `t`, and not
      requested since, off the list if and only if the 32-bit clock is past the 32-bit deadline; so it does
      once more than 2000 ms have gone by on a clock that did not wrap around. */
  lemma {:induction false} SweepDeletesIff(es: seq<Event>, x: Image, n: nat, t: nat)
    requires Balanced(es) && Safe(START, es) && x in Run(START, es).cache.loaded && ReleasedAt(es, x.path, n, t)
    ensures var now := Run(START, es).now;
      && (x !in Next(Run(START, es), Sweep(false)).cache.loaded <==>
          (t % 0x1_0000_0000 + 2000) % 0x1_0000_0000 < now % 0x1_0000_0000)
      && (t % 0x1_0000_0000 + 2000 < 0x1_0000_0000 && now % 0x1_0000_0000 > t % 0x1_0000_0000 + 2000 ==>
          x !in Next(Run(START, es), Sweep(false)).cache.loaded)
  {
    var w := Run(START, es);
    EveryRun(es);
    var i :| 0 <= i < |w.cache.loaded| && w.cache.loaded[i] == x;
    assert LoadedOk(w, x);
    assert es[..|es|] == es;
    assert Due(w, x.path) == 0;
    ReleasedIsIdle(es, x.path, n, t);
    SweptIff(w, false, i);
  }

  /** An immediate sweep leaves exactly the images for which something is due, and no sweep deletes one of
      these. */
  lemma {:induction false} SweepAtOnce(es: seq<Event>, x: Image, immediately: bool)
    requires Balanced(es) && Safe(START, es) && x in Run(START, es).cache.loaded
    ensures x in Next(Run(START, es), Sweep(true)).cache.loaded <==> Requests(es, x.path) > Releases(es, x.path)
    ensures Requests(es, x.path) > Releases(es, x.path) ==> x in Next(Run(START, es), Sweep(immediately)).cache.loaded
  {
    var w := Run(START, es);
    EveryRun(es);
    var i :| 0 <= i < |w.cache.loaded| && w.cache.loaded[i] == x;
    assert LoadedOk(w, x);
    SweptIff(w, true, i);
    SweptIff(w, immediately, i);
  }

  /** A sweep does not change the order. */
  lemma {:induction false} SweepInOrder(a: seq<Image>, b: seq<Image>, immediately: bool, now: nat)
    ensures Surviving(a + b, immediately, now) == Surviving(a, immediately, now) + Surviving(b, immediately, now)
  {
    if a == [] {
      assert a + b == b;
    } else {
      assert (a + b)[0] == a[0] && (a + b)[1..] == a[1..] + b;
      SweepInOrder(a[1..], b, immediately, now);
    }
  }
}
