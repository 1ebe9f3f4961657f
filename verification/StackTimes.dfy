/** The timeline of a multi-file stack: the end of each part, the part a time falls in, and the times
    and bookmarks computed from them. Times are whole milliseconds. */
module StackTimes {

  function Sum(durations: seq<nat>): nat {
    if durations == [] then 0 else Sum(durations[..|durations| - 1]) + durations[|durations| - 1]
  }

  /** The end of each part, from the durations. */
  function Ends(durations: seq<nat>): (ends: seq<nat>)
    ensures |ends| == |durations|
  {
    if durations == [] then [] else Ends(durations[..|durations| - 1]) + [Sum(durations)]
  }

  lemma EndsSnoc(durations: seq<nat>, duration: nat)
    ensures Sum(durations + [duration]) == Sum(durations) + duration
    ensures Ends(durations + [duration]) == Ends(durations) + [Sum(durations) + duration]
  {
    assert (durations + [duration])[..|durations|] == durations;
  }

  function Start(ends: seq<nat>, part: nat): nat
    requires part <= |ends|
  {
    if part > 0 then ends[part - 1] else 0
  }

  function Total(ends: seq<nat>): nat
    requires ends != []
  {
    ends[|ends| - 1]
  }

  /** The first part from `p` on that ends after `t`, and part 0 when there is none. */
  function PartFrom(ends: seq<nat>, t: nat, p: nat): (r: nat)
    requires p <= |ends|
    ensures ends != [] ==> r < |ends|
    decreases |ends| - p
  {
    if p == |ends| then 0 else if t < ends[p] then p else PartFrom(ends, t, p + 1)
  }

  /** `GetStackPartNumberAtTimeMs`. */
  function PartAt(ends: seq<nat>, t: nat): (r: nat)
    ensures ends != [] ==> r < |ends|
  {
    if t > 0 then PartFrom(ends, t, 0) else 0
  }

  // ----- Parts tile the timeline -----

  ghost predicate Increasing(ends: seq<nat>) {
    && (ends != [] ==> 0 < ends[0])
    && forall i, j :: 0 <= i < j < |ends| ==> ends[i] < ends[j]
  }

  lemma EndsAppend(ends: seq<nat>, end: nat, duration: nat)
    requires Increasing(ends) && duration > 0
    requires end == duration + if ends == [] then 0 else Total(ends)
    ensures Increasing(ends + [end]) && end - Start(ends + [end], |ends|) == duration
  {
  }

  lemma {:induction false} EndsIncrease(durations: seq<nat>)
    requires forall i :: 0 <= i < |durations| ==> durations[i] > 0
    ensures Increasing(Ends(durations)) && (durations != [] ==> Total(Ends(durations)) == Sum(durations))
  {
    if durations != [] {
      var init, last := durations[..|durations| - 1], durations[|durations| - 1];
      EndsIncrease(init);
      EndsAppend(Ends(init), Sum(init) + last, last);
    }
  }

  lemma {:induction false} EndsAreSums(durations: seq<nat>, p: nat)
    requires p < |durations|
    ensures Ends(durations)[p] == Sum(durations[..p + 1]) && Start(Ends(durations), p) == Sum(durations[..p])
    decreases |durations|
  {
    var init := durations[..|durations| - 1];
    if p < |init| {
      EndsAreSums(init, p);
      assert init[..p + 1] == durations[..p + 1] && init[..p] == durations[..p];
    } else {
      assert durations[..p + 1] == durations && durations[..p] == init;
      if p > 0 {
        EndsAreSums(init, p - 1);
        assert init[..p] == init;
      }
    }
  }

  /** The ends computed from positive durations increase, and each part is as long as its file. */
  lemma EndsTile(durations: seq<nat>)
    requires forall i :: 0 <= i < |durations| ==> durations[i] > 0
    ensures var ends := Ends(durations);
      && Increasing(ends)
      && (forall p :: 0 <= p < |ends| ==> ends[p] - Start(ends, p) == durations[p])
      && (ends != [] ==> Total(ends) == Sum(durations))
  {
    EndsIncrease(durations);
    var ends := Ends(durations);
    forall p | 0 <= p < |durations| ensures ends[p] - Start(ends, p) == durations[p] {
      EndsAreSums(durations, p);
      assert durations[..p + 1][..p] == durations[..p] && durations[..p + 1][p] == durations[p];
    }
  }

  predicate Falls(ends: seq<nat>, t: nat, p: nat)
    requires p < |ends|
  {
    Start(ends, p) <= t < ends[p]
  }

  lemma {:induction false} PartFromSearches(ends: seq<nat>, t: nat, p: nat)
    requires p <= |ends| && ends != []
    requires forall q :: 0 <= q < p ==> ends[q] <= t
    ensures var r := PartFrom(ends, t, p);
      if exists q :: 0 <= q < |ends| && t < ends[q]
      then t < ends[r] && forall q :: 0 <= q < r ==> ends[q] <= t
      else r == 0
    decreases |ends| - p
  {
    if p < |ends| && ends[p] <= t {
      PartFromSearches(ends, t, p + 1);
    }
  }

  /** The part never starts after the time asked for, so subtracting its start does not wrap around,
      whatever the ends are. */
  lemma NoUnderflow(ends: seq<nat>, t: nat)
    requires ends != []
    ensures Start(ends, PartAt(ends, t)) <= t
  {
    PartFromSearches(ends, t, 0);
  }

  /** Every time before the end falls into exactly one part, the one `GetStackPartNumberAtTimeMs`
      finds; every time from the end on is given part 0. */
  lemma PartAtIsUnique(ends: seq<nat>, t: nat)
    requires ends != [] && Increasing(ends)
    ensures t < Total(ends) ==> forall p :: 0 <= p < |ends| ==> (Falls(ends, t, p) <==> p == PartAt(ends, t))
    ensures t >= Total(ends) ==> PartAt(ends, t) == 0 && forall p :: 0 <= p < |ends| ==> !Falls(ends, t, p)
  {
    PartFromSearches(ends, t, 0);
    if t < Total(ends) {
      assert t < ends[|ends| - 1];
    }
  }

  // ----- Seeking, reading the time, saving and resuming -----

  /** A place in the stack: a part and an offset in it. */
  datatype Place = Place(part: nat, offset: nat)

  /** Where a seek to `t` goes. */
  function SeekPlace(ends: seq<nat>, t: nat): (p: Place)
    requires ends != []
  {
    NoUnderflow(ends, t);
    Place(PartAt(ends, t), t - Start(ends, PartAt(ends, t)))
  }

  /** The time shown at a place. */
  function TimeAt(ends: seq<nat>, p: Place): nat
    requires p.part <= |ends|
  {
    Start(ends, p.part) + p.offset
  }

  /** Seeking and reading the time are inverse to each other: a time is read back as it was sought,
      and a place inside its part is where the seek to its time goes; and only such a place is. */
  lemma SeekAndTime(ends: seq<nat>, t: nat, p: Place)
    requires ends != [] && Increasing(ends) && p.part < |ends|
    ensures TimeAt(ends, SeekPlace(ends, t)) == t
    ensures TimeAt(ends, p) < Total(ends) ==>
      (SeekPlace(ends, TimeAt(ends, p)) == p <==> p.offset < ends[p.part] - Start(ends, p.part))
  {
    PartAtIsUnique(ends, t);
    PartAtIsUnique(ends, TimeAt(ends, p));
    if TimeAt(ends, p) < Total(ends) {
      assert Falls(ends, TimeAt(ends, p), p.part) <==> p.offset < ends[p.part] - Start(ends, p.part);
    }
  }

  /** A seek lands inside the part it goes to exactly when the time is before the end of the stack;
      from the end on it goes to the first part, beyond that part's end. */
  lemma SeekLandsInsideIff(ends: seq<nat>, t: nat)
    requires ends != [] && Increasing(ends)
    ensures var p := SeekPlace(ends, t);
      p.offset < ends[p.part] - Start(ends, p.part) <==> t < Total(ends)
  {
    PartAtIsUnique(ends, t);
    if t < Total(ends) {
      assert Falls(ends, t, PartAt(ends, t));
    } else if |ends| > 1 {
      assert ends[0] < ends[|ends| - 1];
    }
  }

  /** A bookmark holds seconds. */
  function SavedSeconds(ends: seq<nat>, p: Place): real
    requires p.part <= |ends|
  {
    p.offset as real / 1000.0 + Start(ends, p.part) as real / 1000.0
  }

  function ResumeMs(seconds: real): nat
    requires seconds >= 0.0
  {
    (seconds * 1000.0).Floor
  }

  /** Milliseconds and whole seconds. */
  lemma ResumeOfOffset(offset: nat)
    ensures ResumeMs(offset as real / 1000.0) == offset
  {
    assert offset as real / 1000.0 * 1000.0 == offset as real;
  }

  /** A time in a part counts from the start of the part, rounded down to milliseconds alike. */
  lemma ResumeInPart(ends: seq<nat>, part: nat, seconds: real)
    requires part <= |ends| && seconds >= 0.0
    ensures ResumeMs(seconds + Start(ends, part) as real / 1000.0) == TimeAt(ends, Place(part, ResumeMs(seconds)))
  {
    var start := Start(ends, part);
    assert (seconds + start as real / 1000.0) * 1000.0 == seconds * 1000.0 + start as real;
  }

  /** Saving a resume point at a place and resuming from it gives back the place exactly when it was
      inside its part, or in the first part beyond the end of the whole stack. */
  lemma ResumeIff(ends: seq<nat>, p: Place)
    requires ends != [] && Increasing(ends) && p.part < |ends|
    ensures SavedSeconds(ends, p) >= 0.0 && ResumeMs(SavedSeconds(ends, p)) == TimeAt(ends, p)
    ensures SeekPlace(ends, ResumeMs(SavedSeconds(ends, p))) == p <==>
      p.offset < ends[p.part] - Start(ends, p.part) || (p.part == 0 && p.offset >= Total(ends))
  {
    assert SavedSeconds(ends, p) * 1000.0 == TimeAt(ends, p) as real;
    SeekAndTime(ends, TimeAt(ends, p), p);
    PartAtIsUnique(ends, TimeAt(ends, p));
    if p.offset < ends[p.part] - Start(ends, p.part) {
      assert TimeAt(ends, p) < ends[p.part] <= Total(ends);
    }
  }
}
