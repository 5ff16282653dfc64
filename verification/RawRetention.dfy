/**
 * Retention on any clock: exactly which steps keep the surviving records a suffix of
 * everything the session wrote.
 */
module RawRetention {
  import opened Basics
  import opened RawFrames
  import opened RawDisk
  import opened RawOrder
  import opened RawJournal
  import opened RawTheorems

  /** What survives of this session is a suffix of what it wrote. */
  ghost predicate SuffixHeld(w: World, d: Disk) {
    Suffix(Survivors(w.first, d.pages, d.dir), d.log)
  }

  /** No unlinked segment with records of this session lies after a remaining one with records. */
  ghost predicate OldestFirst(first: nat, pages: map<nat, Page>, dir: seq<Segment>, names: seq<nat>) {
    forall i, j | 0 <= i < j < |dir| ::
      dir[i].name !in names && Kept(first, pages, dir[i]) != [] && dir[j].name in names ==> Kept(first, pages, dir[j]) == []
  }

  lemma {:induction false} NothingUnlinked(first: nat, pages: map<nat, Page>, dir: seq<Segment>, names: seq<nat>)
    requires forall j | 0 <= j < |dir| && dir[j].name in names :: Kept(first, pages, dir[j]) == []
    ensures Survivors(first, pages, Without(dir, names)) == Survivors(first, pages, dir)
  {
    if dir != [] { NothingUnlinked(first, pages, dir[1..], names); }
  }

  lemma {:induction false} SurvivorsShrink(first: nat, pages: map<nat, Page>, dir: seq<Segment>, names: seq<nat>)
    ensures |Survivors(first, pages, Without(dir, names))| <= |Survivors(first, pages, dir)|
    ensures (exists j :: 0 <= j < |dir| && dir[j].name in names && Kept(first, pages, dir[j]) != []) ==>
      |Survivors(first, pages, Without(dir, names))| < |Survivors(first, pages, dir)|
  {
    if dir != [] { SurvivorsShrink(first, pages, dir[1..], names); }
  }

  /** A shorter list with the same first element is no suffix of the same increasing list. */
  lemma {:induction false} SameHead(a: seq<Entry>, b: seq<Entry>, log: seq<Entry>)
    requires a != [] && |a| < |b| && a[0] == b[0] && Suffix(b, log) && Increasing(log)
    ensures !Suffix(a, log)
  {
    assert b[0] == log[|log| - |b|];
    assert log[|log| - |a|..][0] == log[|log| - |a|] != log[|log| - |b|];
  }

  /** Unlinking keeps the suffix exactly when it takes the oldest records first. */
  lemma {:induction false} UnlinkIff(first: nat, pages: map<nat, Page>, dir: seq<Segment>, names: seq<nat>, log: seq<Entry>)
    requires Suffix(Survivors(first, pages, dir), log) && Increasing(log)
    ensures Suffix(Survivors(first, pages, Without(dir, names)), log) <==> OldestFirst(first, pages, dir, names)
    decreases |dir|
  {
    if dir != [] {
      var head, tail := Kept(first, pages, dir[0]), dir[1..];
      var gone := dir[0].name in names;
      SuffixDrops(Survivors(first, pages, dir), log, |head|);
      assert Survivors(first, pages, dir)[|head|..] == Survivors(first, pages, tail);
      if gone || head == [] {
        UnlinkIff(first, pages, tail, names, log);
        assert Survivors(first, pages, Without(dir, names)) == Survivors(first, pages, Without(tail, names));
        OldestTail(first, pages, dir, names);
      } else if exists j :: 0 <= j < |tail| && tail[j].name in names && Kept(first, pages, tail[j]) != [] {
        var j :| 0 <= j < |tail| && tail[j].name in names && Kept(first, pages, tail[j]) != [];
        assert dir[j + 1] == tail[j];
        SurvivorsShrink(first, pages, tail, names);
        SameHead(Survivors(first, pages, Without(dir, names)), Survivors(first, pages, dir), log);
      } else {
        NothingUnlinked(first, pages, tail, names);
        forall j | 0 < j < |dir| && dir[j].name in names ensures Kept(first, pages, dir[j]) == [] {
          assert dir[j] == tail[j - 1];
        }
      }
    }
  }

  lemma {:induction false} OldestTail(first: nat, pages: map<nat, Page>, dir: seq<Segment>, names: seq<nat>)
    requires dir != [] && (dir[0].name in names || Kept(first, pages, dir[0]) == [])
    ensures OldestFirst(first, pages, dir, names) <==> OldestFirst(first, pages, dir[1..], names)
  {
    var tail := dir[1..];
    forall i, j | 0 <= i < j < |tail| ensures tail[i] == dir[i + 1] && tail[j] == dir[j + 1] {}
    if OldestFirst(first, pages, tail, names) {
      forall i, j | 0 <= i < j < |dir| && dir[i].name !in names && Kept(first, pages, dir[i]) != [] && dir[j].name in names
        ensures Kept(first, pages, dir[j]) == []
      {
        assert dir[i] == tail[i - 1] && dir[j] == tail[j - 1];
      }
    }
  }

  /** The segments sorted after the active one. */
  function Newer(d: Disk): seq<Segment> {
    if d.file.None? then [] else After(d.dir, d.file.value)
  }

  function After(dir: seq<Segment>, name: nat): seq<Segment> {
    if dir == [] then [] else if dir[0].name == name then dir[1..] else After(dir[1..], name)
  }

  lemma {:induction false} AfterAt(dir: seq<Segment>, at: nat)
    requires at < |dir| && Distinct(dir)
    ensures After(dir, dir[at].name) == dir[at + 1..]
  {
    if at > 0 {
      AfterAt(dir[1..], at - 1);
      assert dir[0].name != dir[at].name;
    }
  }

  /** The survivors around the active segment, which gains `extra`. */
  lemma {:induction false} MiddleGrows(first: nat, pages: map<nat, Page>, older: seq<Segment>, s: Segment, s': Segment,
                                       newer: seq<Segment>, page': Page, extra: seq<Entry>)
    requires s.name >= first && s.name == s'.name && s.name in pages
    requires page'.whole == pages[s.name].whole + extra
    requires (forall i | 0 <= i < |older| :: older[i].name != s.name) && forall i | 0 <= i < |newer| :: newer[i].name != s.name
    ensures Survivors(first, pages, older + [s] + newer) == Survivors(first, pages, older + [s]) + Survivors(first, pages, newer)
    ensures Survivors(first, pages[s.name := page'], older + [s'] + newer) ==
      Survivors(first, pages, older + [s]) + extra + Survivors(first, pages, newer)
  {
    NewestGrows(first, pages, older, s, s', page', extra);
    SurvivorsUnaffected(first, pages, newer, s.name, page');
    SurvivorsConcat(first, pages, older + [s], newer);
    SurvivorsConcat(first, pages[s.name := page'], older + [s'], newer);
  }

  lemma {:induction false} InsertedLast(older: seq<Entry>, newer: seq<Entry>, log: seq<Entry>, e: Entry)
    requires Suffix(older + newer, log) && Increasing(log + [e])
    ensures Suffix(older + [e] + newer, log + [e]) <==> newer == []
  {
    var all := older + [e] + newer;
    if newer == [] {
      assert all == older + [e] && older + newer == older;
    } else {
      assert all[|all| - 1] == newer[|newer| - 1] == (older + newer)[|older + newer| - 1] == log[|log| - 1];
      assert (log + [e])[|log| - 1] == log[|log| - 1] && (log + [e])[|log|] == e;
    }
  }

  /** A write keeps the suffix exactly when it completes no record in front of newer ones. */
  lemma {:induction false} ChunkIff(w: World, d: Disk, e: Entry, offset: nat, n: nat)
    requires w.Valid() && DiskOk(w, d) && Midway(w, d, e, offset) && SuffixHeld(w, d) && Increasing(d.log + [e])
    requires 0 < n && offset + n <= |w.c.Frame(e)|
    ensures SuffixHeld(w, Chunk(w.c, d, e, offset, n)) <==>
      (offset + n == |w.c.Frame(e)| ==> Survivors(w.first, d.pages, Newer(d)) == [])
  {
    hide DiskOk, Survivors, Append, Chunk, Midway;
    var d' := Chunk(w.c, d, e, offset, n);
    var extra := if offset + n == |w.c.Frame(e)| then [e] else [];
    var older, s, s', newer := ChunkShape(w, d, e, offset, n);
    GrownIff(w.first, d.pages, older, s, s', newer, d'.pages[s.name], d.log, e, extra != []);
    assert d.log + [] == d.log;
  }

  lemma {:induction false} GrownIff(first: nat, pages: map<nat, Page>, older: seq<Segment>, s: Segment, s': Segment,
                                    newer: seq<Segment>, page': Page, log: seq<Entry>, e: Entry, completes: bool)
    requires s.name >= first && s.name == s'.name && s.name in pages
    requires page'.whole == pages[s.name].whole + if completes then [e] else []
    requires (forall i | 0 <= i < |older| :: older[i].name != s.name) && forall i | 0 <= i < |newer| :: newer[i].name != s.name
    requires Suffix(Survivors(first, pages, older + [s] + newer), log) && Increasing(log + [e])
    ensures Suffix(Survivors(first, pages[s.name := page'], older + [s'] + newer), if completes then log + [e] else log) <==>
      (completes ==> Survivors(first, pages, newer) == [])
  {
    hide Survivors;
    MiddleGrows(first, pages, older, s, s', newer, page', if completes then [e] else []);
    var front, back := Survivors(first, pages, older + [s]), Survivors(first, pages, newer);
    InsertedLast(front, back, log, e);
    assert front + [] + back == front + back;
  }

  /** The directory around the active segment before and after a write, and what the write records. */
  lemma {:induction false} ChunkShape(w: World, d: Disk, e: Entry, offset: nat, n: nat)
      returns (older: seq<Segment>, s: Segment, s': Segment, newer: seq<Segment>)
    requires w.Valid() && DiskOk(w, d) && Midway(w, d, e, offset) && 0 < n && offset + n <= |w.c.Frame(e)|
    ensures var d' := Chunk(w.c, d, e, offset, n); var extra := if offset + n == |w.c.Frame(e)| then [e] else [];
      && d.dir == older + [s] + newer && d'.dir == older + [s'] + newer && newer == Newer(d)
      && s.name >= w.first && s.name == s'.name && s.name in d.pages && s.name in d'.pages
      && d'.pages == d.pages[s.name := d'.pages[s.name]] && d'.pages[s.name].whole == d.pages[s.name].whole + extra
      && d'.log == d.log + extra
      && (forall i | 0 <= i < |older| :: older[i].name != s.name) && forall i | 0 <= i < |newer| :: newer[i].name != s.name
  {
    hide Append, Survivors, Chunk, DiskOk, Midway, After;
    var d' := Chunk(w.c, d, e, offset, n);
    ChunkPages(w, d, e, offset, n);
    var at := ChunkActive(w, d, e, offset, n);
    DiskDistinct(w, d);
    AfterAt(d.dir, at);
    older, s, s', newer := d.dir[..at], d.dir[at], d'.dir[at], d.dir[at + 1..];
    SplitAt(d.dir, d'.dir, at);
  }

  lemma {:induction false} SplitAt<T>(a: seq<T>, b: seq<T>, at: nat)
    requires at < |a| == |b| && forall i | 0 <= i < |a| && i != at :: a[i] == b[i]
    ensures a == a[..at] + [a[at]] + a[at + 1..] && b == a[..at] + [b[at]] + a[at + 1..]
  {}

  lemma {:induction false} ChunkPages(w: World, d: Disk, e: Entry, offset: nat, n: nat)
    requires w.Valid() && DiskOk(w, d) && Midway(w, d, e, offset) && 0 < n && offset + n <= |w.c.Frame(e)|
    ensures var d' := Chunk(w.c, d, e, offset, n); var extra := if offset + n == |w.c.Frame(e)| then [e] else [];
      && d.file.Some? && d.file.value >= w.first && d.file.value in d.pages && d.file.value in d'.pages
      && d'.pages == d.pages[d.file.value := d'.pages[d.file.value]]
      && d'.pages[d.file.value].whole == d.pages[d.file.value].whole + extra && d'.log == d.log + extra
  {
    hide Append, SegmentOk, Total;
    assert d.log + [] == d.log && d.pages[d.file.value].whole + [] == d.pages[d.file.value].whole;
  }

  lemma {:induction false} DiskDistinct(w: World, d: Disk)
    requires w.Valid() && DiskOk(w, d)
    ensures Distinct(d.dir) && forall t | t in d.dir :: t.name < d.nextName
  {
    forall t | t in d.dir ensures t.name < d.nextName { NamedBelow(w, d, t); }
  }

  /** Creating a segment adds nothing to the survivors, wherever it sorts. */
  lemma {:induction false} CreateSurvivors(first: nat, d: Disk, now: int, ties: nat)
    requires forall t | t in d.dir :: t.name < d.nextName
    ensures var d' := Opened(NameNext(d, now), ties); Survivors(first, d'.pages, d'.dir) == Survivors(first, d.pages, d.dir)
  {
    var s := Segment(d.nextName, now, []);
    var pages' := d.pages[s.name := Page([], None)];
    InsertPlace(d.dir, s, ties);
    var at := Place(d.dir, now, ties);
    SurvivorsUnaffected(first, d.pages, d.dir, s.name, Page([], None));
    SurvivorsConcat(first, pages', d.dir[..at] + [s], d.dir[at..]);
    LastSurvivors(first, pages', d.dir[..at], s);
    SurvivorsConcat(first, pages', d.dir[..at], d.dir[at..]);
    assert d.dir == d.dir[..at] + d.dir[at..];
  }

  /** The names one resumption unlinks. */
  function Unlinked(w: World, d: Disk, t: Task, io: Io): seq<nat> {
    match t
    case Sweeping =>
      var names := Sweeps(w.o, d, 0, io.clock);
      if io.ok then names else names[..Min(io.n, |names|)]
    case Opening(_) =>
      var names := Sweeps(w.o, d, w.o.segmentBytes, io.clock);
      if io.ok || io.named then names else names[..Min(io.n, |names|)]
    case _ => []
  }

  /**
   * What one step must respect: it unlinks the oldest records first, and it completes
   * no record in a segment that sorts before another one with records.
   */
  ghost predicate KeepsOrder(w: World, s: Journal, ev: Event) {
    ev.Resume? && ev.drain < |s.drains| ==>
      var t, io, d := s.drains[ev.drain], ev.io, s.disk;
      && OldestFirst(w.first, d.pages, d.dir, Unlinked(w, d, t, io))
      && (t.Writing? && io.ok && io.n != 0 && t.offset + io.n == |w.c.Frame(t.e)| ==>
            Survivors(w.first, d.pages, Newer(d)) == [])
  }

  lemma {:induction false} UnlinksNothing(first: nat, pages: map<nat, Page>, dir: seq<Segment>)
    ensures OldestFirst(first, pages, dir, [])
  {}

  lemma {:induction false} ResumeIff(w: World, s: Journal, ev: Event)
    requires w.Valid() && ev.Resume? && ev.drain < |s.drains| && Core(w, s, s.drains[ev.drain]) && SuffixHeld(w, s.disk)
    requires Increasing(s.disk.log)
    ensures SuffixHeld(w, DiskAfter(w, s.disk, s.drains[ev.drain], ev.io)) <==> KeepsOrder(w, s, ev)
  {
    hide DiskOk, Survivors, Without, Sweeps, Insert, Append, OldestFirst, Accounted;
    var t, io, d := s.drains[ev.drain], ev.io, s.disk;
    UnlinksNothing(w.first, d.pages, d.dir);
    UnlinkIff(w.first, d.pages, d.dir, Unlinked(w, d, t, io), d.log);
    if t.Opening? && (io.ok || io.named) {
      DiskDistinct(w, d);
      var swept := SweepAll(w.o, d, w.o.segmentBytes, io.clock);
      WithoutSubset(d.dir, Sweeps(w.o, d, w.o.segmentBytes, io.clock));
      CreateSurvivors(w.first, swept, io.now, io.ties);
    } else if t.Writing? {
      HeldIsAdmitted(w, s, t.e, t.offset);
      if io.ok && io.n != 0 && t.offset + io.n <= |w.c.Frame(t.e)| { ChunkIff(w, d, t.e, t.offset, io.n); }
    }
  }

  lemma {:induction false} StepIff(w: World, s: Journal, ev: Event)
    requires w.Valid() && Inv(w, s) && SuffixHeld(w, s.disk)
    ensures SuffixHeld(w, Step(w, s, ev).disk) <==> KeepsOrder(w, s, ev)
  {
    hide Step, DiskAfter, DiskOk, Suspended, SuffixHeld;
    StepDisk(w, s, ev);
    LogIncreases(w, s, Current(s));
    if ev.Resume? && ev.drain < |s.drains| { ResumeIff(w, s, ev); }
    else { SameSurvivors(w, s.disk, Step(w, s, ev).disk); }
  }

  lemma {:induction false} SameSurvivors(w: World, d: Disk, d': Disk)
    requires d'.dir == d.dir && d'.pages == d.pages && d'.log == d.log
    ensures SuffixHeld(w, d') <==> SuffixHeld(w, d)
  {}

  lemma {:induction false} LogIncreases(w: World, s: Journal, t: Task)
    requires Accounted(w, s, t)
    ensures Increasing(s.disk.log)
  {
    var all := s.disk.log + Flying(t) + s.queue;
    assert forall i | 0 <= i < |s.disk.log| :: all[i] == s.disk.log[i];
  }

  ghost predicate SuffixAlways(w: World, s0: Journal, evs: seq<Event>) {
    forall i | 0 <= i <= |evs| :: SuffixHeld(w, Run(w, s0, evs[..i]).disk)
  }

  ghost predicate OrderAlways(w: World, s0: Journal, evs: seq<Event>) {
    forall i | 0 <= i < |evs| :: KeepsOrder(w, Run(w, s0, evs[..i]), evs[i])
  }

  lemma {:induction false} AlwaysSplits(w: World, s0: Journal, evs: seq<Event>)
    requires evs != []
    ensures var init := evs[..|evs| - 1];
      && (SuffixAlways(w, s0, evs) <==> SuffixAlways(w, s0, init) && SuffixHeld(w, Run(w, s0, evs).disk))
      && (OrderAlways(w, s0, evs) <==> OrderAlways(w, s0, init) && KeepsOrder(w, Run(w, s0, init), evs[|evs| - 1]))
      && (SuffixAlways(w, s0, init) ==> SuffixHeld(w, Run(w, s0, init).disk))
  {
    hide SuffixHeld, KeepsOrder, Run;
    var n := |evs| - 1;
    var init := evs[..n];
    assert evs[..|evs|] == evs && init[..n] == init;
    forall i | 0 <= i <= n ensures init[..i] == evs[..i] {}
    if SuffixAlways(w, s0, init) && SuffixHeld(w, Run(w, s0, evs).disk) {
      forall i | 0 <= i <= |evs| ensures SuffixHeld(w, Run(w, s0, evs[..i]).disk) {
        if i <= n { assert SuffixHeld(w, Run(w, s0, init[..i]).disk); }
      }
    }
    if SuffixAlways(w, s0, evs) {
      forall i | 0 <= i <= n ensures SuffixHeld(w, Run(w, s0, init[..i]).disk) {
        assert SuffixHeld(w, Run(w, s0, evs[..i]).disk);
      }
    }
    if OrderAlways(w, s0, evs) {
      forall i | 0 <= i < n ensures KeepsOrder(w, Run(w, s0, init[..i]), init[i]) {
        assert KeepsOrder(w, Run(w, s0, evs[..i]), evs[i]);
      }
    }
    if OrderAlways(w, s0, init) && KeepsOrder(w, Run(w, s0, init), evs[n]) {
      forall i | 0 <= i < |evs| ensures KeepsOrder(w, Run(w, s0, evs[..i]), evs[i]) {
        if i < n { assert KeepsOrder(w, Run(w, s0, init[..i]), init[i]); }
      }
    }
  }

  /**
   * Exactly when retention is oldest-first: the survivors are a suffix of the log at
   * every point of a run if and only if every step of it keeps that order.
   */
  lemma {:induction false} SuffixAlwaysIff(w: World, s0: Journal, evs: seq<Event>)
    requires w.Valid() && Initial(w, s0)
    ensures SuffixAlways(w, s0, evs) <==> OrderAlways(w, s0, evs)
    decreases |evs|
  {
    if evs == [] {
      StartsEmpty(w, s0);
    } else {
      hide SuffixHeld, KeepsOrder, Step, SuffixAlways, OrderAlways, Inv, Initial;
      var init := evs[..|evs| - 1];
      SuffixAlwaysIff(w, s0, init);
      RunInv(w, s0, init);
      AlwaysSplits(w, s0, evs);
      if SuffixHeld(w, Run(w, s0, init).disk) { StepIff(w, Run(w, s0, init), evs[|evs| - 1]); }
    }
  }

  lemma {:induction false} StartsEmpty(w: World, s0: Journal)
    requires w.Valid() && Initial(w, s0)
    ensures SuffixHeld(w, s0.disk)
  {
    NothingKept(w.first, s0.disk.dir);
  }
}
