/** What holds of the journal over every run, however its steps interleave and fail. */
module RawTheorems {
  import opened Basics
  import opened RawFrames
  import opened RawDisk
  import opened RawOrder
  import opened RawJournal

  /** `initialize` ends in an initial state, whatever earlier processes left in the directory. */
  lemma {:induction false} InitializeFits(w: World, dir: seq<Segment>, clock: Clock)
    requires w.Valid() && Distinct(dir) && forall s | s in dir :: s.name < w.first
    ensures var d := Disk(dir, w.first, None, None, 0, 0, map[], []);
      Initial(w, Journal([], 0, false, [], false, false, false, 0, 0, 0, 0, 0, SweepAll(w.o, d, 0, clock)))
  {
    var d := Disk(dir, w.first, None, None, 0, 0, map[], []);
    var names := Sweeps(w.o, d, 0, clock);
    SweepMakesRoom(w.o, dir, 0, clock, 0);
    WithoutSubset(dir, names);
    WithoutDistinct(dir, names);
  }

  /**
   * Writer and queue accounting: one drain at most, no lost wake-up, exact byte
   * and record counts within the queue limit, and an empty queue after close.
   */
  lemma {:induction false} QueueAccounting(w: World, s0: Journal, evs: seq<Event>)
    requires w.Valid() && Initial(w, s0)
    ensures var s := Run(w, s0, evs); var t := Current(s);
      && |s.drains| <= 1
      && (s.queue != [] || s.checkpoint ==> s.writer && |s.drains| == 1)
      && s.queuedBytes == Bytes(w, s.queue) + Held(w, t) <= w.o.queueLimit
      && s.sequence == s.written + s.dropped + |s.queue| + |Flying(t)|
      && s.written == |s.disk.log|
      && (s.drained ==> s.queue == [] && s.queuedBytes == 0 && s.sequence == s.written + s.dropped)
  {
    RunInv(w, s0, evs);
  }

  lemma {:induction false} DrainedResume(w: World, s: Journal, t: Task, io: Io)
    requires w.Valid() && Core(w, s, t) && s.drained && t != Returned
    ensures var s' := Advance(w, s, t, io).0;
      s'.drained && s'.queue == [] && s'.sequence == s.sequence && s'.disk.log == s.disk.log
  {}

  /** Once `close` has drained, nothing is admitted, queued or written again. */
  lemma {:induction false} DrainedIsFinal(w: World, s: Journal, ev: Event)
    requires w.Valid() && Inv(w, s) && s.drained
    ensures var s' := Step(w, s, ev);
      s'.drained && s'.queue == [] && s'.sequence == s.sequence && s'.disk.log == s.disk.log
  {
    if ev.Resume? && ev.drain < |s.drains| {
      if s.drains[ev.drain] != Returned { DrainedResume(w, s, s.drains[ev.drain], ev.io); }
    }
  }

  /** Retention: the directory stays within its budget, and this session's segments within theirs. */
  lemma {:induction false} DirectoryWithinBudget(w: World, s0: Journal, evs: seq<Event>)
    requires w.Valid() && Initial(w, s0)
    ensures var d := Run(w, s0, evs).disk;
      Total(d.dir) <= w.o.maximumBytes && forall s | s in d.dir && s.name >= w.first :: |s.data| <= w.o.segmentBytes
  {
    RunInv(w, s0, evs);
    var d := Run(w, s0, evs).disk;
    assert forall s | s in d.dir :: SegmentOk(w, d, s);
  }

  /** The directory after one resumption. */
  function DiskAfter(w: World, d: Disk, t: Task, io: Io): Disk {
    match t
    case Aging => if io.ok then Retire(d) else d
    case Sweeping => if io.ok then SweepAll(w.o, d, 0, io.clock) else Sweep(w.o, d, 0, io.clock, io.n)
    case Retiring(e) => if !io.ok && d.file.Some? then d else Retire(d)
    case Opening(e) =>
      var swept := SweepAll(w.o, d, w.o.segmentBytes, io.clock);
      if io.ok then Opened(NameNext(swept, io.now), io.ties)
      else if io.named then NameNext(swept, io.now)
      else Sweep(w.o, d, w.o.segmentBytes, io.clock, io.n)
    case Writing(e, offset) =>
      if !io.ok || io.n == 0 || offset + io.n > |w.c.Frame(e)| then d else Chunk(w.c, d, e, offset, io.n)
    case Failing(e) => Abandon(d)
    case _ => d
  }

  lemma {:induction false} AdvanceDisk(w: World, s: Journal, t: Task, io: Io)
    ensures Advance(w, s, t, io).0.disk == DiskAfter(w, s.disk, t, io)
  {
    hide LoopHead;
    forall s2: Journal ensures LoopHead(w, s2, io.now).0.disk == s2.disk { LoopHeadDisk(w, s2, io.now); }
    match t {
      case Writing(e, offset) => WritingDisk(w, s, e, offset, io);
      case Opening(e) =>
      case _ =>
    }
  }

  lemma {:induction false} LoopHeadDisk(w: World, s: Journal, now: int)
    ensures LoopHead(w, s, now).0.disk == s.disk
  {}

  lemma {:induction false} WritingDisk(w: World, s: Journal, e: Entry, offset: nat, io: Io)
    ensures Advance(w, s, Writing(e, offset), io).0.disk == DiskAfter(w, s.disk, Writing(e, offset), io)
  {
    var d' := Chunk(w.c, s.disk, e, offset, io.n);
    LoopHeadDisk(w, Finished(w, s.(disk := d', written := s.written + 1), e), io.now);
  }

  lemma {:induction false} StepDisk(w: World, s: Journal, ev: Event)
    ensures Step(w, s, ev).disk ==
      if ev.Resume? && ev.drain < |s.drains| then DiskAfter(w, s.disk, s.drains[ev.drain], ev.io)
      else if ev.Release? && s.drained then Abandon(s.disk)
      else s.disk
  {
    if ev.Resume? && ev.drain < |s.drains| { AdvanceDisk(w, s, s.drains[ev.drain], ev.io); }
  }

  // ------------------------------------------------------ pages and the log

  /** A page holds records of the log in writing order, and admitted records only. */
  ghost predicate PageLogged(w: World, log: seq<Entry>, page: Page) {
    && (forall i | 0 <= i < |page.whole| :: page.whole[i] in log)
    && Increasing(page.whole) && AllAdmitted(w, Source(page))
  }

  ghost predicate Logged(w: World, d: Disk) {
    forall name | name in d.pages :: PageLogged(w, d.log, d.pages[name])
  }

  lemma {:induction false} PageGrows(w: World, log: seq<Entry>, page: Page, e: Entry)
    requires PageLogged(w, log, page) && w.Admits(e) && Increasing(log + [e])
    ensures PageLogged(w, log, page.(cut := Some(e))) && PageLogged(w, log + [e], Page(page.whole + [e], None))
    ensures PageLogged(w, log + [e], page)
  {
    forall i | 0 <= i < |page.whole| ensures page.whole[i].sequence < e.sequence {
      var k :| 0 <= k < |log| && log[k] == page.whole[i];
      assert (log + [e])[k] == log[k] && (log + [e])[|log|] == e;
    }
    assert forall i | 0 <= i < |page.whole| :: Source(page)[i] == page.whole[i];
  }

  lemma {:induction false} HeldIsAdmitted(w: World, s: Journal, e: Entry, offset: nat)
    requires Accounted(w, s, Writing(e, offset))
    ensures w.Admits(e) && Increasing(s.disk.log + [e])
  {
    var all := s.disk.log + Flying(Writing(e, offset)) + s.queue;
    assert forall i | 0 <= i < |s.disk.log| + 1 :: all[i] == (s.disk.log + [e])[i];
    assert all[|s.disk.log|] in all;
  }

  lemma {:induction false} ResumeLogged(w: World, s: Journal, t: Task, io: Io)
    requires w.Valid() && Core(w, s, t) && Logged(w, s.disk)
    ensures Logged(w, DiskAfter(w, s.disk, t, io))
  {
    hide DiskOk, Without, Sweeps, Insert, Append, PageLogged;
    EmptyLogged(w, s.disk.log);
    if t.Writing? {
      HeldIsAdmitted(w, s, t.e, t.offset);
      assert Midway(w, s.disk, t.e, t.offset);
      var name := s.disk.file.value;
      assert PageLogged(w, s.disk.log, s.disk.pages[name]);
      PageGrows(w, s.disk.log, s.disk.pages[name], t.e);
      forall other | other in s.disk.pages ensures PageLogged(w, s.disk.log + [t.e], s.disk.pages[other]) {
        PageGrows(w, s.disk.log, s.disk.pages[other], t.e);
      }
    }
  }

  lemma {:induction false} EmptyLogged(w: World, log: seq<Entry>)
    ensures PageLogged(w, log, Page([], None))
  {}

  /** Over every run, whatever the clock does, each page is a part of the log in order. */
  lemma {:induction false} RunLogged(w: World, s0: Journal, evs: seq<Event>)
    requires w.Valid() && Initial(w, s0)
    ensures Logged(w, Run(w, s0, evs).disk)
    decreases |evs|
  {
    if evs != [] {
      hide Inv, Step, DiskAfter, Logged;
      var init, ev := evs[..|evs| - 1], evs[|evs| - 1];
      RunLogged(w, s0, init);
      RunInv(w, s0, init);
      StepLogged(w, Run(w, s0, init), ev);
    } else {
      assert Logged(w, s0.disk);
    }
  }

  lemma {:induction false} StepLogged(w: World, s: Journal, ev: Event)
    requires w.Valid() && Inv(w, s) && Logged(w, s.disk)
    ensures Logged(w, Step(w, s, ev).disk)
  {
    hide Step, DiskAfter, Core;
    StepDisk(w, s, ev);
    if ev.Resume? && ev.drain < |s.drains| { ResumeLogged(w, s, s.drains[ev.drain], ev.io); }
  }

  // ------------------------------------------------------------ crash tolerance

  lemma {:induction false} WrittenIsPrefix(w: World, data: bytes, page: Page)
    requires w.Valid() && Written(w, data, page)
    ensures data <= w.c.Frames(Source(page)) && AllFit(w, Source(page))
  {
    match page.cut {
      case None => assert Source(page) == page.whole;
      case Some(e) =>
        FramesAppend(w.c, page.whole, e);
        var n := |data| - |w.c.Frames(page.whole)|;
        CutAppend(w.c.Frames(page.whole), w.c.Frame(e), w.c.Frames(Source(page)), |data|);
    }
  }

  /** The frames a segment of this session was written from, and how many of them a cut at `n` leaves whole. */
  ghost predicate CutAt(w: World, s: Segment, n: nat, es: seq<Entry>, k: nat) {
    && n <= |s.data| && s.data <= w.c.Frames(es) && AllFit(w, es)
    && k <= |es| && |w.c.Frames(es[..k])| <= n && (k < |es| ==> n < |w.c.Frames(es[..k + 1])|)
  }

  lemma {:induction false} CutExists(w: World, s0: Journal, evs: seq<Event>, s: Segment, n: nat) returns (es: seq<Entry>, k: nat)
    requires w.Valid() && Initial(w, s0)
    requires s in Run(w, s0, evs).disk.dir && s.name >= w.first && n <= |s.data|
    ensures CutAt(w, s, n, es, k) && s.data[..n] == w.c.Frames(es)[..n]
    ensures var d := Run(w, s0, evs).disk; s.name in d.pages && es == Source(d.pages[s.name])
  {
    RunInv(w, s0, evs);
    var d := Run(w, s0, evs).disk;
    assert SegmentOk(w, d, s);
    es := Source(d.pages[s.name]);
    WrittenIsPrefix(w, s.data, d.pages[s.name]);
    k := FramesWithin(w.c, es, n);
  }

  /** The records wholly before a cut were logged, in this order. */
  ghost predicate InLogOrder(es: seq<Entry>, log: seq<Entry>) {
    (forall i | 0 <= i < |es| :: es[i] in log) && Increasing(es) && Increasing(log)
  }

  lemma {:induction false} CutIsLogged(w: World, s0: Journal, evs: seq<Event>, s: Segment, n: nat, es: seq<Entry>, k: nat)
    requires w.Valid() && Initial(w, s0)
    requires s in Run(w, s0, evs).disk.dir && s.name >= w.first && s.name in Run(w, s0, evs).disk.pages
    requires es == Source(Run(w, s0, evs).disk.pages[s.name]) && CutAt(w, s, n, es, k)
    ensures InLogOrder(es[..k], Run(w, s0, evs).disk.log) && AllAdmitted(w, es)
  {
    RunInv(w, s0, evs);
    RunLogged(w, s0, evs);
    var j := Run(w, s0, evs);
    var page := j.disk.pages[s.name];
    assert PageLogged(w, j.disk.log, page);
    assert SegmentOk(w, j.disk, s);
    hide Inv, Run, CutAt;
    CutIsWhole(w, s, page, n, k);
    assert forall i | 0 <= i < k :: es[i] == page.whole[i];
    var all := j.disk.log + Flying(Current(j)) + j.queue;
    assert forall i | 0 <= i < |j.disk.log| :: all[i] == j.disk.log[i];
  }

  /** A torn last frame is never among the whole ones. */
  lemma {:induction false} CutIsWhole(w: World, s: Segment, page: Page, n: nat, k: nat)
    requires w.Valid() && Written(w, s.data, page) && CutAt(w, s, n, Source(page), k)
    ensures k <= |page.whole|
  {
    if k > |page.whole| {
      var e := page.cut.value;
      assert Source(page)[..k] == page.whole + [e];
      FramesAppend(w.c, page.whole, e);
      assert false;
    }
  }

  /**
   * Crash tolerance over every run: any segment of this session, cut at any byte,
   * decodes without an error to exactly the records wholly before the cut, and
   * the tail is reported incomplete exactly when the cut is inside a frame. Each
   * decoded record was logged as written, and in this order, whatever the clock did.
   */
  lemma {:induction false} EveryPrefixDecodes(w: World, s0: Journal, evs: seq<Event>, s: Segment, n: nat)
    returns (es: seq<Entry>, k: nat)
    requires w.Valid() && w.ReadsBack() && Initial(w, s0)
    requires s in Run(w, s0, evs).disk.dir && s.name >= w.first && n <= |s.data|
    ensures CutAt(w, s, n, es, k) && InLogOrder(es[..k], Run(w, s0, evs).disk.log)
    ensures Decode(w.c, s.data[..n]) == Ok(Decoded(es[..k], n != |w.c.Frames(es[..k])|))
  {
    hide Inv;
    es, k := CutExists(w, s0, evs, s, n);
    CutIsLogged(w, s0, evs, s, n, es, k);
    FitIsReadable(w, es);
    DecodePrefix(w.c, es, n, k);
  }

  /**
   * For every setting of the segment size: a cut segment decodes without an error
   * exactly when no frame whose length prefix it contains exceeds 16 MiB.
   */
  lemma {:induction false} PrefixDecodesIff(w: World, s0: Journal, evs: seq<Event>, s: Segment, n: nat)
    returns (es: seq<Entry>, k: nat)
    requires w.Valid() && Initial(w, s0)
    requires s in Run(w, s0, evs).disk.dir && s.name >= w.first && n <= |s.data|
    ensures CutAt(w, s, n, es, k)
    ensures Decode(w.c, s.data[..n]).Ok? <==>
      w.c.AllReadable(es[..k]) && (k < |es| && |w.c.Frames(es[..k])| + 4 <= n ==> w.c.Readable(es[k]))
  {
    es, k := CutExists(w, s0, evs, s, n);
    PrefixReadIff(w.c, es, n, k);
  }

  // ------------------------------------------------------- oldest-first suffix

  /** A new segment is created at a time later than that of every segment present. */
  ghost predicate ClockAdvances(s: Journal, ev: Event) {
    ev.Resume? && ev.drain < |s.drains| && s.drains[ev.drain].Opening? && ev.io.ok ==>
      forall i | 0 <= i < |s.disk.dir| :: s.disk.dir[i].time < ev.io.now
  }

  ghost predicate ClockAlwaysAdvances(w: World, s: Journal, evs: seq<Event>) {
    forall i | 0 <= i < |evs| :: ClockAdvances(Run(w, s, evs[..i]), evs[i])
  }

  lemma {:induction false} OpeningRetains(w: World, d: Disk, e: Entry, io: Io)
    requires w.Valid() && DiskOk(w, d) && d.file.None? && d.fileName.None? && Retained(w.first, d)
    requires io.ok ==> forall i | 0 <= i < |d.dir| :: d.dir[i].time < io.now
    ensures Retained(w.first, DiskAfter(w, d, Opening(e), io))
  {
    var required := w.o.segmentBytes;
    var names := Sweeps(w.o, d, required, io.clock);
    SweepAllIsSweep(w, d, required, io.clock);
    SweepRetains(w.o, w.first, d, required, io.clock, |names|);
    SweepRetains(w.o, w.first, d, required, io.clock, io.n);
    var swept := SweepAll(w.o, d, required, io.clock);
    if io.ok {
      WithoutSubset(d.dir, names);
      forall i | 0 <= i < |swept.dir| ensures swept.dir[i].time < io.now {
        assert swept.dir[i] in d.dir;
      }
      CreateRetains(w.first, swept, io.now, io.ties);
    }
  }

  lemma {:induction false} ResumeRetains(w: World, s: Journal, t: Task, io: Io)
    requires w.Valid() && Core(w, s, t) && Retained(w.first, s.disk)
    requires t.Opening? && io.ok ==> forall i | 0 <= i < |s.disk.dir| :: s.disk.dir[i].time < io.now
    ensures Retained(w.first, DiskAfter(w, s.disk, t, io))
  {
    match t {
      case Sweeping =>
        SweepAllIsSweep(w, s.disk, 0, io.clock);
        SweepRetains(w.o, w.first, s.disk, 0, io.clock, |Sweeps(w.o, s.disk, 0, io.clock)|);
        SweepRetains(w.o, w.first, s.disk, 0, io.clock, io.n);
      case Opening(e) => OpeningRetains(w, s.disk, e, io);
      case Writing(e, offset) =>
        if io.ok && io.n != 0 && offset + io.n <= |w.c.Frame(e)| { ChunkRetains(w, s.disk, e, offset, io.n); }
      case _ =>
    }
  }

  lemma {:induction false} StepRetains(w: World, s: Journal, ev: Event)
    requires w.Valid() && Inv(w, s) && Retained(w.first, s.disk) && ClockAdvances(s, ev)
    ensures Retained(w.first, Step(w, s, ev).disk)
  {
    StepDisk(w, s, ev);
    if ev.Resume? && ev.drain < |s.drains| { ResumeRetains(w, s, s.drains[ev.drain], ev.io); }
  }

  lemma {:induction false} RunRetains(w: World, s0: Journal, evs: seq<Event>)
    requires w.Valid() && Initial(w, s0) && Chronological(s0.disk)
    requires ClockAlwaysAdvances(w, s0, evs)
    ensures Retained(w.first, Run(w, s0, evs).disk)
    decreases |evs|
  {
    if evs == [] {
      NothingKept(w.first, s0.disk.dir);
    } else {
      var init, ev := evs[..|evs| - 1], evs[|evs| - 1];
      forall i | 0 <= i < |init| ensures ClockAdvances(Run(w, s0, init[..i]), init[i]) {
        assert init[..i] == evs[..i];
        assert ClockAdvances(Run(w, s0, evs[..i]), evs[i]);
      }
      RunRetains(w, s0, init);
      RunInv(w, s0, init);
      assert ClockAdvances(Run(w, s0, evs[..|evs| - 1]), evs[|evs| - 1]);
      StepRetains(w, Run(w, s0, init), ev);
    }
  }

  lemma {:induction false} NothingKept(first: nat, dir: seq<Segment>)
    ensures Survivors(first, map[], dir) == []
  {
    if dir != [] { NothingKept(first, dir[1..]); }
  }

  /**
   * Oldest-first retention over every run whose creation times advance: the
   * surviving records of this session, in segment order, are a suffix of everything
   * written, with strictly increasing sequence numbers, and decoding the surviving
   * segments in order succeeds and gives exactly them.
   */
  lemma {:induction false} SurvivorsAreSuffix(w: World, s0: Journal, evs: seq<Event>)
    requires w.Valid() && Initial(w, s0) && Chronological(s0.disk)
    requires ClockAlwaysAdvances(w, s0, evs)
    ensures var s := Run(w, s0, evs); var r := Survivors(w.first, s.disk.pages, s.disk.dir);
      && Suffix(r, s.disk.log) && Increasing(r) && |s.disk.log| == s.written
      && (w.ReadsBack() ==> DecodeAll(w, s.disk.dir) == Ok(r))
  {
    RunInv(w, s0, evs);
    RunRetains(w, s0, evs);
    RunLogged(w, s0, evs);
    var s := Run(w, s0, evs);
    if w.ReadsBack() { DecodeSurvivors(w, s.disk, s.disk.dir); }
    assert s.disk.log + Flying(Current(s)) + s.queue == s.disk.log + (Flying(Current(s)) + s.queue);
    SuffixIncreasing(Survivors(w.first, s.disk.pages, s.disk.dir), s.disk.log, Flying(Current(s)) + s.queue);
  }

  lemma {:induction false} SuffixIncreasing(r: seq<Entry>, log: seq<Entry>, rest: seq<Entry>)
    requires Suffix(r, log) && Increasing(log + rest)
    ensures Increasing(r)
  {
    var all, at := log + rest, |log| - |r|;
    forall i, j | 0 <= i < j < |r| ensures r[i].sequence < r[j].sequence {
      assert r[i] == all[at + i] && r[j] == all[at + j];
    }
  }
}
