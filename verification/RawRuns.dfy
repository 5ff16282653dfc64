/**
 * Concrete runs of the journal, and what they show: which settings let an unreadable
 * record reach the disk, and how a clock set back loses the newest records.
 */
module RawRuns {
  import opened Basics
  import opened RawFrames
  import opened RawDisk
  import opened RawOrder
  import opened RawJournal
  import opened RawTheorems

  // ------------------------------------------------------------------- building runs

  lemma {:induction false} RunConcat(w: World, s: Journal, a: seq<Event>, b: seq<Event>)
    ensures Run(w, s, a + b) == Run(w, Run(w, s, a), b)
    decreases |b|
  {
    hide Step;
    if b == [] {
      assert a + b == a;
    } else {
      assert (a + b)[..|a + b| - 1] == a + b[..|b| - 1];
      RunConcat(w, s, a, b[..|b| - 1]);
    }
  }

  lemma {:induction false} RunPush(w: World, s: Journal, evs: seq<Event>, ev: Event)
    ensures Run(w, s, evs + [ev]) == Step(w, Run(w, s, evs), ev)
  {
    hide Step;
    assert (evs + [ev])[..|evs|] == evs;
  }

  /** Nothing queued, nothing running, and still open. */
  predicate Idle(s: Journal) {
    s.queue == [] && s.queuedBytes == 0 && !s.writer && s.drains == [] && !s.checkpoint && !s.closed && !s.drained
  }

  /** An entry that an idle journal admits at `now` and writes to a segment of its own. */
  ghost predicate Writes(w: World, s: Journal, e: Entry, now: int) {
    && Idle(s) && e.sequence == s.sequence + 1 && s.retryAt <= now && w.Fits(e) && w.Admits(e) && 1024 <= w.o.queueLimit
    && (s.disk.file.None? || s.disk.fileBytes + |w.c.Frame(e)| > w.o.segmentBytes)
  }

  function WriteEvents(w: World, e: Entry, clock: Clock, now: int): seq<Event> {
    var io := Io(true, |w.c.Frame(e)|, false, clock, now, 0);
    [Record(e.body, 0, now), Resume(0, io), Resume(0, io), Resume(0, io), Settle(0, now)]
  }

  /** The segment a rotation opens. */
  function Rotated(w: World, d: Disk, clock: Clock, now: int): Disk {
    Opened(NameNext(SweepAll(w.o, Retire(d), w.o.segmentBytes, clock), now), 0)
  }

  function WrittenTo(w: World, d: Disk, e: Entry, clock: Clock, now: int): Disk {
    Chunk(w.c, Rotated(w, d, clock, now), e, 0, |w.c.Frame(e)|)
  }

  /** Admission, rotation, one complete write and the end of the writer, with every call succeeding. */
  lemma {:induction false} WriteOne(w: World, s: Journal, e: Entry, clock: Clock, now: int)
    requires w.Valid() && Writes(w, s, e, now)
    ensures Run(w, s, WriteEvents(w, e, clock, now)) ==
      s.(sequence := s.sequence + 1, written := s.written + 1, disk := WrittenTo(w, s.disk, e, clock, now))
  {
    hide Run, WrittenTo, Rotated, Admit, Advance, SettleDrain;
    var io := Io(true, |w.c.Frame(e)|, false, clock, now, 0);
    var e1, e2, e3, e4, e5 := Record(e.body, 0, now), Resume(0, io), Resume(0, io), Resume(0, io), Settle(0, now);
    var queued := s.(sequence := s.sequence + 1, queuedBytes := w.c.Length(e), writer := true);
    var s1 := queued.(drains := [Retiring(e)]);
    var s2 := queued.(drains := [Opening(e)], disk := Retire(s.disk));
    var s3 := queued.(drains := [Writing(e, 0)], disk := Rotated(w, s.disk, clock, now));
    var s4 := queued.(drains := [Returned], queuedBytes := 0, written := s.written + 1, disk := WrittenTo(w, s.disk, e, clock, now));
    var s5 := s4.(writer := false, drains := []);
    WriteAdmitted(w, s, e, now);
    WriteResumed(w, queued, e, clock, now);
    WriterEnds(w, s4, now);
    RunFive(w, s, [e1, e2, e3, e4, e5], s1, s2, s3, s4, s5);
  }

  lemma {:induction false} WriterEnds(w: World, s: Journal, now: int)
    requires s.drains == [Returned] && s.queue == [] && !s.checkpoint
    ensures Step(w, s, Settle(0, now)) == s.(writer := false, drains := [])
  {
    assert s.drains[..0] + s.drains[1..] == [];
  }

  lemma {:induction false} RunFive(w: World, s: Journal, evs: seq<Event>, s1: Journal, s2: Journal, s3: Journal, s4: Journal, s5: Journal)
    requires |evs| == 5 && Step(w, s, evs[0]) == s1 && Step(w, s1, evs[1]) == s2 && Step(w, s2, evs[2]) == s3
    requires Step(w, s3, evs[3]) == s4 && Step(w, s4, evs[4]) == s5
    ensures Run(w, s, evs) == s5
  {
    hide Step;
    RunPush(w, s, [], evs[0]);
    RunPush(w, s, evs[..1], evs[1]);
    RunPush(w, s, evs[..2], evs[2]);
    RunPush(w, s, evs[..3], evs[3]);
    RunPush(w, s, evs[..4], evs[4]);
    assert Run(w, s, []) == s;
    hide Run;
    assert evs[..1] == [] + [evs[0]] && evs[..2] == evs[..1] + [evs[1]] && evs[..3] == evs[..2] + [evs[2]];
    assert evs[..4] == evs[..3] + [evs[3]] && evs == evs[..4] + [evs[4]];
  }

  lemma {:induction false} WriteAdmitted(w: World, s: Journal, e: Entry, now: int)
    requires w.Valid() && Writes(w, s, e, now)
    ensures Admit(w, s, e.body, 0, now) ==
      s.(sequence := s.sequence + 1, queuedBytes := w.c.Length(e), writer := true, drains := [Retiring(e)])
  {
    assert e == Entry(s.sequence + 1, e.body);
    var s' := s.(sequence := s.sequence + 1, queue := [e], queuedBytes := w.c.Length(e));
    assert s.queue + [e] == [e] && [e][1..] == [] && [] + [Retiring(e)] == [Retiring(e)];
    assert LoopHead(w, s', now) == (s'.(queue := []), Retiring(e));
  }

  /** The three resumptions of a rotation and a whole write. */
  lemma {:induction false} WriteResumed(w: World, s: Journal, e: Entry, clock: Clock, now: int)
    requires w.Valid() && s.queue == [] && !s.checkpoint && s.queuedBytes == w.c.Length(e) && w.Fits(e)
    ensures var io := Io(true, |w.c.Frame(e)|, false, clock, now, 0);
      var opened' := s.(disk := Rotated(w, s.disk, clock, now));
      && Step(w, s.(drains := [Retiring(e)]), Resume(0, io)) == s.(drains := [Opening(e)], disk := Retire(s.disk))
      && Step(w, s.(drains := [Opening(e)], disk := Retire(s.disk)), Resume(0, io)) == opened'.(drains := [Writing(e, 0)])
      && Step(w, opened'.(drains := [Writing(e, 0)]), Resume(0, io)) ==
           s.(drains := [Returned], queuedBytes := 0, written := s.written + 1, disk := WrittenTo(w, s.disk, e, clock, now))
  {
    hide SweepAll, Insert, Append;
    FrameLength(w.c, e);
    assert forall t: Task, t': Task :: [t][..0] + [t'] + [t][1..] == [t'];
  }

  // ------------------------------------------------------------------ unreadable records

  /** Records that only advance the sequence: too much payload to admit. */
  function Skips(n: nat): seq<Event> {
    if n == 0 then [] else Skips(n - 1) + [Record([], MAX_PAYLOAD + 1, 0)]
  }

  lemma {:induction false} SkipOne(w: World, s: Journal)
    requires !s.closed
    ensures Step(w, s, Record([], MAX_PAYLOAD + 1, 0)) == s.(sequence := s.sequence + 1, dropped := s.dropped + 1)
  {
    hide StartWriter;
  }

  lemma {:induction false} SkipRun(w: World, s: Journal, n: nat)
    requires !s.closed
    ensures Run(w, s, Skips(n)) == s.(sequence := s.sequence + n, dropped := s.dropped + n)
  {
    if n == 0 {
      assert Run(w, s, []) == s;
    } else {
      hide Run, Step;
      SkipRun(w, s, n - 1);
      RunPush(w, s, Skips(n - 1), Record([], MAX_PAYLOAD + 1, 0));
      SkipOne(w, s.(sequence := s.sequence + n - 1, dropped := s.dropped + n - 1));
    }
  }

  function ReachEvents(w: World, e: Entry): seq<Event>
    requires e.sequence >= 1
  {
    Skips(e.sequence - 1) + WriteEvents(w, e, _ => 0, 0)
  }

  /** Every record that passes admission and fits a segment reaches the disk in some run. */
  lemma {:induction false} ReachesDisk(w: World, s0: Journal, e: Entry) returns (s: Segment)
    requires w.Valid() && Initial(w, s0) && w.Fits(e) && w.Admits(e) && 1024 <= w.o.queueLimit
    ensures var d := Run(w, s0, ReachEvents(w, e)).disk;
      s in d.dir && s.name >= w.first && s.data == w.c.Frame(e)
  {
    hide Run, WriteEvents, Skips, WrittenTo;
    var s1 := s0.(sequence := e.sequence - 1, dropped := e.sequence - 1);
    SkipRun(w, s0, e.sequence - 1);
    RunConcat(w, s0, Skips(e.sequence - 1), WriteEvents(w, e, _ => 0, 0));
    WriteOne(w, s1, e, _ => 0, 0);
    RunInv(w, s0, ReachEvents(w, e));
    var d := Run(w, s0, ReachEvents(w, e)).disk;
    assert d == WrittenTo(w, s0.disk, e, _ => 0, 0);
    s := AloneInSegment(w, s0.disk, e, _ => 0, 0);
  }

  /** The segment just written holds exactly one frame. */
  lemma {:induction false} AloneInSegment(w: World, d: Disk, e: Entry, clock: Clock, now: int) returns (s: Segment)
    requires w.Valid() && w.Fits(e) && DiskOk(w, WrittenTo(w, d, e, clock, now)) && d.nextName >= w.first
    ensures s in WrittenTo(w, d, e, clock, now).dir && s.name == d.nextName && s.data == w.c.Frame(e)
  {
    FrameLength(w.c, e);
    hide SweepAll, Insert, Append;
    var d' := WrittenTo(w, d, e, clock, now);
    assert d'.file == Some(d.nextName) && d'.pages[d.nextName].whole == [] + [e];
    var i :| 0 <= i < |d'.dir| && d'.dir[i].name == d.nextName;
    s := d'.dir[i];
    assert SegmentOk(w, d', s);
    FramesAppend(w.c, [], e);
    assert w.c.Frames([]) == [];
  }

  /** Every cut of every segment of every run reads without an error. */
  ghost predicate AlwaysReads(w: World, s0: Journal)
    requires w.Valid()
  {
    forall evs: seq<Event>, s: Segment, n: nat |
      s in Run(w, s0, evs).disk.dir && s.name >= w.first && n <= |s.data| :: Decode(w.c, s.data[..n]).Ok?
  }

  /** Every record that admission and the segment size let through is within the decoder's bound. */
  ghost predicate OnlyReadable(w: World) {
    forall e | w.Fits(e) && w.Admits(e) :: w.c.Readable(e)
  }

  /**
   * The exact condition for crash tolerance over all runs: no record that passes both
   * the queue's and the segment's bound exceeds the decoder's.
   */
  lemma {:induction false} AlwaysReadsIff(w: World, s0: Journal)
    requires w.Valid() && Initial(w, s0)
    ensures AlwaysReads(w, s0) <==> OnlyReadable(w)
  {
    if OnlyReadable(w) {
      forall evs: seq<Event>, s: Segment, n: nat | s in Run(w, s0, evs).disk.dir && s.name >= w.first && n <= |s.data|
        ensures Decode(w.c, s.data[..n]).Ok?
      {
        ReadableRun(w, s0, evs, s, n);
      }
    } else {
      var e :| w.Fits(e) && w.Admits(e) && !w.c.Readable(e);
      UnreadableRun(w, s0, e);
    }
  }

  lemma {:induction false} ReadableRun(w: World, s0: Journal, evs: seq<Event>, s: Segment, n: nat)
    requires w.Valid() && Initial(w, s0) && OnlyReadable(w)
    requires s in Run(w, s0, evs).disk.dir && s.name >= w.first && n <= |s.data|
    ensures Decode(w.c, s.data[..n]).Ok?
  {
    hide Inv, Run, Initial;
    var es, k := CutExists(w, s0, evs, s, n);
    CutIsLogged(w, s0, evs, s, n, es, k);
    assert w.c.AllReadable(es);
    DecodePrefix(w.c, es, n, k);
  }

  /** A run that leaves a segment the decoder refuses. */
  lemma {:induction false} UnreadableRun(w: World, s0: Journal, e: Entry)
    requires w.Valid() && Initial(w, s0) && w.Fits(e) && w.Admits(e) && !w.c.Readable(e)
    ensures exists s :: s in Run(w, s0, ReachEvents(w, e)).disk.dir && s.name >= w.first && Decode(w.c, s.data) == Err(InvalidFrame)
    ensures !AlwaysReads(w, s0)
  {
    var s := ReachesDisk(w, s0, e);
    hide Inv, Run, Initial;
    FrameLength(w.c, e);
    OversizedFrame(w.c, e, s.data);
    assert s.data[..|s.data|] == s.data;
  }

  /** Either bound is enough: segments of 16 MiB + 4 bytes, or a queue of 16 MiB - 28 bytes. */
  lemma {:induction false} EitherBoundReads(w: World, s0: Journal)
    requires w.Valid() && Initial(w, s0) && w.ReadsBack()
    ensures AlwaysReads(w, s0)
  {
    hide Inv, Run, Initial, AlwaysReads;
    AlwaysReadsIff(w, s0);
  }

  /** With neither bound, a record one byte beyond the decoder's passes both and is lost. */
  lemma {:induction false} NeitherBoundLoses(w: World, s0: Journal, e: Entry)
    requires w.Valid() && Initial(w, s0) && !w.ReadsBack()
    requires e.sequence >= 1 && w.c.Renders(e) && w.c.FrameSize(e) == MAX_FRAME + 1
    ensures w.Fits(e) && w.Admits(e)
    ensures exists s :: s in Run(w, s0, ReachEvents(w, e)).disk.dir && s.name >= w.first && Decode(w.c, s.data) == Err(InvalidFrame)
  {
    hide Inv, Run, Initial;
    UnreadableRun(w, s0, e);
  }

  // ------------------------------------------------------------------ clock not advancing

  /** Three records, each filling a segment; the second segment is created at `again`. */
  function SetBackEvents(w: World, a: Entry, b: Entry, c: Entry, again: int): seq<Event> {
    WriteEvents(w, a, _ => 1, 1) + WriteEvents(w, b, _ => 1, again) + WriteEvents(w, c, _ => 1, 2)
  }

  ghost predicate FillsSegment(w: World, e: Entry) {
    w.Fits(e) && w.Admits(e) && |w.c.Frame(e)| == w.o.segmentBytes
  }

  lemma {:induction false} FirstSegment(w: World, d: Disk, a: Entry)
    requires w.Valid() && FillsSegment(w, a) && d.dir == []
    ensures var n := d.nextName;
      WrittenTo(w, d, a, _ => 1, 1) == Disk([Segment(n, 1, w.c.Frame(a))], n + 1, Some(n), Some(n), w.o.segmentBytes, 1,
        d.pages[n := Page([a], None)], d.log + [a])
  {
    var n, frame := d.nextName, w.c.Frame(a);
    assert Rotated(w, d, _ => 1, 1).dir == [Segment(n, 1, [])];
    assert frame[0..0 + |frame|] == frame && [] + frame == frame && [] + [a] == [a];
    assert [Segment(n, 1, [])][1..] == [];
  }

  lemma {:induction false} SecondSegment(w: World, d: Disk, x: bytes, b: Entry, again: int)
    requires again <= 1
    requires w.Valid() && FillsSegment(w, b) && w.o.maximumBytes == 2 * w.o.segmentBytes
    requires d.nextName >= 1 && |x| == w.o.segmentBytes && d.dir == [Segment(d.nextName - 1, 1, x)]
    ensures var n := d.nextName;
      WrittenTo(w, d, b, _ => 1, again) == Disk([Segment(n, again, w.c.Frame(b)), Segment(n - 1, 1, x)], n + 1, Some(n), Some(n),
        w.o.segmentBytes, again, d.pages[n := Page([b], None)], d.log + [b])
  {
    var n, frame := d.nextName, w.c.Frame(b);
    var first := Segment(n - 1, 1, x);
    assert [first][1..] == [] && Total([]) == 0 && Total([first]) == |x|;
    assert Sweeps(w.o, Retire(d), w.o.segmentBytes, _ => 1) == [];
    assert Without([first], []) == [first] + Without([], []);
    assert Rotated(w, d, _ => 1, again).dir == [Segment(n, again, []), first];
    assert frame[0..0 + |frame|] == frame && [] + frame == frame && [] + [b] == [b];
    assert [Segment(n, again, []), first][1..] == [first];
  }

  lemma {:induction false} ThirdSegment(w: World, d: Disk, x: bytes, y: bytes, c: Entry, again: int)
    requires w.Valid() && FillsSegment(w, c) && w.o.maximumBytes == 2 * w.o.segmentBytes && d.nextName >= 2
    requires |x| == |y| == w.o.segmentBytes && d.dir == [Segment(d.nextName - 1, again, y), Segment(d.nextName - 2, 1, x)]
    ensures var n := d.nextName;
      WrittenTo(w, d, c, _ => 1, 2) == Disk([Segment(n - 2, 1, x), Segment(n, 2, w.c.Frame(c))], n + 1, Some(n), Some(n),
        w.o.segmentBytes, 2, d.pages[n := Page([c], None)], d.log + [c])
  {
    var n, frame, seg := d.nextName, w.c.Frame(c), w.o.segmentBytes;
    var one, two := Segment(n - 2, 1, x), Segment(n - 1, again, y);
    var clock: Clock := _ => 1;
    assert [two, one][1..] == [one] && [one][1..] == [] && Total([]) == 0 && Total([one]) == seg && Total([two, one]) == 2 * seg;
    assert Doomed(w.o, [one], seg, seg, None, clock, 1) == [];
    assert Doomed(w.o, [two, one], 2 * seg, seg, None, clock, 0) == [n - 1] + [];
    assert Without([two, one], [n - 1]) == Without([one], [n - 1]) == [one] + Without([], [n - 1]);
    assert Sweeps(w.o, Retire(d), seg, clock) == [n - 1];
    assert SweepAll(w.o, Retire(d), seg, clock).dir == [one];
    assert Insert([one], Segment(n, 2, []), 0) == [one] + Insert([], Segment(n, 2, []), 0);
    assert Rotated(w, d, clock, 2).dir == [one, Segment(n, 2, [])];
    assert frame[0..0 + |frame|] == frame && [] + frame == frame && [] + [c] == [c];
    assert [one, Segment(n, 2, [])][1..] == [Segment(n, 2, [])];
    assert Append([Segment(n, 2, [])], n, frame) == [Segment(n, 2, frame)];
  }

  /**
   * A run on any journal of two segments whose clock is set back once, or only does not
   * advance while the directory lists the newer segment first: the pass before the third
   * segment unlinks the second one, so the oldest record survives a newer one and what
   * survives is no suffix of what was written.
   */
  lemma {:induction false} ClockSetBackLosesNewer(w: World, s0: Journal, a: Entry, b: Entry, c: Entry, again: int)
    requires w.Valid() && Initial(w, s0) && s0.disk.dir == []
    requires w.o.maximumBytes == 2 * w.o.segmentBytes && 1024 <= w.o.queueLimit
    requires a.sequence == 1 && b.sequence == 2 && c.sequence == 3 && 0 <= again <= 1
    requires FillsSegment(w, a) && FillsSegment(w, b) && FillsSegment(w, c)
    ensures var s := Run(w, s0, SetBackEvents(w, a, b, c, again)); var kept := Survivors(w.first, s.disk.pages, s.disk.dir);
      s.disk.log == [a, b, c] && kept == [a, c] && !Suffix(kept, s.disk.log)
  {
    hide WrittenTo, WriteEvents, Run, DiskOk;
    InitialNames(w, s0);
    var n := s0.disk.nextName;
    var da, db, dc := WriteEvents(w, a, _ => 1, 1), WriteEvents(w, b, _ => 1, again), WriteEvents(w, c, _ => 1, 2);
    var d1 := WrittenTo(w, s0.disk, a, _ => 1, 1);
    var d2 := WrittenTo(w, d1, b, _ => 1, again);
    var d3 := WrittenTo(w, d2, c, _ => 1, 2);
    FirstSegment(w, s0.disk, a);
    SecondSegment(w, d1, w.c.Frame(a), b, again);
    ThirdSegment(w, d2, w.c.Frame(a), w.c.Frame(b), c, again);
    FrameLength(w.c, a);
    WriteOne(w, s0, a, _ => 1, 1);
    var s1 := s0.(sequence := 1, written := 1, disk := d1);
    WriteOne(w, s1, b, _ => 1, again);
    var s2 := s0.(sequence := 2, written := 2, disk := d2);
    WriteOne(w, s2, c, _ => 1, 2);
    RunConcat(w, s0, da + db, dc);
    RunConcat(w, s0, da, db);
    assert Run(w, s0, SetBackEvents(w, a, b, c, again)).disk == d3;
    TwoSurvivors(w.first, d3.pages, d3.dir);
  }

  lemma {:induction false} InitialNames(w: World, s0: Journal)
    requires w.Valid() && Initial(w, s0)
    ensures s0.disk.nextName >= w.first
  {}

  lemma {:induction false} TwoSurvivors(first: nat, pages: map<nat, Page>, dir: seq<Segment>)
    requires |dir| == 2
    ensures Survivors(first, pages, dir) == Kept(first, pages, dir[0]) + Kept(first, pages, dir[1])
  {
    LastSurvivors(first, pages, dir[..1], dir[1]);
    LastSurvivors(first, pages, [], dir[0]);
    assert dir == dir[..1] + [dir[1]] && dir[..1] == [] + [dir[0]];
  }
}
