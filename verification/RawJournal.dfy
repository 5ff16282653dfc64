/**
 * The journal as a transition system. One step is the code that runs between
 * two awaits, so admission, flush, close and the `finally` callback interleave
 * freely with the writer. Failed and short I/O are outcomes of the step that
 * resumes after the awaited call.
 */
module RawJournal {
  import opened Basics
  import opened RawFrames
  import opened RawDisk
  import opened RawOrder

  /** Where a running `drain` is suspended. */
  datatype Task =
    | Syncing
    | Aging
    | Sweeping
    | Retiring(e: Entry)
    | Opening(e: Entry)
    | Writing(e: Entry, offset: nat)
    | Failing(e: Entry)
    | Returned

  /**
   * `drains` lists every `drain` call that has not been retired by its `finally`
   * callback; `writer` is whether the writer promise is set; `drained` records
   * that `close` got past its flush.
   */
  datatype Journal = Journal(
    queue: seq<Entry>,
    queuedBytes: int,
    writer: bool,
    drains: seq<Task>,
    checkpoint: bool,
    closed: bool,
    drained: bool,
    sequence: nat,
    written: nat,
    dropped: nat,
    ioErrors: nat,
    retryAt: int,
    disk: Disk)

  const MAX_PAYLOAD: nat := 4 * 1024 * 1024
  const RETRY_MS: int := 5000

  /**
   * How an awaited call came back. On success a write took `n` bytes. A failed
   * maintenance pass got through `n` unlinks, unless `named` says the failure
   * came after it, from the exclusive open. `clock` and `now` are time readings, and
   * `ties` is how many equally old segments the directory lists before one just created.
   */
  datatype Io = Io(ok: bool, n: nat, named: bool, clock: Clock, now: int, ties: nat)

  datatype Event =
    | Record(body: bytes, payload: nat, now: int)
    | Flush(now: int)
    | Close(now: int)
    | CloseDone
    | Release
    | Resume(drain: nat, io: Io)
    | Settle(drain: nat, now: int)

  /** The `catch` block up to its await. */
  function Fail(s: Journal, e: Entry, now: int): (Journal, Task) {
    (s.(ioErrors := s.ioErrors + 1, dropped := s.dropped + 1, retryAt := now + RETRY_MS), Failing(e))
  }

  /** From the loop test to the next await. */
  function LoopHead(w: World, s: Journal, now: int): (Journal, Task) {
    if s.queue == [] then
      if s.checkpoint then (s.(checkpoint := false), Syncing) else (s, Returned)
    else
      var e := s.queue[0];
      var s' := s.(queue := s.queue[1..]);
      if !w.Fits(e) then Fail(s', e, now)
      else if s.disk.file.None? || s.disk.fileBytes + |w.c.Frame(e)| > w.o.segmentBytes then (s', Retiring(e))
      else (s', Writing(e, 0))
  }

  function StartWriter(w: World, s: Journal, now: int): Journal {
    if s.writer then s else
      var (s', t) := LoopHead(w, s, now);
      s'.(writer := true, drains := s'.drains + [t])
  }

  /** The pressure, size and rendering checks, the first with the queue's own 1.4 estimate. */
  predicate Refused(w: World, s: Journal, e: Entry, payload: nat, now: int) {
    || now < s.retryAt || payload > MAX_PAYLOAD
    || 10 * (s.queuedBytes + 1024) + 14 * payload > 10 * w.o.queueLimit
    || !w.c.Renders(e)
    || w.c.Length(e) > w.o.queueLimit || s.queuedBytes + w.c.Length(e) > w.o.queueLimit
  }

  /** Admission without awaiting anything: refused, counted as dropped, or queued. */
  function Admit(w: World, s: Journal, body: bytes, payload: nat, now: int): Journal {
    if s.closed then s else
      var e := Entry(s.sequence + 1, body);
      var s' := s.(sequence := s.sequence + 1);
      if Refused(w, s, e, payload, now) then s'.(dropped := s.dropped + 1)
      else StartWriter(w, s'.(queue := s.queue + [e], queuedBytes := s.queuedBytes + w.c.Length(e)), now)
  }

  function RequestFlush(w: World, s: Journal, now: int): Journal {
    StartWriter(w, s.(checkpoint := true), now)
  }

  function IoError(s: Journal): Journal { s.(ioErrors := s.ioErrors + 1) }

  function Finished(w: World, s: Journal, e: Entry): Journal {
    s.(queuedBytes := s.queuedBytes - w.c.Length(e))
  }

  /** One resumption of `drain`. */
  function Advance(w: World, s: Journal, t: Task, io: Io): (Journal, Task) {
    match t
    case Syncing =>
      if !io.ok && s.disk.file.Some? then LoopHead(w, IoError(s), io.now)
      else if s.disk.file.Some? && io.now - s.disk.fileTime > w.o.maximumAgeMs then (s, Aging)
      else (s, Sweeping)
    case Aging =>
      if !io.ok then LoopHead(w, IoError(s), io.now) else (s.(disk := Retire(s.disk)), Sweeping)
    case Sweeping =>
      if io.ok then LoopHead(w, s.(disk := SweepAll(w.o, s.disk, 0, io.clock)), io.now)
      else LoopHead(w, IoError(s.(disk := Sweep(w.o, s.disk, 0, io.clock, io.n))), io.now)
    case Retiring(e) =>
      if !io.ok && s.disk.file.Some? then Fail(s, e, io.now) else (s.(disk := Retire(s.disk)), Opening(e))
    case Opening(e) =>
      var swept := SweepAll(w.o, s.disk, w.o.segmentBytes, io.clock);
      if io.ok then (s.(disk := Opened(NameNext(swept, io.now), io.ties)), Writing(e, 0))
      else if io.named then Fail(s.(disk := NameNext(swept, io.now)), e, io.now)
      else Fail(s.(disk := Sweep(w.o, s.disk, w.o.segmentBytes, io.clock, io.n)), e, io.now)
    case Writing(e, offset) =>
      if !io.ok || io.n == 0 || offset + io.n > |w.c.Frame(e)| then Fail(s, e, io.now)
      else
        var s' := s.(disk := Chunk(w.c, s.disk, e, offset, io.n));
        if offset + io.n < |w.c.Frame(e)| then (s', Writing(e, offset + io.n))
        else LoopHead(w, Finished(w, s'.(written := s.written + 1), e), io.now)
    case Failing(e) =>
      LoopHead(w, Finished(w, s.(disk := Abandon(s.disk)), e), io.now)
    case Returned => (s, Returned)
  }

  /** The `finally` callback of the writer promise. */
  function SettleDrain(w: World, s: Journal, i: nat, now: int): Journal {
    if i >= |s.drains| || s.drains[i] != Returned then s else
      var s' := s.(writer := false, drains := s.drains[..i] + s.drains[i + 1..]);
      if s'.queue != [] || s'.checkpoint then StartWriter(w, s', now) else s'
  }

  function Step(w: World, s: Journal, ev: Event): Journal {
    match ev
    case Record(body, payload, now) => Admit(w, s, body, payload, now)
    case Flush(now) => RequestFlush(w, s, now)
    case Close(now) => RequestFlush(w, s.(closed := true), now)
    case CloseDone => if s.closed && !s.writer then s.(drained := true) else s
    case Release => if s.drained then s.(disk := Abandon(s.disk)) else s
    case Resume(i, io) =>
      if i >= |s.drains| then s else
        var (s', t) := Advance(w, s, s.drains[i], io);
        s'.(drains := s.drains[..i] + [t] + s.drains[i + 1..])
    case Settle(i, now) => SettleDrain(w, s, i, now)
  }

  function Run(w: World, s: Journal, evs: seq<Event>): Journal
    decreases |evs|
  {
    if evs == [] then s else Step(w, Run(w, s, evs[..|evs| - 1]), evs[|evs| - 1])
  }

  // ---------------------------------------------------------------- invariant

  function Bytes(w: World, es: seq<Entry>): nat {
    if es == [] then 0 else w.c.Length(es[0]) + Bytes(w, es[1..])
  }

  predicate Increasing(es: seq<Entry>) {
    forall i, j | 0 <= i < j < |es| :: es[i].sequence < es[j].sequence
  }

  /** The entry taken off the queue whose outcome is not counted yet. */
  function Flying(t: Task): seq<Entry> {
    match t
    case Retiring(e) => [e]
    case Opening(e) => [e]
    case Writing(e, _) => [e]
    case _ => []
  }

  /** Bytes of the entry the writer still holds. */
  function Held(w: World, t: Task): nat {
    match t
    case Retiring(e) => w.c.Length(e)
    case Opening(e) => w.c.Length(e)
    case Writing(e, _) => w.c.Length(e)
    case Failing(e) => w.c.Length(e)
    case _ => 0
  }

  function Current(s: Journal): Task { if |s.drains| == 1 then s.drains[0] else Returned }

  /** Byte and record accounting, independent of which drain is running. */
  ghost predicate Accounted(w: World, s: Journal, t: Task) {
    && s.queuedBytes == Bytes(w, s.queue) + Held(w, t)
    && s.queuedBytes <= w.o.queueLimit
    && s.sequence == s.written + s.dropped + |s.queue| + |Flying(t)|
    && s.written == |s.disk.log|
    && Increasing(s.disk.log + Flying(t) + s.queue)
    && (forall e | e in s.disk.log + Flying(t) + s.queue :: 1 <= e.sequence <= s.sequence)
    && (s.drained ==> s.closed && s.queue == [] && Held(w, t) == 0 && Flying(t) == [])
  }

  /** What each suspension point knows about the active segment. */
  ghost predicate Suspended(w: World, d: Disk, t: Task)
    requires w.Valid()
  {
    match t
    case Retiring(e) => Settled(d) && w.Fits(e)
    case Opening(e) => d.file.None? && d.fileName.None? && w.Fits(e)
    case Writing(e, offset) => Midway(w, d, e, offset)
    case Failing(e) => true
    case _ => Settled(d)
  }

  ghost predicate Core(w: World, s: Journal, t: Task)
    requires w.Valid()
  {
    Accounted(w, s, t) && DiskOk(w, s.disk) && Suspended(w, s.disk, t)
  }

  /** At most one drain runs, and pending work always has a live writer. */
  ghost predicate Awake(s: Journal) {
    && |s.drains| <= 1
    && (s.writer <==> |s.drains| == 1)
    && (s.queue != [] || s.checkpoint ==> s.writer)
  }

  ghost predicate Inv(w: World, s: Journal)
    requires w.Valid()
  {
    Awake(s) && Core(w, s, Current(s))
  }

  /** A journal as a successful `initialize` leaves it. */
  ghost predicate Initial(w: World, s: Journal)
    requires w.Valid()
  {
    && DiskOk(w, s.disk) && s.disk.file.None? && s.disk.fileName.None? && s.disk.log == [] && s.disk.pages == map[]
    && s == Journal([], 0, false, [], false, false, false, 0, 0, 0, 0, 0, s.disk)
  }

  // ------------------------------------------------------------------- lemmas

  lemma {:induction false} BytesAppend(w: World, es: seq<Entry>, e: Entry)
    ensures Bytes(w, es + [e]) == Bytes(w, es) + w.c.Length(e)
  {
    if es == [] {
      assert Bytes(w, [e]) == w.c.Length(e) + Bytes(w, []);
      assert es + [e] == [e];
    } else {
      assert (es + [e])[1..] == es[1..] + [e];
      BytesAppend(w, es[1..], e);
    }
  }

  /** Taking one entry out of an increasing run leaves an increasing run. */
  lemma {:induction false} IncreasingWithout(a: seq<Entry>, e: Entry, b: seq<Entry>)
    requires Increasing(a + [e] + b)
    ensures Increasing(a + b)
  {
    var r, all := a + b, a + [e] + b;
    forall i, j | 0 <= i < j < |r| ensures r[i].sequence < r[j].sequence {
      var i', j' := if i < |a| then i else i + 1, if j < |a| then j else j + 1;
      assert r[i] == all[i'] && r[j] == all[j'];
    }
  }

  /** Shifting the head off the queue moves it from the queued to the held entries. */
  lemma {:induction false} ShiftAccounted(w: World, s: Journal, t: Task)
    requires Accounted(w, s, Returned) && s.queue != []
    requires Flying(t) == [s.queue[0]] && Held(w, t) == w.c.Length(s.queue[0])
    ensures Accounted(w, s.(queue := s.queue[1..]), t)
  {
    assert s.queue == [s.queue[0]] + s.queue[1..];
    assert s.disk.log + [] + s.queue == s.disk.log + [s.queue[0]] + s.queue[1..];
  }

  lemma {:induction false} FailAccounted(w: World, s: Journal, t: Task, e: Entry, now: int)
    requires Accounted(w, s, t) && Flying(t) == [e]
    ensures Accounted(w, Fail(s, e, now).0, Failing(e))
  {
    IncreasingWithout(s.disk.log, e, s.queue);
    assert s.disk.log + [] + s.queue == s.disk.log + s.queue;
    assert forall x | x in s.disk.log + s.queue :: x in s.disk.log + [e] + s.queue;
  }

  lemma {:induction false} LoopHeadCore(w: World, s: Journal, now: int)
    requires w.Valid() && Core(w, s, Returned)
    ensures var (s', t) := LoopHead(w, s, now);
      && Core(w, s', t) && s'.drains == s.drains && s'.writer == s.writer
      && (t == Returned ==> s'.queue == [] && !s'.checkpoint)
  {
    if s.queue != [] {
      var e := s.queue[0];
      ShiftAccounted(w, s, Retiring(e));
      if !w.Fits(e) {
        FailAccounted(w, s.(queue := s.queue[1..]), Retiring(e), e, now);
      } else if s.disk.file.None? || s.disk.fileBytes + |w.c.Frame(e)| > w.o.segmentBytes {
      } else {
        ShiftAccounted(w, s, Writing(e, 0));
        BeginFrame(w, s.disk, e);
      }
    }
  }

  lemma {:induction false} FailCore(w: World, s: Journal, t: Task, e: Entry, now: int)
    requires w.Valid() && Accounted(w, s, t) && DiskOk(w, s.disk) && Flying(t) == [e]
    ensures Core(w, Fail(s, e, now).0, Failing(e))
  {
    FailAccounted(w, s, t, e, now);
  }

  /** Accounting only reads the log from the disk. */
  lemma {:induction false} AccountedDisk(w: World, s: Journal, t: Task, d: Disk)
    requires Accounted(w, s, t) && d.log == s.disk.log
    ensures Accounted(w, s.(disk := d), t)
    ensures Accounted(w, IoError(s.(disk := d)), t)
  {}

  /** The entry whose last byte was written moves from the held entries to the log. */
  lemma {:induction false} WrittenAccounted(w: World, s: Journal, t: Task, e: Entry, d: Disk)
    requires Accounted(w, s, t) && Flying(t) == [e] && Held(w, t) == w.c.Length(e)
    requires d.log == s.disk.log + [e]
    ensures Accounted(w, Finished(w, s.(disk := d, written := s.written + 1), e), Returned)
  {
    assert d.log + [] + s.queue == s.disk.log + [e] + s.queue;
  }

  lemma {:induction false} SameEntryAccounted(w: World, s: Journal, e: Entry, a: nat, b: nat)
    requires Accounted(w, s, Writing(e, a))
    ensures Accounted(w, s, Writing(e, b))
  {}

  lemma {:induction false} WriteCore(w: World, s: Journal, e: Entry, offset: nat, io: Io)
    requires w.Valid() && Core(w, s, Writing(e, offset))
    requires 0 < io.n && offset + io.n <= |w.c.Frame(e)|
    ensures var s' := s.(disk := Chunk(w.c, s.disk, e, offset, io.n));
      && (offset + io.n < |w.c.Frame(e)| ==> Core(w, s', Writing(e, offset + io.n)))
      && (offset + io.n == |w.c.Frame(e)| ==> Core(w, Finished(w, s'.(written := s.written + 1), e), Returned))
  {
    hide Chunk, DiskOk, Accounted;
    ChunkKeepsDisk(w, s.disk, e, offset, io.n);
    ChunkProgress(w, s.disk, e, offset, io.n);
    var d' := Chunk(w.c, s.disk, e, offset, io.n);
    if offset + io.n < |w.c.Frame(e)| {
      AccountedDisk(w, s, Writing(e, offset), d');
      SameEntryAccounted(w, s.(disk := d'), e, offset, offset + io.n);
    } else {
      WrittenAccounted(w, s, Writing(e, offset), e, d');
    }
  }

  lemma {:induction false} SweepCore(w: World, s: Journal, t: Task, required: nat, clock: Clock, n: nat)
    requires w.Valid() && Core(w, s, t) && !t.Writing?
    ensures Core(w, s.(disk := Sweep(w.o, s.disk, required, clock, n)), t)
    ensures Core(w, s.(disk := SweepAll(w.o, s.disk, required, clock)), t)
  {
    SweepKeepsDisk(w, s.disk, required, clock, n);
    AccountedDisk(w, s, t, Sweep(w.o, s.disk, required, clock, n));
    SweepAllIsSweep(w, s.disk, required, clock);
    SweepKeepsDisk(w, s.disk, required, clock, |Sweeps(w.o, s.disk, required, clock)|);
    AccountedDisk(w, s, t, SweepAll(w.o, s.disk, required, clock));
  }

  lemma {:induction false} OpeningCore(w: World, s: Journal, e: Entry, io: Io)
    requires w.Valid() && Core(w, s, Opening(e))
    ensures var (s', t) := Advance(w, s, Opening(e), io); Core(w, s', t)
  {
    var t := Opening(e);
    SweepCore(w, s, t, w.o.segmentBytes, io.clock, io.n);
    var swept := SweepAll(w.o, s.disk, w.o.segmentBytes, io.clock);
    if io.ok {
      OpenKeepsDisk(w, s.disk, io.clock, io.now, io.ties);
      var d' := Opened(NameNext(swept, io.now), io.ties);
      FrameLength(w.c, e);
      BeginFrame(w, d', e);
      AccountedDisk(w, s, t, d');
      assert Accounted(w, s.(disk := d'), Writing(e, 0));
    } else if io.named {
      var d' := NameNext(swept, io.now);
      assert forall x | x in d'.dir :: SegmentOk(w, swept, x) ==> SegmentOk(w, d', x);
      AccountedDisk(w, s, t, d');
      FailCore(w, s.(disk := d'), t, e, io.now);
    } else {
      FailCore(w, s.(disk := Sweep(w.o, s.disk, w.o.segmentBytes, io.clock, io.n)), t, e, io.now);
    }
  }

  /** What one resumption must leave behind. */
  ghost predicate Resumed(w: World, s: Journal, r: (Journal, Task))
    requires w.Valid()
  {
    && Core(w, r.0, r.1) && r.0.drains == s.drains && r.0.writer == s.writer
    && (r.1 == Returned ==> r.0.queue == [] && !r.0.checkpoint)
  }

  lemma {:induction false} SweepingCore(w: World, s: Journal, io: Io)
    requires w.Valid() && Core(w, s, Sweeping)
    ensures Resumed(w, s, Advance(w, s, Sweeping, io))
  {
    hide LoopHead, Sweep, SweepAll;
    SweepCore(w, s, Sweeping, 0, io.clock, io.n);
    if io.ok {
      LoopHeadCore(w, s.(disk := SweepAll(w.o, s.disk, 0, io.clock)), io.now);
    } else {
      LoopHeadCore(w, IoError(s.(disk := Sweep(w.o, s.disk, 0, io.clock, io.n))), io.now);
    }
  }

  lemma {:induction false} CheckpointCore(w: World, s: Journal, t: Task, io: Io)
    requires w.Valid() && Core(w, s, t) && (t == Syncing || t == Aging || t == Sweeping)
    ensures Resumed(w, s, Advance(w, s, t, io))
  {
    hide LoopHead, Sweep, SweepAll;
    match t {
      case Syncing =>
        if !io.ok && s.disk.file.Some? { LoopHeadCore(w, IoError(s), io.now); }
      case Aging =>
        if !io.ok { LoopHeadCore(w, IoError(s), io.now); }
      case Sweeping => SweepingCore(w, s, io);
    }
  }

  lemma {:induction false} WritingCore(w: World, s: Journal, e: Entry, offset: nat, io: Io)
    requires w.Valid() && Core(w, s, Writing(e, offset))
    ensures Resumed(w, s, Advance(w, s, Writing(e, offset), io))
  {
    hide Accounted, DiskOk, LoopHead, Chunk;
    if !io.ok || io.n == 0 || offset + io.n > |w.c.Frame(e)| {
      FailCore(w, s, Writing(e, offset), e, io.now);
    } else {
      WriteCore(w, s, e, offset, io);
      assert offset + io.n <= |w.c.Frame(e)|;
      if offset + io.n == |w.c.Frame(e)| {
        var s' := s.(disk := Chunk(w.c, s.disk, e, offset, io.n));
        LoopHeadCore(w, Finished(w, s'.(written := s.written + 1), e), io.now);
      }
    }
  }

  lemma {:induction false} FailingCore(w: World, s: Journal, e: Entry, io: Io)
    requires w.Valid() && Core(w, s, Failing(e))
    ensures Resumed(w, s, Advance(w, s, Failing(e), io))
  {
    var s' := Finished(w, s.(disk := Abandon(s.disk)), e);
    assert Accounted(w, s', Returned);
    LoopHeadCore(w, s', io.now);
  }

  lemma {:induction false} AdvanceCore(w: World, s: Journal, t: Task, io: Io)
    requires w.Valid() && Core(w, s, t) && t != Returned
    ensures Resumed(w, s, Advance(w, s, t, io))
  {
    hide LoopHead, Chunk, Sweep, SweepAll;
    match t {
      case Retiring(e) =>
        if !io.ok && s.disk.file.Some? { FailCore(w, s, t, e, io.now); }
        else { AccountedDisk(w, s, t, Retire(s.disk)); }
      case Opening(e) => OpeningCore(w, s, e, io);
      case Writing(e, offset) => WritingCore(w, s, e, offset, io);
      case Failing(e) => FailingCore(w, s, e, io);
      case _ => CheckpointCore(w, s, t, io);
    }
  }

  lemma {:induction false} StartWriterInv(w: World, s: Journal, now: int)
    requires w.Valid() && |s.drains| <= 1 && (s.writer <==> |s.drains| == 1) && Core(w, s, Current(s))
    requires s.writer || s.queue != [] || s.checkpoint
    ensures Inv(w, StartWriter(w, s, now))
  {
    if !s.writer { LoopHeadCore(w, s, now); }
  }

  /** Queueing one rendered entry within the limit keeps the accounts. */
  lemma {:induction false} PushCore(w: World, s: Journal, e: Entry)
    requires w.Valid() && Inv(w, s) && !s.closed && e.sequence == s.sequence + 1
    requires s.queuedBytes + w.c.Length(e) <= w.o.queueLimit
    ensures Core(w, s.(sequence := s.sequence + 1, queue := s.queue + [e], queuedBytes := s.queuedBytes + w.c.Length(e)), Current(s))
  {
    BytesAppend(w, s.queue, e);
    var known := s.disk.log + Flying(Current(s)) + s.queue;
    assert s.disk.log + Flying(Current(s)) + (s.queue + [e]) == known + [e];
    assert forall i | 0 <= i < |known| :: known[i] in known;
  }

  lemma {:induction false} RefuseInv(w: World, s: Journal)
    requires w.Valid() && Inv(w, s) && !s.closed
    ensures Inv(w, s.(sequence := s.sequence + 1, dropped := s.dropped + 1))
  {}

  lemma {:induction false} AdmitInv(w: World, s: Journal, body: bytes, payload: nat, now: int)
    requires w.Valid() && Inv(w, s)
    ensures Inv(w, Admit(w, s, body, payload, now))
  {
    hide StartWriter, Core;
    if !s.closed {
      var e := Entry(s.sequence + 1, body);
      if Refused(w, s, e, payload, now) {
        RefuseInv(w, s);
      } else {
        PushCore(w, s, e);
        StartWriterInv(w, s.(sequence := s.sequence + 1, queue := s.queue + [e],
                             queuedBytes := s.queuedBytes + w.c.Length(e)), now);
      }
    }
  }

  lemma {:induction false} ReturnedStays(w: World, s: Journal, io: Io)
    ensures Advance(w, s, Returned, io) == (s, Returned)
  {}

  lemma {:induction false} ReleaseCore(w: World, s: Journal, t: Task)
    requires w.Valid() && Core(w, s, t) && s.drained
    ensures Core(w, s.(disk := Abandon(s.disk)), t)
  {
    AccountedDisk(w, s, t, Abandon(s.disk));
  }

  /** Every step keeps the whole invariant. */
  lemma {:induction false} ResumeInv(w: World, s: Journal, i: nat, io: Io)
    requires w.Valid() && Inv(w, s) && i < |s.drains|
    ensures Inv(w, Step(w, s, Resume(i, io)))
  {
    hide StartWriter, Admit, Advance, DiskOk, Suspended;
    if s.drains[i] == Returned { ReturnedStays(w, s, io); } else { AdvanceCore(w, s, s.drains[i], io); }
  }

  lemma {:induction false} SettleInv(w: World, s: Journal, i: nat, now: int)
    requires w.Valid() && Inv(w, s)
    ensures Inv(w, Step(w, s, Settle(i, now)))
  {
    hide StartWriter, Admit, Advance, DiskOk, Suspended;
    if i < |s.drains| && s.drains[i] == Returned {
      var s' := s.(writer := false, drains := s.drains[..i] + s.drains[i + 1..]);
      if s'.queue != [] || s'.checkpoint { StartWriterInv(w, s', now); }
    }
  }

  lemma {:induction false} StepInv(w: World, s: Journal, ev: Event)
    requires w.Valid() && Inv(w, s)
    ensures Inv(w, Step(w, s, ev))
  {
    hide StartWriter, Admit, Advance, DiskOk, Suspended;
    match ev {
      case Record(body, payload, now) => AdmitInv(w, s, body, payload, now);
      case Flush(now) => StartWriterInv(w, s.(checkpoint := true), now);
      case Close(now) => StartWriterInv(w, s.(closed := true, checkpoint := true), now);
      case CloseDone =>
      case Release =>
        if s.drained { ReleaseCore(w, s, Current(s)); }
      case Resume(i, io) => if i < |s.drains| { ResumeInv(w, s, i, io); }
      case Settle(i, now) => SettleInv(w, s, i, now);
    }
  }

  lemma {:induction false} InitialInv(w: World, s: Journal)
    requires w.Valid() && Initial(w, s)
    ensures Inv(w, s)
  {
    assert s.disk.log + [] + s.queue == [];
  }

  lemma {:induction false} RunInv(w: World, s: Journal, evs: seq<Event>)
    requires w.Valid() && Initial(w, s)
    ensures Inv(w, Run(w, s, evs))
    decreases |evs|
  {
    if evs == [] {
      InitialInv(w, s);
    } else {
      hide Inv, Initial, Step;
      RunInv(w, s, evs[..|evs| - 1]);
      StepInv(w, Run(w, s, evs[..|evs| - 1]), evs[|evs| - 1]);
    }
  }
}
