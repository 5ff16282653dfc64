/**
 * The journal object. Each method is one stretch of code between two awaits and
 * is proved to make exactly the transition of `RawJournal` that it stands for.
 */
module RawHistoryModule {
  import opened Basics
  import opened RawFrames
  import opened RawDisk
  import opened RawJournal
  import RawAdmission

  lemma {:induction false} WithoutTwice(dir: seq<Segment>, names: seq<nat>, name: nat)
    ensures Without(Without(dir, names), [name]) == Without(dir, names + [name])
  {
    if dir != [] { WithoutTwice(dir[1..], names, name); }
  }

  lemma {:induction false} WithoutNone(dir: seq<Segment>)
    ensures Without(dir, []) == dir
  {
    if dir != [] { WithoutNone(dir[1..]); }
  }

  /** The plan for the segments from `i` on, one iteration of the eviction loop unfolded. */
  lemma {:induction false} DoomedFrom(o: Limits, entries: seq<Segment>, i: nat, total: int, required: nat, keep: Option<nat>, clock: Clock)
    requires i <= |entries|
    ensures Doomed(o, entries[i..], total, required, keep, clock, i) ==
      if i == |entries| then []
      else if clock(i) - entries[i].time <= o.maximumAgeMs && total + required <= o.maximumBytes then []
      else if keep == Some(entries[i].name) then Doomed(o, entries[i + 1..], total, required, keep, clock, i + 1)
      else [entries[i].name] + Doomed(o, entries[i + 1..], total - |entries[i].data|, required, keep, clock, i + 1)
  {
    if i < |entries| { assert entries[i..][1..] == entries[i + 1..]; }
  }

  class RawHistory {
    const world: World
    var queue: seq<Entry>
    var queuedBytes: int
    var writer: bool
    var drains: seq<Task>
    var checkpoint: bool
    var closed: bool
    var drained: bool
    var sequence: nat
    var written: nat
    var dropped: nat
    var ioErrors: nat
    var retryAt: int
    // The directory and the open segment.
    var dir: seq<Segment>
    var nextName: nat
    var file: Option<nat>
    var fileName: Option<nat>
    var fileBytes: nat
    var fileTime: int
    // History of what was written where.
    ghost var pages: map<nat, Page>
    ghost var log: seq<Entry>

    ghost function Storage(): Disk
      reads this
    {
      Disk(dir, nextName, file, fileName, fileBytes, fileTime, pages, log)
    }

    ghost function View(): Journal
      reads this
    {
      Journal(queue, queuedBytes, writer, drains, checkpoint, closed, drained,
              sequence, written, dropped, ioErrors, retryAt, Storage())
    }

    /** Accounts, the one live writer, byte budgets and whole frames on disk, as `RawJournal.Inv` states them. */
    ghost predicate Valid()
      reads this
    {
      world.Valid() && Inv(world, View())
    }

    /** A journal over the segments that the first maintenance pass left. */
    constructor (world: World, kept: seq<Segment>)
      requires world.Valid() && Distinct(kept) && Total(kept) <= world.o.maximumBytes
      requires forall s | s in kept :: s.name < world.first
      ensures Valid() && this.world == world && dir == kept && Initial(world, View())
    {
      this.world := world;
      queue, queuedBytes, writer, drains := [], 0, false, [];
      checkpoint, closed, drained := false, false, false;
      sequence, written, dropped, ioErrors, retryAt := 0, 0, 0, 0, 0;
      dir, nextName, file, fileName, fileBytes, fileTime := kept, world.first, None, None, 0, 0;
      pages, log := map[], [];
      new;
      InitialInv(world, View());
    }

    /** Admission: never awaits, and counts what it refuses. It takes what is wanted once the pause is over. */
    method Record(body: bytes, payload: nat, now: int)
      requires Valid()
      modifies this
      ensures Valid() && View() == Admit(world, old(View()), body, payload, now)
      ensures old(closed) ==> View() == old(View())
      ensures var s := old(View()); var e := Entry(s.sequence + 1, body);
        !s.closed ==>
          if s.retryAt <= now && RawAdmission.Wanted(world, s, e, payload)
          then RawAdmission.Takes(s, View(), e, |world.c.render(e).value|) else RawAdmission.Drops(s, View())
    {
      hide StartWriter, Inv, RawAdmission.Takes, RawAdmission.Drops;
      if !closed { RawAdmission.RecordFate(world, View(), body, payload, now); }
      StepInv(world, View(), Event.Record(body, payload, now));
      if closed { return; }
      var refused := Refuses(Entry(sequence + 1, body), payload, now);
      sequence := sequence + 1;
      if refused { dropped := dropped + 1; return; }
      Enqueue(Entry(sequence, body), now);
    }

    method Enqueue(e: Entry, now: int)
      requires world.c.Renders(e)
      modifies this
      ensures var s := old(View());
        View() == StartWriter(world, s.(queue := s.queue + [e], queuedBytes := s.queuedBytes + world.c.Length(e)), now)
    {
      hide StartWriter;
      queue := queue + [e];
      queuedBytes := queuedBytes + world.c.Length(e);
      Start(now);
    }

    method Refuses(e: Entry, payload: nat, now: int) returns (refused: bool)
      ensures refused == Refused(world, View(), e, payload, now)
    {
      if now < retryAt { return true; }
      if payload > MAX_PAYLOAD || 10 * (queuedBytes + 1024) + 14 * payload > 10 * world.o.queueLimit { return true; }
      var record := world.c.render(e);
      if record.None? { return true; }
      return |record.value| > world.o.queueLimit || queuedBytes + |record.value| > world.o.queueLimit;
    }

    method Flush(now: int)
      requires Valid()
      modifies this
      ensures Valid() && View() == Step(world, old(View()), Event.Flush(now))
    {
      hide StartWriter, Inv;
      StepInv(world, View(), Event.Flush(now));
      checkpoint := true;
      Start(now);
    }

    /** The part of `close` before its first await. */
    method Close(now: int)
      requires Valid()
      modifies this
      ensures Valid() && View() == Step(world, old(View()), Event.Close(now))
    {
      hide StartWriter, Inv;
      StepInv(world, View(), Event.Close(now));
      closed := true;
      checkpoint := true;
      Start(now);
    }

    /** `close` finding no writer left to await, and then releasing the last segment. */
    method FinishClose()
      requires Valid()
      modifies this
      ensures Valid() && View() == Step(world, old(View()), CloseDone)
    {
      hide Inv;
      StepInv(world, View(), CloseDone);
      if closed && !writer { drained := true; }
    }

    method ReleaseFile()
      requires Valid()
      modifies this
      ensures Valid() && View() == Step(world, old(View()), Release)
    {
      hide Inv;
      StepInv(world, View(), Release);
      if drained { file := None; }
    }

    method Start(now: int)
      modifies this
      ensures View() == StartWriter(world, old(View()), now)
    {
      if writer { return; }
      var t := NextTask(now);
      drains := drains + [t];
      writer := true;
    }

    /** The `finally` callback: clear the writer, then restart it if work arrived meanwhile. */
    method Settled(i: nat, now: int)
      requires Valid()
      modifies this
      ensures Valid() && View() == Step(world, old(View()), Settle(i, now))
    {
      hide StartWriter, Inv;
      StepInv(world, View(), Settle(i, now));
      if i >= |drains| || drains[i] != Returned { return; }
      drains := drains[..i] + drains[i + 1..];
      writer := false;
      if |queue| > 0 || checkpoint { Start(now); }
    }

    /** The loop test of `drain`, and the code up to its next await. */
    method NextTask(now: int) returns (t: Task)
      modifies this
      ensures (View(), t) == LoopHead(world, old(View()), now)
    {
      if |queue| == 0 {
        if !checkpoint { return Returned; }
        checkpoint := false;
        return Syncing;
      }
      var record := queue[0];
      queue := queue[1..];
      if !world.Fits(record) {
        t := Caught(record, now);
      } else if file == None || fileBytes + |world.c.Frame(record)| > world.o.segmentBytes {
        t := Retiring(record);
      } else {
        t := Writing(record, 0);
      }
    }

    method Caught(e: Entry, now: int) returns (t: Task)
      modifies this
      ensures (View(), t) == Fail(old(View()), e, now)
    {
      ioErrors := ioErrors + 1;
      dropped := dropped + 1;
      retryAt := now + RETRY_MS;
      t := Failing(e);
    }

    /** Oldest-first eviction; a refused unlink, after `n` that worked, ends the pass. */
    method Maintain(required: nat, io: Io)
      modifies this`dir
      ensures Storage() ==
        if io.ok then SweepAll(world.o, old(Storage()), required, io.clock)
        else Sweep(world.o, old(Storage()), required, io.clock, io.n)
    {
      ghost var gone := Evict(required, io);
      ghost var plan := Sweeps(world.o, old(Storage()), required, io.clock);
      if io.ok { assert plan[..|plan|] == plan; }
    }

    /** The unlinking loop. It returns, for the proof, the names it removed. */
    method Evict(required: nat, io: Io) returns (ghost gone: seq<nat>)
      modifies this`dir
      ensures dir == Without(old(dir), gone)
      ensures var plan := Sweeps(world.o, old(Storage()), required, io.clock);
        gone == if io.ok then plan else plan[..Min(io.n, |plan|)]
    {
      hide Doomed, Without, Total;
      var entries := dir;
      ghost var plan := Sweeps(world.o, Storage(), required, io.clock);
      ghost var left := plan;
      gone := [];
      var total: int := Total(entries);
      var i, unlinked := 0, 0;
      WithoutNone(dir);
      assert entries[0..] == entries;
      while i < |entries|
        invariant 0 <= i <= |entries| && unlinked == |gone|
        invariant left == Doomed(world.o, entries[i..], total, required, fileName, io.clock, i)
        invariant plan == gone + left
        invariant dir == Without(entries, gone)
        invariant !io.ok ==> unlinked <= io.n
      {
        var entry := entries[i];
        DoomedFrom(world.o, entries, i, total, required, fileName, io.clock);
        if io.clock(i) - entry.time <= world.o.maximumAgeMs && total + required <= world.o.maximumBytes {
          assert plan == gone;
          assert plan[..|plan|] == plan;
          return;
        }
        if fileName != Some(entry.name) {
          if !io.ok && unlinked == io.n {
            assert plan[..io.n] == gone;
            return;
          }
          WithoutTwice(entries, gone, entry.name);
          dir := Without(dir, [entry.name]);
          total := total - |entry.data|;
          unlinked := unlinked + 1;
          left := Doomed(world.o, entries[i + 1..], total, required, fileName, io.clock, i + 1);
          gone := gone + [entry.name];
        }
        i := i + 1;
      }
      DoomedFrom(world.o, entries, i, total, required, fileName, io.clock);
      assert plan == gone;
      assert plan[..|plan|] == plan;
    }

    method NameSegment(now: int)
      modifies this`fileTime, this`fileName, this`nextName
      ensures Storage() == NameNext(old(Storage()), now)
    {
      fileTime := now;
      fileName := Some(nextName);
      nextName := nextName + 1;
    }

    method CreateSegment(ties: nat)
      requires fileName.Some?
      modifies this`file, this`fileBytes, this`dir, this`pages
      ensures Storage() == Opened(old(Storage()), ties)
    {
      file := fileName;
      fileBytes := 0;
      dir := Insert(dir, Segment(fileName.value, fileTime, []), ties);
      pages := pages[fileName.value := Page([], None)];
    }

    method Write(e: Entry, offset: nat, n: nat)
      requires offset + n <= |world.c.Frame(e)|
      modifies this`dir, this`fileBytes, this`pages, this`log
      ensures Storage() == Chunk(world.c, old(Storage()), e, offset, n)
    {
      var frame := world.c.Frame(e);
      if file.None? { return; }
      var name := file.value;
      ghost var page := PageOf(pages, name);
      dir := Append(dir, name, frame[offset..offset + n]);
      if offset + n < |frame| {
        pages := pages[name := page.(cut := Some(e))];
      } else {
        pages := pages[name := Page(page.whole + [e], None)];
        fileBytes := fileBytes + |frame|;
        log := log + [e];
      }
    }

    /** One resumption of a suspended drain. */
    method Resumed(i: nat, io: Io)
      requires Valid()
      modifies this
      ensures Valid() && View() == Step(world, old(View()), Resume(i, io))
    {
      hide Inv;
      StepInv(world, View(), Resume(i, io));
      if i >= |drains| { return; }
      var before := drains;
      var t := Continue(drains[i], io);
      drains := before[..i] + [t] + before[i + 1..];
    }

    method Continue(from: Task, io: Io) returns (t: Task)
      modifies this
      ensures (View(), t) == Advance(world, old(View()), from, io)
    {
      hide LoopHead, Sweep, SweepAll, Chunk;
      t := Returned;
      match from {
        case Retiring(e) =>
          if !io.ok && file.Some? {
            t := Caught(e, io.now);
          } else {
            file, fileName := None, None;
            t := Opening(e);
          }
        case Opening(e) =>
          t := ContinueOpening(e, io);
        case Writing(e, offset) =>
          t := ContinueWriting(e, offset, io);
        case Failing(e) =>
          file := None;
          queuedBytes := queuedBytes - world.c.Length(e);
          t := NextTask(io.now);
        case Returned =>
        case _ => t := ContinueCheckpoint(from, io);
      }
    }

    method ContinueCheckpoint(from: Task, io: Io) returns (t: Task)
      requires from == Syncing || from == Aging || from == Sweeping
      modifies this
      ensures (View(), t) == Advance(world, old(View()), from, io)
    {
      hide LoopHead, Sweep, SweepAll;
      if from == Syncing && (io.ok || file.None?) {
        t := if file.Some? && io.now - fileTime > world.o.maximumAgeMs then Aging else Sweeping;
      } else if from == Aging && io.ok {
        file, fileName := None, None;
        t := Sweeping;
      } else {
        if from == Sweeping { Maintain(0, io); }
        t := CheckpointEnded(io);
      }
    }

    /** The checkpoint is over; an error in it is counted and the drain goes on. */
    method CheckpointEnded(io: Io) returns (t: Task)
      modifies this
      ensures var s := old(View()); (View(), t) == LoopHead(world, if io.ok then s else IoError(s), io.now)
    {
      hide LoopHead;
      if !io.ok { ioErrors := ioErrors + 1; }
      t := NextTask(io.now);
    }

    method ContinueWriting(e: Entry, offset: nat, io: Io) returns (t: Task)
      modifies this
      ensures (View(), t) == Advance(world, old(View()), Writing(e, offset), io)
    {
      hide LoopHead, Chunk;
      if !io.ok || io.n == 0 || offset + io.n > |world.c.Frame(e)| {
        t := Caught(e, io.now);
        return;
      }
      Write(e, offset, io.n);
      ghost var s1 := old(View()).(disk := Chunk(world.c, old(Storage()), e, offset, io.n));
      assert View() == s1;
      if offset + io.n < |world.c.Frame(e)| { return Writing(e, offset + io.n); }
      t := Wrote(e, io.now);
    }

    method Wrote(e: Entry, now: int) returns (t: Task)
      modifies this
      ensures var s := old(View());
        (View(), t) == LoopHead(world, Finished(world, s.(written := s.written + 1), e), now)
    {
      written := written + 1;
      queuedBytes := queuedBytes - world.c.Length(e);
      t := NextTask(now);
    }

    method ContinueOpening(e: Entry, io: Io) returns (t: Task)
      modifies this
      ensures (View(), t) == Advance(world, old(View()), Opening(e), io)
    {
      hide Sweep, SweepAll, Opened, NameNext, Fail;
      if io.ok || io.named { t := NextSegment(e, io); } else { t := SweepFailed(e, io); }
    }

    /** The pass before the next segment ended with an error. */
    method SweepFailed(e: Entry, io: Io) returns (t: Task)
      requires !io.ok
      modifies this
      ensures var s := old(View());
        (View(), t) == Fail(s.(disk := Sweep(world.o, s.disk, world.o.segmentBytes, io.clock, io.n)), e, io.now)
    {
      hide Sweep, SweepAll;
      Maintain(world.o.segmentBytes, io);
      t := Caught(e, io.now);
    }

    /** The pass made room: the next segment is named, and opened unless that fails. */
    method NextSegment(e: Entry, io: Io) returns (t: Task)
      modifies this
      ensures var s := old(View());
        var named := NameNext(SweepAll(world.o, s.disk, world.o.segmentBytes, io.clock), io.now);
        (View(), t) == if io.ok then (s.(disk := Opened(named, io.ties)), Writing(e, 0)) else Fail(s.(disk := named), e, io.now)
    {
      hide SweepAll, Opened, NameNext, Fail;
      SweepAndName(io);
      if io.ok {
        CreateSegment(io.ties);
        t := Writing(e, 0);
      } else {
        t := Caught(e, io.now);
      }
    }

    /** A complete maintenance pass for one whole segment, then the next segment's name. */
    method SweepAndName(io: Io)
      modifies this`dir, this`fileTime, this`fileName, this`nextName
      ensures Storage() == NameNext(SweepAll(world.o, old(Storage()), world.o.segmentBytes, io.clock), io.now)
      ensures fileName.Some?
    {
      Maintain(world.o.segmentBytes, io.(ok := true));
      NameSegment(io.now);
    }
  }
}
