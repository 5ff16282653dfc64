/**
 * What becomes of a record: when admission takes it, what a failure costs, and how long
 * the pause after a failure lasts. Nothing here refers to the checks themselves.
 */
module RawAdmission {
  import opened Basics
  import opened RawFrames
  import opened RawDisk
  import opened RawJournal

  // ------------------------------------------------------------------ the pause

  /** A record was given up for an error of its write: both counters of the status rise. */
  predicate LosesRecord(s: Journal, s': Journal) { s'.ioErrors > s.ioErrors && s'.dropped > s.dropped }

  /** The time reading of a step. */
  function TimeOf(ev: Event): int {
    match ev
    case Record(_, _, now) => now
    case Flush(now) => now
    case Close(now) => now
    case Resume(_, io) => io.now
    case Settle(_, now) => now
    case _ => 0
  }

  ghost predicate FailsAt(w: World, s0: Journal, evs: seq<Event>, k: nat)
    requires k < |evs|
  {
    LosesRecord(Run(w, s0, evs[..k]), Run(w, s0, evs[..k + 1]))
  }

  /** The last failure of the run is five seconds before `end`, and without one the pause ended at time 0. */
  ghost predicate PauseEnds(w: World, s0: Journal, evs: seq<Event>, end: int) {
    || (end == 0 && forall k | 0 <= k < |evs| :: !FailsAt(w, s0, evs, k))
    || (exists k :: 0 <= k < |evs| && FailsAt(w, s0, evs, k) && end == TimeOf(evs[k]) + 5000
                    && forall j | k < j < |evs| :: !FailsAt(w, s0, evs, j))
  }

  /** One step either loses a record and starts a pause of five seconds, or leaves the pause as it was. */
  ghost predicate PauseStep(s: Journal, s': Journal, now: int) {
    && s'.ioErrors >= s.ioErrors && s'.dropped >= s.dropped
    && s'.retryAt == if LosesRecord(s, s') then now + 5000 else s.retryAt
  }

  /** The loop test and the failure handler drop nothing without an error. */
  ghost predicate DropsByError(s: Journal, s': Journal, now: int) {
    PauseStep(s, s', now) && (s'.dropped > s.dropped ==> s'.ioErrors > s.ioErrors)
  }

  lemma {:induction false} LoopHeadPause(w: World, s: Journal, now: int)
    ensures DropsByError(s, LoopHead(w, s, now).0, now)
  {}

  lemma {:induction false} StartWriterPause(w: World, s: Journal, now: int)
    ensures DropsByError(s, StartWriter(w, s, now), now)
  {
    hide LoopHead;
    LoopHeadPause(w, s, now);
  }

  lemma {:induction false} AdvancePause(w: World, s: Journal, t: Task, io: Io)
    ensures DropsByError(s, Advance(w, s, t, io).0, io.now)
  {
    hide LoopHead, Sweep, SweepAll, Opened, NameNext, Chunk, Retire, Abandon;
    forall s2: Journal ensures DropsByError(s2, LoopHead(w, s2, io.now).0, io.now) { LoopHeadPause(w, s2, io.now); }
  }

  lemma {:induction false} StepPause(w: World, s: Journal, ev: Event)
    ensures PauseStep(s, Step(w, s, ev), TimeOf(ev))
  {
    hide StartWriter, Advance, Refused;
    match ev {
      case Record(body, payload, now) =>
        var e := Entry(s.sequence + 1, body);
        StartWriterPause(w, s.(sequence := s.sequence + 1, queue := s.queue + [e], queuedBytes := s.queuedBytes + w.c.Length(e)), now);
      case Flush(now) => StartWriterPause(w, s.(checkpoint := true), now);
      case Close(now) => StartWriterPause(w, s.(closed := true, checkpoint := true), now);
      case Resume(i, io) => if i < |s.drains| { AdvancePause(w, s, s.drains[i], io); }
      case Settle(i, now) =>
        if i < |s.drains| { StartWriterPause(w, s.(writer := false, drains := s.drains[..i] + s.drains[i + 1..]), now); }
      case _ =>
    }
  }

  lemma {:induction false} LastStep(w: World, s0: Journal, evs: seq<Event>)
    requires evs != []
    ensures Run(w, s0, evs) == Step(w, Run(w, s0, evs[..|evs| - 1]), evs[|evs| - 1])
    ensures FailsAt(w, s0, evs, |evs| - 1) <==> LosesRecord(Run(w, s0, evs[..|evs| - 1]), Run(w, s0, evs))
    ensures forall k | 0 <= k < |evs| - 1 :: FailsAt(w, s0, evs, k) <==> FailsAt(w, s0, evs[..|evs| - 1], k)
  {
    var n := |evs| - 1;
    assert evs[..n + 1] == evs;
    forall k | 0 <= k < n ensures FailsAt(w, s0, evs, k) <==> FailsAt(w, s0, evs[..n], k) {
      assert evs[..n][..k] == evs[..k] && evs[..n][..k + 1] == evs[..k + 1];
    }
  }

  /** Over every run the pause is where the last failure put it, five seconds after its time. */
  lemma {:induction false} PauseOfRun(w: World, s0: Journal, evs: seq<Event>)
    requires w.Valid() && Initial(w, s0)
    ensures PauseEnds(w, s0, evs, Run(w, s0, evs).retryAt)
    decreases |evs|
  {
    hide Step, Inv, FailsAt, LosesRecord, Initial;
    if evs == [] {
      InitialPause(w, s0);
    } else {
      var n := |evs| - 1;
      PauseOfRun(w, s0, evs[..n]);
      LastStep(w, s0, evs);
      StepPause(w, Run(w, s0, evs[..n]), evs[n]);
      if !FailsAt(w, s0, evs, n) {
        PauseStays(w, s0, evs, Run(w, s0, evs[..n]).retryAt);
      }
    }
  }

  lemma {:induction false} InitialPause(w: World, s0: Journal)
    requires w.Valid() && Initial(w, s0)
    ensures s0.retryAt == 0
  {}

  lemma {:induction false} PauseStays(w: World, s0: Journal, evs: seq<Event>, end: int)
    requires evs != [] && PauseEnds(w, s0, evs[..|evs| - 1], end) && !FailsAt(w, s0, evs, |evs| - 1)
    ensures PauseEnds(w, s0, evs, end)
  {
    hide FailsAt;
    LastStep(w, s0, evs);
    var before := evs[..|evs| - 1];
    if exists k :: 0 <= k < |before| && FailsAt(w, s0, before, k) && end == TimeOf(before[k]) + 5000
                   && forall j | k < j < |before| :: !FailsAt(w, s0, before, j) {
      var k :| 0 <= k < |before| && FailsAt(w, s0, before, k) && end == TimeOf(before[k]) + 5000
               && forall j | k < j < |before| :: !FailsAt(w, s0, before, j);
      assert before[k] == evs[k];
      assert FailsAt(w, s0, evs, k);
    }
  }

  // ------------------------------------------------------------------ admission

  /** What `record` asks of a record outside the pause, in the units of the settings. */
  predicate Wanted(w: World, s: Journal, e: Entry, payload: nat) {
    && w.c.render(e).Some? && payload <= 4194304
    && s.queuedBytes as real + payload as real * 1.4 + 1024.0 <= w.o.queueLimit as real
    && |w.c.render(e).value| <= w.o.queueLimit && s.queuedBytes + |w.c.render(e).value| <= w.o.queueLimit
  }

  /** The record is in the queue, or an idle writer has just taken it. */
  ghost predicate Takes(s: Journal, s': Journal, e: Entry, length: nat) {
    && s'.sequence == s.sequence + 1 && s'.queuedBytes == s.queuedBytes + length && s'.disk.log == s.disk.log
    && (s.writer ==> s' == s.(sequence := s'.sequence, queuedBytes := s'.queuedBytes, queue := s.queue + [e]))
    && (!s.writer ==> s'.queue == [] && s'.writer && |s'.drains| == 1 && s'.drains[0] in {Retiring(e), Writing(e, 0), Failing(e)})
  }

  /** The record is counted as dropped and nothing else happens. */
  predicate Drops(s: Journal, s': Journal) {
    s' == s.(sequence := s.sequence + 1, dropped := s.dropped + 1)
  }

  lemma {:induction false} RecordFate(w: World, s: Journal, body: bytes, payload: nat, now: int)
    requires w.Valid() && Inv(w, s) && !s.closed
    ensures var s' := Step(w, s, Record(body, payload, now)); var e := Entry(s.sequence + 1, body);
      if s.retryAt <= now && Wanted(w, s, e, payload) then Takes(s, s', e, |w.c.render(e).value|) else Drops(s, s')
  {
    hide Core;
  }

  /**
   * Over every run, an open journal takes a record exactly when five seconds have passed
   * since the last failure, the record renders, and its payload, the estimate and its
   * length are within the limits; otherwise it counts the record as dropped.
   */
  lemma {:induction false} TakenIff(w: World, s0: Journal, evs: seq<Event>, body: bytes, payload: nat, now: int, end: int)
    requires w.Valid() && Initial(w, s0) && !Run(w, s0, evs).closed && PauseEnds(w, s0, evs, end)
    ensures var s := Run(w, s0, evs); var s' := Run(w, s0, evs + [Record(body, payload, now)]); var e := Entry(s.sequence + 1, body);
      if end <= now && Wanted(w, s, e, payload) then Takes(s, s', e, |w.c.render(e).value|) else Drops(s, s')
  {
    hide Inv, Initial, Step, Wanted, Takes, Drops, FailsAt;
    RunInv(w, s0, evs);
    RecordFate(w, Run(w, s0, evs), body, payload, now);
    PauseOfRun(w, s0, evs);
    var all := evs + [Record(body, payload, now)];
    assert all[..|evs|] == evs;
  }

  /** After a failure at time `t`, until the next one, every record before `t + 5000` is dropped. */
  lemma {:induction false} PauseDrops(w: World, s0: Journal, evs: seq<Event>, k: nat, body: bytes, payload: nat, now: int)
    requires w.Valid() && Initial(w, s0) && !Run(w, s0, evs).closed
    requires k < |evs| && FailsAt(w, s0, evs, k) && forall j | k < j < |evs| :: !FailsAt(w, s0, evs, j)
    requires now < TimeOf(evs[k]) + 5000
    ensures Drops(Run(w, s0, evs), Run(w, s0, evs + [Record(body, payload, now)]))
  {
    hide Initial, Drops, Takes, Run, FailsAt;
    TakenIff(w, s0, evs, body, payload, now, TimeOf(evs[k]) + 5000);
  }

  /** A closed journal ignores records. */
  lemma {:induction false} ClosedIgnores(w: World, s: Journal, body: bytes, payload: nat, now: int)
    requires s.closed
    ensures Step(w, s, Record(body, payload, now)) == s
  {}

  // ---------------------------------------------------------------- what fails

  /** The awaited call of a drain with a record in its hands reported a failure, or a short write. */
  predicate Faults(w: World, s: Journal, t: Task, io: Io) {
    match t
    case Retiring(_) => !io.ok && s.disk.file.Some?
    case Opening(_) => !io.ok
    case Writing(e, offset) => !io.ok || io.n == 0 || offset + io.n > |w.c.Frame(e)|
    case _ => false
  }

  /** What became of the record in flight: `last` is whether the write took its last byte. */
  ghost predicate Fate(s: Journal, s': Journal, after: Task, e: Entry, faulty: bool, last: bool, now: int) {
    && (faulty ==>
          && after == Failing(e) && s'.ioErrors == s.ioErrors + 1 && s'.dropped == s.dropped + 1
          && s'.retryAt == now + 5000 && s'.queue == s.queue && s'.disk.log == s.disk.log && s'.written == s.written)
    && (!faulty && last ==> s'.disk.log == s.disk.log + [e] && s'.written == s.written + 1)
    && (!faulty && !last ==> Flying(after) == [e] && s'.(disk := s.disk) == s && s'.disk.log == s.disk.log)
  }

  predicate LastByte(w: World, t: Task, io: Io) { t.Writing? && t.offset + io.n == |w.c.Frame(t.e)| }

  lemma {:induction false} WritingFate(w: World, s: Journal, t: Task, io: Io)
    requires t.Writing? && s.disk.file.Some?
    ensures var (s', t') := Advance(w, s, t, io); Fate(s, s', t', t.e, Faults(w, s, t, io), LastByte(w, t, io), io.now)
  {
    hide LoopHead, Append;
    var s1 := s.(disk := Chunk(w.c, s.disk, t.e, t.offset, io.n), written := s.written + 1);
    LoopHeadKeeps(w, Finished(w, s1, t.e), io.now);
  }

  lemma {:induction false} OpeningFate(w: World, s: Journal, t: Task, io: Io)
    requires t.Opening? || t.Retiring?
    ensures var (s', t') := Advance(w, s, t, io); Fate(s, s', t', t.e, Faults(w, s, t, io), false, io.now)
  {
    hide LoopHead, Without, Sweeps, Insert;
  }

  lemma {:induction false} WritesToFile(w: World, s: Journal, t: Task)
    requires w.Valid() && Core(w, s, t) && t.Writing?
    ensures s.disk.file.Some?
  {
    hide DiskOk, Accounted;
  }

  /**
   * The fate of the record in flight at each resumption: an error drops it, counts both
   * ways and starts the pause; the last byte puts it in the log; otherwise it stays in flight.
   */
  lemma {:induction false} FlightFate(w: World, s: Journal, i: nat, io: Io)
    requires w.Valid() && Inv(w, s) && i < |s.drains| && Flying(s.drains[i]) != []
    ensures var s' := Step(w, s, Resume(i, io)); var t := s.drains[i];
      |s'.drains| == 1 && Fate(s.(drains := s'.drains), s', s'.drains[0], t.e, Faults(w, s, t, io), LastByte(w, t, io), io.now)
  {
    hide Core, Advance, Faults, LastByte;
    var t := s.drains[0];
    assert s.drains == [t] && i == 0;
    assert forall t': Task :: s.drains[..0] + [t'] + s.drains[1..] == [t'];
    if t.Writing? {
      WritesToFile(w, s, t);
      WritingFate(w, s, t, io);
    } else {
      OpeningFate(w, s, t, io);
      NotLast(w, t, io);
    }
  }

  lemma {:induction false} NotLast(w: World, t: Task, io: Io)
    requires !t.Writing?
    ensures !LastByte(w, t, io)
  {}

  lemma {:induction false} LoopHeadKeeps(w: World, s: Journal, now: int)
    ensures LoopHead(w, s, now).0.disk == s.disk && LoopHead(w, s, now).0.written == s.written
  {}

  /** So a write that reports an error, or takes no bytes, is a failure of the run at its own time. */
  lemma {:induction false} FaultFails(w: World, s0: Journal, evs: seq<Event>, k: nat)
    requires w.Valid() && Initial(w, s0) && k < |evs| && evs[k].Resume?
    requires var s := Run(w, s0, evs[..k]);
      evs[k].drain < |s.drains| && Faults(w, s, s.drains[evs[k].drain], evs[k].io)
    ensures FailsAt(w, s0, evs, k) && TimeOf(evs[k]) == evs[k].io.now
  {
    hide Inv, Initial, Step, Faults, LastByte;
    RunInv(w, s0, evs[..k]);
    assert evs[..k + 1][..k] == evs[..k];
    var s := Run(w, s0, evs[..k]);
    FaultFlies(w, s, s.drains[evs[k].drain], evs[k].io);
    FlightFate(w, s, evs[k].drain, evs[k].io);
  }

  lemma {:induction false} FaultFlies(w: World, s: Journal, t: Task, io: Io)
    requires Faults(w, s, t, io)
    ensures Flying(t) != []
  {}
}
