/**
 * What the writer does next: which segment a record goes to, when a checkpoint retires
 * the active segment, and what flush and close ask for.
 */
module RawDrain {
  import opened Basics
  import opened RawFrames
  import opened RawDisk
  import opened RawJournal
  import opened RawAdmission

  /** Bytes of a record's frame on disk: the length, nonce and tag, and the rendered text. */
  function FrameBytes(w: World, e: Entry): nat {
    4 + 12 + 16 + w.c.Length(e)
  }

  /** The record has a frame at all, and one that fits an empty segment. */
  predicate Storable(w: World, e: Entry) {
    w.c.render(e).Some? && 28 + w.c.Length(e) < 4294967296 && FrameBytes(w, e) <= w.o.segmentBytes
  }

  lemma {:induction false} StorableIff(w: World, e: Entry)
    requires w.Valid()
    ensures Storable(w, e) <==> w.Fits(e)
    ensures Storable(w, e) ==> |w.c.Frame(e)| == FrameBytes(w, e)
  {
    if w.Fits(e) { FrameLength(w.c, e); }
  }

  /** What the writer takes up, when it is free: `t` is where it is suspended then. */
  ghost predicate TakesUp(w: World, s: Journal, s': Journal, t: Task, now: int) {
    if s.queue == [] then
      if s.checkpoint then t == Syncing && s' == s.(checkpoint := false) else t == Returned && s' == s
    else
      var e := s.queue[0];
      if !Storable(w, e) then
        t == Failing(e) && s' == s.(queue := s.queue[1..], ioErrors := s.ioErrors + 1, dropped := s.dropped + 1, retryAt := now + 5000)
      else
        && s' == s.(queue := s.queue[1..])
        && t == if s.disk.file.Some? && s.disk.fileBytes + FrameBytes(w, e) <= w.o.segmentBytes then Writing(e, 0) else Retiring(e)
  }

  /**
   * A free writer takes up the oldest queued record: into the active segment when its frame
   * still fits there, into a new one otherwise, and not at all when it fits none. With an
   * empty queue it runs a requested checkpoint, and else it ends.
   */
  lemma {:induction false} TakesOldest(w: World, s: Journal, now: int)
    requires w.Valid()
    ensures var (s', t) := LoopHead(w, s, now); TakesUp(w, s, s', t, now)
  {
    if s.queue != [] { StorableIff(w, s.queue[0]); }
    hide World.Fits;
  }

  lemma {:induction false} SoleDrain(s: Journal, i: nat)
    requires |s.drains| <= 1 && i < |s.drains|
    ensures i == 0 && forall t: Task :: s.drains[..0] + [t] + s.drains[1..] == [t]
  {}

  /** What one step of a checkpoint leaves: `s'` apart from the drain, and where the drain is then. */
  ghost predicate Checkpoints(w: World, s: Journal, t: Task, io: Io, s': Journal, t': Task) {
    var s1 := s.(ioErrors := s.ioErrors + 1);
    match t
    case Syncing =>
      if s.disk.file.Some? && !io.ok then TakesUp(w, s1, s', t', io.now)
      else s' == s && t' == if s.disk.file.Some? && io.now - s.disk.fileTime > w.o.maximumAgeMs then Aging else Sweeping
    case Aging =>
      if io.ok then s' == s.(disk := s.disk.(file := None, fileName := None)) && t' == Sweeping
      else TakesUp(w, s1, s', t', io.now)
    case _ =>
      if io.ok then TakesUp(w, s.(disk := SweepAll(w.o, s.disk, 0, io.clock)), s', t', io.now)
      else TakesUp(w, s1.(disk := Sweep(w.o, s.disk, 0, io.clock, io.n)), s', t', io.now)
  }

  lemma {:induction false} CheckpointAdvances(w: World, s: Journal, t: Task, io: Io)
    requires w.Valid() && t in {Syncing, Aging, Sweeping}
    ensures var (s', t') := Advance(w, s, t, io); Checkpoints(w, s, t, io, s', t') && s'.drains == s.drains
  {
    hide LoopHead, SweepAll, Sweep, TakesUp;
    var s1 := s.(ioErrors := s.ioErrors + 1);
    TakesFrom(w, s1, io.now);
    TakesFrom(w, s.(disk := SweepAll(w.o, s.disk, 0, io.clock)), io.now);
    TakesFrom(w, s1.(disk := Sweep(w.o, s.disk, 0, io.clock, io.n)), io.now);
  }

  /**
   * A checkpoint syncs the active segment, retires it when it is older than the age limit,
   * and then runs a pass. An error in it is counted and drops no record.
   */
  lemma {:induction false} CheckpointFate(w: World, s: Journal, i: nat, io: Io)
    requires w.Valid() && Inv(w, s) && i < |s.drains| && s.drains[i] in {Syncing, Aging, Sweeping}
    ensures var s' := Step(w, s, Resume(i, io));
      |s'.drains| == 1 && Checkpoints(w, s, s.drains[i], io, s'.(drains := s.drains), s'.drains[0])
  {
    hide Core, Advance, Checkpoints;
    SoleDrain(s, i);
    CheckpointAdvances(w, s, s.drains[i], io);
  }

  lemma {:induction false} TakesFrom(w: World, s: Journal, now: int)
    requires w.Valid()
    ensures var (s', t) := LoopHead(w, s, now); TakesUp(w, s, s', t, now) && s'.drains == s.drains && s'.writer == s.writer
  {
    TakesOldest(w, s, now);
    hide LoopHead;
  }

  /** A request for the writer: an idle one takes something up at once, a busy one will before it ends. */
  ghost predicate Woken(w: World, s: Journal, s': Journal, now: int) {
    if s.writer then s' == s
    else s'.writer && |s'.drains| == 1 && TakesUp(w, s, s'.(writer := false, drains := []), s'.drains[0], now)
  }

  lemma {:induction false} Wakes(w: World, s: Journal, now: int)
    requires w.Valid() && (!s.writer ==> s.drains == [])
    ensures Woken(w, s, StartWriter(w, s, now), now)
  {
    hide LoopHead, TakesUp;
    TakesFrom(w, s, now);
    var (s', t) := LoopHead(w, s, now);
    assert !s.writer ==> s'.(writer := true, drains := s'.drains + [t]).(writer := false, drains := []) == s';
  }

  lemma {:induction false} IdleDrains(w: World, s: Journal)
    requires w.Valid() && Inv(w, s)
    ensures !s.writer ==> s.drains == []
  {}

  lemma {:induction false} FlushAsks(w: World, s: Journal, now: int)
    requires w.Valid() && Inv(w, s)
    ensures Woken(w, s.(checkpoint := true), Step(w, s, Flush(now)), now)
    ensures Woken(w, s.(checkpoint := true, closed := true), Step(w, s, Close(now)), now)
  {
    hide Inv, StartWriter, Woken;
    IdleDrains(w, s);
    Wakes(w, s.(checkpoint := true), now);
    Wakes(w, s.(checkpoint := true, closed := true), now);
  }

  /** A returned writer is cleared, and restarted for what arrived meanwhile. */
  lemma {:induction false} SettledWakes(w: World, s: Journal, now: int)
    requires w.Valid() && s.drains == [Returned]
    ensures var s' := Step(w, s, Settle(0, now)); var idle := s.(writer := false, drains := []);
      if s.queue == [] && !s.checkpoint then s' == idle else Woken(w, idle, s', now)
  {
    hide StartWriter, Woken;
    assert s.drains[..0] + s.drains[1..] == [];
    Wakes(w, s.(writer := false, drains := []), now);
  }

  lemma {:induction false} StaysClosed(w: World, s: Journal, ev: Event)
    requires s.closed
    ensures Step(w, s, ev).closed
  {
    hide LoopHead;
    forall s2: Journal, now: int ensures LoopHead(w, s2, now).0.closed == s2.closed { LoopHeadClosed(w, s2, now); }
  }

  lemma {:induction false} LoopHeadClosed(w: World, s: Journal, now: int)
    ensures LoopHead(w, s, now).0.closed == s.closed
  {}

  /** Once closed, a journal ignores every record for the rest of the run. */
  lemma {:induction false} ClosedForGood(w: World, s0: Journal, evs: seq<Event>, i: nat, j: nat)
    requires i < j <= |evs| && evs[i].Close?
    ensures Run(w, s0, evs[..j]).closed
    ensures j < |evs| && evs[j].Record? ==> Run(w, s0, evs[..j + 1]) == Run(w, s0, evs[..j])
    decreases j
  {
    hide Step;
    assert evs[..j][..j - 1] == evs[..j - 1];
    if j == i + 1 {
      CloseCloses(w, Run(w, s0, evs[..i]), evs[i]);
    } else {
      ClosedForGood(w, s0, evs, i, j - 1);
      StaysClosed(w, Run(w, s0, evs[..j - 1]), evs[j - 1]);
    }
    if j < |evs| && evs[j].Record? {
      assert evs[..j + 1][..j] == evs[..j];
      ClosedIgnores(w, Run(w, s0, evs[..j]), evs[j].body, evs[j].payload, evs[j].now);
    }
  }

  lemma {:induction false} CloseCloses(w: World, s: Journal, ev: Event)
    requires ev.Close?
    ensures Step(w, s, ev).closed
  {
    hide LoopHead;
    LoopHeadClosed(w, s.(closed := true, checkpoint := true), ev.now);
  }
}
