/**
 * First-image capture for cameras without one: a set of scheduled serials, and a
 * promise chain that runs one capture after another.
 */
module Warmup {
  import opened Basics

  const MAXIMUM_ATTEMPTS := 3
  const RETRY_INTERVAL := 120000

  datatype Attempt = Attempt(count: nat, at: int)

  /** What happened, for the run theorems: `imaged` is whether the camera had an image just then. */
  datatype Entry = Began(serial: string, at: int, imaged: bool) | Ended(serial: string) | Halted

  /** `pending` holds the links of the promise chain that have not run; `running` is the one in capture. */
  datatype State = State(
    scheduled: seq<string>,
    attempted: map<string, Attempt>,
    pending: seq<string>,
    running: Option<string>,
    started: bool,
    stopped: bool,
    now: int,
    images: set<string>,
    log: seq<Entry>)

  /** `RunLink` is the next link of the chain starting, `FinishCapture` its capture settling either way. */
  datatype Step =
    | Enqueue(serial: string)
    | Start
    | Stop
    | RunLink
    | FinishCapture
    | Elapse(to: int)
    | SetImages(images: set<string>)

  /** Deletion from an insertion-ordered set. */
  function Delete(s: seq<string>, serial: string): seq<string> {
    if s == [] then [] else if s[0] == serial then s[1..] else [s[0]] + Delete(s[1..], serial)
  }

  predicate Refused(s: State, serial: string) {
    || s.stopped || serial in s.scheduled || serial in s.images
    || (serial in s.attempted
        && (s.attempted[serial].count >= MAXIMUM_ATTEMPTS || s.now - s.attempted[serial].at < RETRY_INTERVAL))
  }

  function Attempts(s: State, serial: string): nat {
    if serial in s.attempted then s.attempted[serial].count else 0
  }

  function Apply(s: State, step: Step): State {
    match step
    case Enqueue(serial) =>
      if Refused(s, serial) then s
      else s.(scheduled := s.scheduled + [serial], pending := if s.started then s.pending + [serial] else s.pending)
    case Start =>
      if s.started || s.stopped then s else s.(started := true, pending := s.pending + s.scheduled)
    case Stop => s.(stopped := true, scheduled := [], log := s.log + [Halted])
    case RunLink =>
      if s.running.Some? || s.pending == [] then s
      else
        var serial, rest := s.pending[0], s.pending[1..];
        if s.stopped || serial in s.images then s.(pending := rest, scheduled := Delete(s.scheduled, serial))
        else s.(pending := rest, running := Some(serial),
                attempted := s.attempted[serial := Attempt(Attempts(s, serial) + 1, s.now)],
                log := s.log + [Began(serial, s.now, serial in s.images)])
    case FinishCapture =>
      if s.running.None? then s
      else s.(running := None, scheduled := Delete(s.scheduled, s.running.value), log := s.log + [Ended(s.running.value)])
    case Elapse(to) => if to > s.now then s.(now := to) else s
    case SetImages(images) => s.(images := images)
  }

  const INITIAL: State := State([], map[], [], None, false, false, 0, {}, [])

  function Run(steps: seq<Step>): State {
    if steps == [] then INITIAL else Apply(Run(steps[..|steps| - 1]), steps[|steps| - 1])
  }

  // ---------------------------------------------------------------- invariants

  /** The links of the chain that have not settled. */
  function Chain(s: State): seq<string> {
    (if s.running.Some? then [s.running.value] else []) + s.pending
  }

  predicate Distinct(s: seq<string>) {
    forall i, j | 0 <= i < j < |s| :: s[i] != s[j]
  }

  ghost predicate ScheduleOk(s: State) {
    && Distinct(s.scheduled)
    && (s.started && !s.stopped ==> Chain(s) == s.scheduled)
    && (!s.started ==> s.pending == [] && s.running.None?)
    && (s.stopped ==> s.scheduled == [])
  }

  /** Every scheduled serial that is not being captured may be captured now. */
  ghost predicate Eligible(s: State) {
    forall k | k in s.scheduled && s.running != Some(k) && k in s.attempted ::
      s.attempted[k].count < MAXIMUM_ATTEMPTS && s.now - s.attempted[k].at >= RETRY_INTERVAL
  }

  predicate Begins(e: Entry, serial: string) { e.Began? && e.serial == serial }

  /** How often a capture of `serial` began. */
  function Count(log: seq<Entry>, serial: string): nat {
    if log == [] then 0
    else Count(log[..|log| - 1], serial) + if Begins(log[|log| - 1], serial) then 1 else 0
  }

  ghost predicate Closed(log: seq<Entry>, i: nat)
    requires i < |log| && log[i].Began?
  {
    exists k :: i < k < |log| && log[k] == Ended(log[i].serial)
  }

  /** Each camera's budget: at most three captures, which start two minutes apart. */
  ghost predicate BudgetOk(s: State) {
    && (forall k :: Count(s.log, k) == Attempts(s, k) <= MAXIMUM_ATTEMPTS)
    && (forall i | 0 <= i < |s.log| && s.log[i].Began? ::
         s.log[i].serial in s.attempted && s.log[i].at <= s.attempted[s.log[i].serial].at <= s.now)
    && Spaced(s.log)
  }

  ghost predicate Spaced(log: seq<Entry>) {
    forall i, j | 0 <= i < j < |log| && log[i].Began? && log[j].Began? && log[i].serial == log[j].serial ::
      log[j].at - log[i].at >= RETRY_INTERVAL
  }

  /** A capture begins only after the one before it ended. */
  ghost predicate OneAtATime(log: seq<Entry>) {
    forall i, j | 0 <= i < j < |log| && log[i].Began? && log[j].Began? :: Closed(log[..j], i)
  }

  /** No capture begins after the stop, or for a camera with an image. */
  ghost predicate Wanted(log: seq<Entry>) {
    && (forall i | 0 <= i < |log| && log[i].Began? :: !log[i].imaged)
    && (forall i, j | 0 <= i < j < |log| && log[i].Halted? :: !log[j].Began?)
  }

  ghost predicate LogOk(s: State) {
    && OneAtATime(s.log) && Wanted(s.log)
    && (forall i | 0 <= i < |s.log| && s.log[i].Began? :: Closed(s.log, i) || s.running == Some(s.log[i].serial))
    && ((exists i :: 0 <= i < |s.log| && s.log[i].Halted?) ==> s.stopped)
  }

  ghost predicate Inv(s: State) {
    ScheduleOk(s) && Eligible(s) && BudgetOk(s) && LogOk(s)
  }

  // --------------------------------------------------------------------- proofs

  /** The head of the chain is the oldest scheduled serial. */
  lemma {:induction false} HeadSettles(s: State, serial: string)
    requires ScheduleOk(s) && Chain(s) != [] && serial == Chain(s)[0]
    ensures Delete(s.scheduled, serial) == if s.stopped then [] else s.scheduled[1..]
    ensures !s.stopped ==> s.scheduled != [] && s.scheduled[0] == serial && serial !in s.scheduled[1..]
  {}

  lemma {:induction false} ScheduleStep(s: State, step: Step)
    requires ScheduleOk(s)
    ensures ScheduleOk(Apply(s, step))
  {
    hide Delete;
    if step.RunLink? && s.running.None? && s.pending != [] {
      HeadSettles(s, s.pending[0]);
      assert Chain(s)[1..] == s.pending[1..];
    } else if step.FinishCapture? && s.running.Some? {
      HeadSettles(s, s.running.value);
      assert Chain(s)[1..] == s.pending;
    }
  }

  lemma {:induction false} EligibleStep(s: State, step: Step)
    requires ScheduleOk(s) && Eligible(s)
    ensures Eligible(Apply(s, step))
  {
    if step.RunLink? && s.running.None? && s.pending != [] {
      HeadSettles(s, s.pending[0]);
    } else if step.FinishCapture? && s.running.Some? {
      HeadSettles(s, s.running.value);
    }
    hide ScheduleOk, Delete;
  }

  lemma {:induction false} CountAppend(log: seq<Entry>, e: Entry, serial: string)
    ensures Count(log + [e], serial) == Count(log, serial) + if Begins(e, serial) then 1 else 0
  {
    assert (log + [e])[..|log|] == log;
  }

  lemma {:induction false} BudgetBegan(s: State, s': State, e: Entry)
    requires BudgetOk(s) && e.Began? && e.at == s.now
    requires s'.log == s.log + [e] && s'.now == s.now
    requires s'.attempted == s.attempted[e.serial := Attempt(Attempts(s, e.serial) + 1, s.now)]
    requires e.serial in s.attempted ==>
      s.attempted[e.serial].count < MAXIMUM_ATTEMPTS && s.now - s.attempted[e.serial].at >= RETRY_INTERVAL
    ensures BudgetOk(s')
  {
    forall k ensures Count(s'.log, k) == Attempts(s', k) <= MAXIMUM_ATTEMPTS {
      CountAppend(s.log, e, k);
      assert Count(s.log, k) == Attempts(s, k) <= MAXIMUM_ATTEMPTS;
    }
    hide Count;
  }

  lemma {:induction false} BudgetQuiet(s: State, s': State)
    requires BudgetOk(s) && s'.attempted == s.attempted && s.now <= s'.now
    requires s'.log == s.log || (|s'.log| == |s.log| + 1 && s'.log == s.log + [s'.log[|s.log|]] && !s'.log[|s.log|].Began?)
    ensures BudgetOk(s')
  {
    forall k ensures Count(s'.log, k) == Attempts(s', k) <= MAXIMUM_ATTEMPTS {
      if s'.log != s.log { CountAppend(s.log, s'.log[|s.log|], k); }
      assert Count(s.log, k) == Attempts(s, k) <= MAXIMUM_ATTEMPTS;
    }
    hide Count;
  }

  lemma {:induction false} BudgetStep(s: State, step: Step)
    requires BudgetOk(s) && Eligible(s) && ScheduleOk(s)
    ensures BudgetOk(Apply(s, step))
  {
    hide BudgetOk;
    var s' := Apply(s, step);
    if step.RunLink? && s'.log != s.log {
      assert Chain(s)[0] == s.pending[0] && s.pending[0] in s.scheduled;
      BudgetBegan(s, s', s'.log[|s.log|]);
    } else {
      BudgetQuiet(s, s');
    }
  }

  lemma {:induction false} ClosedAppend(log: seq<Entry>, e: Entry, i: nat)
    requires i < |log| && log[i].Began?
    ensures Closed(log, i) ==> Closed(log + [e], i)
    ensures e == Ended(log[i].serial) ==> Closed(log + [e], i)
  {
    if Closed(log, i) {
      var k :| i < k < |log| && log[k] == Ended(log[i].serial);
      assert (log + [e])[k] == Ended(log[i].serial);
    }
    assert (log + [e])[|log|] == e;
  }

  lemma {:induction false} LogGrows(s: State, s': State, e: Entry)
    requires LogOk(s) && s'.log == s.log + [e]
    requires e.Began? ==> !e.imaged && !s.stopped && s.running.None? && s'.running == Some(e.serial)
    requires e.Ended? ==> s.running == Some(e.serial)
    requires e.Halted? ==> s'.stopped && s'.running == s.running
    requires s.stopped ==> s'.stopped
    ensures LogOk(s')
  {
    var n := |s.log|;
    forall i | 0 <= i < |s'.log| && s'.log[i].Began? ensures Closed(s'.log, i) || s'.running == Some(s'.log[i].serial) {
      if i < n { ClosedAppend(s.log, e, i); }
    }
    forall i, j | 0 <= i < j < |s'.log| && s'.log[i].Began? && s'.log[j].Began? ensures Closed(s'.log[..j], i) {
      if j < n { assert s'.log[..j] == s.log[..j]; } else { assert s'.log[..j] == s.log; }
    }
  }

  lemma {:induction false} LogStep(s: State, step: Step)
    requires LogOk(s)
    ensures LogOk(Apply(s, step))
  {
    hide OneAtATime, Wanted;
    var s' := Apply(s, step);
    if s'.log != s.log { LogGrows(s, s', s'.log[|s.log|]); }
  }

  lemma {:induction false} StepInv(s: State, step: Step)
    requires Inv(s)
    ensures Inv(Apply(s, step))
  {
    hide Apply, ScheduleOk, Eligible, BudgetOk, LogOk;
    ScheduleStep(s, step);
    EligibleStep(s, step);
    BudgetStep(s, step);
    LogStep(s, step);
  }

  lemma {:induction false} InitialInv()
    ensures Inv(INITIAL)
  {}

  lemma {:induction false} RunInv(steps: seq<Step>)
    ensures Inv(Run(steps))
    decreases |steps|
  {
    if steps == [] {
      InitialInv();
    } else {
      hide Inv, Apply;
      RunInv(steps[..|steps| - 1]);
      StepInv(Run(steps[..|steps| - 1]), steps[|steps| - 1]);
    }
  }

  /** What the schedule promises about the capture that a link begins. */
  lemma {:induction false} LinkBegins(s: State)
    requires Inv(s) && s.running.None? && Apply(s, RunLink).running.Some?
    ensures var s' := Apply(s, RunLink); var serial := s'.running.value;
      && !s'.stopped && serial !in s'.images && Attempts(s', serial) == Attempts(s, serial) + 1 <= MAXIMUM_ATTEMPTS
      && (serial in s.attempted ==> s.now - s.attempted[serial].at >= RETRY_INTERVAL)
  {
    hide BudgetOk, LogOk, Delete;
    assert Chain(s)[0] == s.pending[0] && s.pending[0] in s.scheduled;
  }

  /** Over every run captures never overlap, and none begins after the stop or over an image. */
  lemma {:induction false} CapturesNeverOverlap(steps: seq<Step>)
    ensures OneAtATime(Run(steps).log) && Wanted(Run(steps).log)
  {
    RunInv(steps);
  }

  /** Over every run each camera is tried at most three times, at least two minutes apart. */
  lemma {:induction false} AttemptsAreBounded(steps: seq<Step>, serial: string)
    ensures Count(Run(steps).log, serial) <= MAXIMUM_ATTEMPTS && Spaced(Run(steps).log)
  {
    RunInv(steps);
  }

  /** Between start and stop the chain is exactly the scheduled serials, each once, in the order they were added. */
  lemma {:induction false} ChainIsSchedule(steps: seq<Step>)
    requires Run(steps).started && !Run(steps).stopped
    ensures Chain(Run(steps)) == Run(steps).scheduled && Distinct(Chain(Run(steps)))
  {
    RunInv(steps);
  }

  // ---------------------------------------------------------- who is accepted

  /** The last attempt of a camera is in the log, with the time it began. */
  ghost predicate Logged(s: State) {
    forall k | k in s.attempted :: exists i :: 0 <= i < |s.log| && Begins(s.log[i], k) && s.log[i].at == s.attempted[k].at
  }

  lemma {:induction false} LoggedStep(s: State, step: Step)
    requires Logged(s)
    ensures Logged(Apply(s, step))
  {
    var s' := Apply(s, step);
    assert s'.log == s.log || (|s'.log| == |s.log| + 1 && s'.log[..|s.log|] == s.log);
    forall k | k in s'.attempted ensures exists i :: 0 <= i < |s'.log| && Begins(s'.log[i], k) && s'.log[i].at == s'.attempted[k].at {
      if k in s.attempted && s'.attempted[k] == s.attempted[k] {
        var i :| 0 <= i < |s.log| && Begins(s.log[i], k) && s.log[i].at == s.attempted[k].at;
        assert s'.log[i] == s.log[i];
      } else {
        assert Begins(s'.log[|s.log|], k);
      }
    }
  }

  lemma {:induction false} RunLogged(steps: seq<Step>)
    ensures Logged(Run(steps))
    decreases |steps|
  {
    hide Apply, Logged;
    if steps == [] {
      NothingLogged();
    } else {
      RunLogged(steps[..|steps| - 1]);
      LoggedStep(Run(steps[..|steps| - 1]), steps[|steps| - 1]);
    }
  }

  lemma {:induction false} NothingLogged()
    ensures Logged(INITIAL)
  {}

  /** Fewer than three captures of the camera have begun, the last of them two minutes ago or more. */
  ghost predicate MayTry(s: State, serial: string) {
    && Count(s.log, serial) < 3
    && forall i | 0 <= i < |s.log| && Begins(s.log[i], serial) :: s.now - s.log[i].at >= 120000
  }

  /**
   * Over every run, a camera is scheduled exactly when the coordinator is not stopped, the
   * camera is not scheduled yet, has no image and may be tried again; otherwise nothing changes.
   */
  lemma {:induction false} EnqueueIff(steps: seq<Step>, serial: string)
    ensures var s, s' := Run(steps), Run(steps + [Enqueue(serial)]);
      if !s.stopped && serial !in s.scheduled && serial !in s.images && MayTry(s, serial)
      then s' == s.(scheduled := s.scheduled + [serial], pending := if s.started then s.pending + [serial] else s.pending)
      else s' == s
  {
    assert (steps + [Enqueue(serial)])[..|steps|] == steps;
    RunInv(steps);
    RunLogged(steps);
    var s := Run(steps);
    hide Run, Count, ScheduleOk, Eligible, LogOk;
    assert Count(s.log, serial) == Attempts(s, serial);
    if serial in s.attempted {
      var i :| 0 <= i < |s.log| && Begins(s.log[i], serial) && s.log[i].at == s.attempted[serial].at;
    } else {
      NeverBegan(s.log, serial);
    }
  }

  lemma {:induction false} NeverBegan(log: seq<Entry>, serial: string)
    requires Count(log, serial) == 0
    ensures forall i | 0 <= i < |log| :: !Begins(log[i], serial)
    decreases |log|
  {
    if log != [] { NeverBegan(log[..|log| - 1], serial); }
  }

  // -------------------------------------------------------------- every turn comes

  /** The next `k` links run one after another, each capture settling before the next link. */
  function Turns(s: State, k: nat): State {
    if k == 0 then s else Apply(Apply(Turns(s, k - 1), RunLink), FinishCapture)
  }

  function Captures(serials: seq<string>, now: int): seq<Entry> {
    if serials == [] then []
    else Captures(serials[..|serials| - 1], now) + [Began(serials[|serials| - 1], now, false), Ended(serials[|serials| - 1])]
  }

  /** With nothing stopped and no image in between, the chain captures its cameras one by one, in order. */
  lemma {:induction false} ChainDrains(s: State, k: nat)
    requires k <= |s.pending| && s.running.None? && !s.stopped && forall serial | serial in s.pending :: serial !in s.images
    ensures var s' := Turns(s, k);
      && s'.pending == s.pending[k..] && s'.running.None? && !s'.stopped && s'.images == s.images && s'.now == s.now
      && s'.log == s.log + Captures(s.pending[..k], s.now)
    decreases k
  {
    if k == 0 {
      assert s.pending[0..] == s.pending && s.log + [] == s.log;
    } else {
      hide Apply;
      ChainDrains(s, k - 1);
      OneTurn(Turns(s, k - 1));
      var links := s.pending[..k];
      assert links[..k - 1] == s.pending[..k - 1] && links[k - 1] == s.pending[k - 1];
      assert s.pending[k - 1..][1..] == s.pending[k..];
    }
  }

  lemma {:induction false} OneTurn(s: State)
    requires s.pending != [] && s.running.None? && !s.stopped && s.pending[0] !in s.images
    ensures var s', serial := Apply(Apply(s, RunLink), FinishCapture), s.pending[0];
      && s'.pending == s.pending[1..] && s'.running.None? && !s'.stopped && s'.images == s.images && s'.now == s.now
      && s'.log == s.log + [Began(serial, s.now, false), Ended(serial)]
  {
    hide Delete;
  }
}

/** The coordinator as it is updated in place. */
module StartupSnapshotWarmupModule {
  import opened Basics
  import Warmup

  class StartupSnapshotWarmup {
    var scheduled: seq<string>
    var attempted: map<string, Warmup.Attempt>
    var pending: seq<string>
    var running: Option<string>
    var started: bool
    var stopped: bool
    /** The clock and the image lookup are the caller's; they change between calls. */
    var now: int
    var images: set<string>
    ghost var log: seq<Warmup.Entry>

    ghost function State(): Warmup.State
      reads this
    {
      Warmup.State(scheduled, attempted, pending, running, started, stopped, now, images, log)
    }

    /** The schedule is the chain, budgets hold and captures did not overlap. */
    ghost predicate Valid()
      reads this
    {
      Warmup.Inv(State())
    }

    constructor ()
      ensures Valid() && State() == Warmup.INITIAL
    {
      scheduled, attempted, pending, running := [], map[], [], None;
      started, stopped, now, images, log := false, false, 0, {}, [];
      new;
      Warmup.InitialInv();
    }

    method Enqueue(serial: string)
      requires Valid()
      modifies `scheduled, `pending
      ensures Valid() && State() == Warmup.Apply(old(State()), Warmup.Enqueue(serial))
    {
      hide Warmup.Inv;
      Warmup.StepInv(State(), Warmup.Enqueue(serial));
      if stopped || serial in scheduled || serial in images { return; }
      if serial in attempted {
        var previous := attempted[serial];
        if previous.count >= Warmup.MAXIMUM_ATTEMPTS || now - previous.at < Warmup.RETRY_INTERVAL { return; }
      }
      scheduled := scheduled + [serial];
      if started { Append(serial); }
    }

    method Append(serial: string)
      modifies `pending
      ensures pending == old(pending) + [serial]
    {
      pending := pending + [serial];
    }

    method Start()
      requires Valid()
      modifies `started, `pending
      ensures Valid() && State() == Warmup.Apply(old(State()), Warmup.Start)
    {
      hide Warmup.Inv;
      Warmup.StepInv(State(), Warmup.Start);
      if started || stopped { return; }
      started := true;
      for i := 0 to |scheduled|
        invariant started && pending == old(pending) + scheduled[..i]
      {
        assert scheduled[..i + 1] == scheduled[..i] + [scheduled[i]];
        Append(scheduled[i]);
      }
      assert scheduled[..|scheduled|] == scheduled;
    }

    method Stop()
      requires Valid()
      modifies `stopped, `scheduled, `log
      ensures Valid() && State() == Warmup.Apply(old(State()), Warmup.Stop)
    {
      hide Warmup.Inv;
      Warmup.StepInv(State(), Warmup.Stop);
      stopped := true;
      scheduled := [];
      log := log + [Warmup.Halted];
    }

    /** The next link of the chain, up to the moment its capture is awaited. */
    method RunLink() returns (capture: Option<string>)
      requires Valid()
      modifies `pending, `scheduled, `attempted, `running, `log
      ensures Valid() && State() == Warmup.Apply(old(State()), Warmup.RunLink)
      ensures capture == if old(running).None? then running else None
      ensures capture.Some? ==> !stopped && capture.value !in images && attempted[capture.value].count <= Warmup.MAXIMUM_ATTEMPTS
      ensures capture.Some? && capture.value in old(attempted) ==>
        now - old(attempted)[capture.value].at >= Warmup.RETRY_INTERVAL
    {
      hide Warmup.Inv;
      Warmup.StepInv(State(), Warmup.RunLink);
      if running.None? && Warmup.Apply(State(), Warmup.RunLink).running.Some? { Warmup.LinkBegins(State()); }
      capture := None;
      if running.Some? || pending == [] { return; }
      var serial := pending[0];
      pending := pending[1..];
      if stopped || serial in images {
        scheduled := Warmup.Delete(scheduled, serial);
        return;
      }
      var count := if serial in attempted then attempted[serial].count else 0;
      attempted := attempted[serial := Warmup.Attempt(count + 1, now)];
      running, capture := Some(serial), Some(serial);
      log := log + [Warmup.Began(serial, now, false)];
    }

    /** The awaited capture settled, successfully or not. */
    method FinishCapture()
      requires Valid()
      modifies `running, `scheduled, `log
      ensures Valid() && State() == Warmup.Apply(old(State()), Warmup.FinishCapture)
    {
      hide Warmup.Inv;
      Warmup.StepInv(State(), Warmup.FinishCapture);
      if running.None? { return; }
      scheduled := Warmup.Delete(scheduled, running.value);
      log := log + [Warmup.Ended(running.value)];
      running := None;
    }
  }
}
