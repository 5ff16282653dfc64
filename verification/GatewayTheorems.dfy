/** What holds of the gateway state over every run of calls and timers. */
module GatewayTheorems {
  import opened Basics
  import opened Gateway

  // ------------------------------------------------------- motion aggregation

  ghost predicate CamerasOk(s: State) {
    && s.cameras.Valid()
    && forall k | k in s.cameras.rows ::
         && s.cameras.rows[k].identity.serial == k
         && s.cameras.rows[k].motionDetected == (s.cameras.rows[k].raised * VISUAL != {})
  }

  lemma {:induction false} FlaggedAggregates(c: Camera, k: Kind, detected: bool)
    requires c.motionDetected == (c.raised * VISUAL != {})
    ensures var c' := Flagged(c, k, detected); c'.motionDetected == (c'.raised * VISUAL != {})
    ensures Flagged(c, k, detected) ==
      c.(raised := if detected then c.raised + {k} else c.raised - {k}, motionDetected := Flagged(c, k, detected).motionDetected)
  {
    if k !in VISUAL {
      assert (c.raised + {k}) * VISUAL == c.raised * VISUAL;
      assert (c.raised - {k}) * VISUAL == c.raised * VISUAL;
    }
  }

  lemma {:induction false} PutKeeps(s: State, c: Camera)
    requires CamerasOk(s) && c.motionDetected == (c.raised * VISUAL != {})
    ensures CamerasOk(Put(s, c))
  {
    var serial := c.identity.serial;
    if serial !in s.cameras.rows {
      assert forall k :: k in s.cameras.order + [serial] <==> k in s.cameras.order || k == serial;
    }
  }

  lemma {:induction false} ReportedFlags(cfg: Config, s: State, call: Call)
    requires IsReport(call) && call.serial in s.cameras.rows
    requires var c := s.cameras.rows[call.serial]; c.motionDetected == (c.raised * VISUAL != {})
    ensures var c, c' := s.cameras.rows[call.serial], Reported(cfg, s, call);
      && c'.identity == c.identity && c'.motionDetected == (c'.raised * VISUAL != {})
      && c'.raised == (if call.detected then c.raised + {KindOf(call)} else c.raised - {KindOf(call)})
  {
    FlaggedAggregates(s.cameras.rows[call.serial], KindOf(call), call.detected);
    hide Flagged;
  }

  lemma {:induction false} PutFrame(s: State, c: Camera)
    requires CamerasOk(s) && c.identity.serial in s.cameras.rows
    ensures var s' := Put(s, c);
      && s'.cameras.rows.Keys == s.cameras.rows.Keys && s'.cameras.rows[c.identity.serial] == c
      && forall k | k in s.cameras.rows && k != c.identity.serial :: s'.cameras.rows[k] == s.cameras.rows[k]
  {
    assert Put(s, c).cameras.rows.Keys == s.cameras.rows.Keys + {c.identity.serial};
  }

  /** The one camera a report touches, and how. */
  lemma {:induction false} ReportCamera(cfg: Config, s: State, call: Call)
    requires IsReport(call) && Accepted(s, call) && CamerasOk(s)
    ensures var s' := Report(cfg, s, call).0; var c, c' := s.cameras.rows[call.serial], s'.cameras.rows[call.serial];
      && CamerasOk(s')
      && s'.cameras.rows.Keys == s.cameras.rows.Keys
      && (forall k | k in s.cameras.rows && k != call.serial :: s'.cameras.rows[k] == s.cameras.rows[k])
      && c'.raised == (if call.detected then c.raised + {KindOf(call)} else c.raised - {KindOf(call)})
      && c'.identity == c.identity
  {
    ReportedFlags(cfg, s, call);
    var base, c' := Recorded(cfg, s, call), Reported(cfg, s, call);
    assert base.cameras == s.cameras;
    PutKeeps(base, c');
    PutFrame(base, c');
    hide Reported, Recorded, CamerasOk, Put;
  }

  lemma {:induction false} ApplyCameras(cfg: Config, s: State, call: Call)
    requires CamerasOk(s)
    ensures CamerasOk(Apply(cfg, s, call).0)
  {
    hide Report, CamerasOk;
    if IsReport(call) {
      if Accepted(s, call) { ReportCamera(cfg, s, call); NoticedKeeps(Report(cfg, s, call).0, (call.serial, KindOf(call)), call.detected); }
      else { RefusedReport(cfg, s, call); }
    } else {
      OtherCameras(cfg, s, call);
    }
  }

  lemma {:induction false} NoticedKeeps(s: State, key: TimerKey, raised: bool)
    requires CamerasOk(s)
    ensures CamerasOk(Noticed(s, key, raised))
  {}

  lemma {:induction false} RefusedReport(cfg: Config, s: State, call: Call)
    requires IsReport(call) && !Accepted(s, call)
    ensures Report(cfg, s, call) == (s, [])
  {}

  lemma {:induction false} OtherCameras(cfg: Config, s: State, call: Call)
    requires CamerasOk(s) && !IsReport(call)
    ensures CamerasOk(Apply(cfg, s, call).0)
  {
    match call {
      case RegisterCamera(identity) =>
        hide CamerasOk, Put;
        RegisterKeeps(s, identity);
      case EnrichName(serial, id, name, kind) => EnrichKeeps(cfg, s, serial, id, name, kind);
      case SetMedia(serial, media, announce) =>
        if serial in s.cameras.rows { PutKeeps(s, s.cameras.rows[serial].(media := media)); }
      case Fire(serial, kind) =>
        if (serial, kind) in s.timers && s.timers[(serial, kind)] <= s.now {
          var s' := s.(timers := s.timers - {(serial, kind)});
          var clear := ClearCall(serial, kind, s.now);
          if Accepted(s', clear) { ReportCamera(cfg, s', clear); } else { RefusedReport(cfg, s', clear); }
        }
      case _ =>
    }
  }

  lemma {:induction false} RegisterKeeps(s: State, identity: Identity)
    requires CamerasOk(s)
    ensures CamerasOk(RegisterCameraStep(s, identity).0)
  {
    var c := RegisterCameraStep(s, identity).0.cameras.rows[identity.serial];
    PutKeeps(s, c);
  }

  lemma {:induction false} EnrichKeeps(cfg: Config, s: State, serial: string, id: string, name: string, kind: Kind)
    requires CamerasOk(s)
    ensures CamerasOk(EnrichStep(cfg, s, serial, id, name, kind).0)
  {
    if serial in s.cameras.rows {
      var c' := EnrichStep(cfg, s, serial, id, name, kind).0.cameras.rows[serial];
      PutKeeps(s, c');
    }
  }

  /** The general motion flag is always the OR of the nine visual flags. */
  lemma {:induction false} MotionIsAggregate(cfg: Config, calls: seq<Call>)
    ensures CamerasOk(Run(cfg, calls))
    decreases |calls|
  {
    if calls != [] {
      MotionIsAggregate(cfg, calls[..|calls| - 1]);
      ApplyCameras(cfg, Run(cfg, calls[..|calls| - 1]), calls[|calls| - 1]);
    }
  }

  // ------------------------------------------------------------- timer machine

  /** The latest accepted notification for one flag. */
  function Latest(history: seq<Notice>, key: TimerKey): Option<Notice> {
    if history == [] then None
    else if history[|history| - 1].key == key then Some(history[|history| - 1])
    else Latest(history[..|history| - 1], key)
  }

  /** What there is to say about one flag: its timer, its value and its latest notification. */
  datatype FlagView = FlagView(deadline: Option<int>, up: bool, latest: Option<Notice>, now: int) {
    predicate Ok(hold: nat) {
      && (up <==> deadline.Some?)
      && (up ==> latest.Some? && latest.value.raised && deadline.value == latest.value.time + hold)
      && (latest.Some? ==> latest.value.time <= now && (latest.value.raised && !up ==> now >= latest.value.time + hold))
    }
  }

  function FlagOf(s: State, key: TimerKey): FlagView {
    var known := key.0 in s.cameras.rows;
    FlagView(
      if key in s.timers then Some(s.timers[key]) else None,
      known && key.1 in s.cameras.rows[key.0].raised,
      Latest(s.history, key),
      s.now)
  }

  ghost predicate FlagOk(cfg: Config, s: State, key: TimerKey) {
    FlagOf(s, key).Ok(cfg.hold)
  }

  /** A due button timer fires only while its camera supports a button. */
  ghost predicate Steady(s: State, call: Call) {
    call.Fire? && call.kind == Doorbell && (call.serial, Doorbell) in s.timers && s.timers[(call.serial, Doorbell)] <= s.now ==>
      call.serial in s.cameras.rows && s.cameras.rows[call.serial].identity.doorbellSupported
  }

  ghost predicate AllSteady(cfg: Config, calls: seq<Call>) {
    forall i | 0 <= i < |calls| :: Steady(Run(cfg, calls[..i]), calls[i])
  }

  lemma {:induction false} LatestAppend(history: seq<Notice>, n: Notice, key: TimerKey)
    ensures Latest(history + [n], key) == if n.key == key then Some(n) else Latest(history, key)
  {
    assert (history + [n])[..|history|] == history;
  }

  lemma {:induction false} ReportTimers(cfg: Config, s: State, call: Call)
    requires IsReport(call) && Accepted(s, call)
    ensures var s' := Report(cfg, s, call).0; var key := (call.serial, KindOf(call));
      && s'.history == s.history && s'.now == s.now
      && s'.timers == (if call.detected then (s.timers - {key})[key := s.now + cfg.hold] else s.timers - {key})
  {
    hide Reported;
  }

  /** `s'` differs from `s` in the camera, flag and timer of `own` only. */
  ghost predicate MovesOnly(s: State, s': State, own: TimerKey, detected: bool, hold: nat) {
    && own.0 in s.cameras.rows && s'.cameras.rows.Keys == s.cameras.rows.Keys
    && s'.history == s.history && s'.now == s.now
    && (forall k | k in s.cameras.rows && k != own.0 :: s'.cameras.rows[k] == s.cameras.rows[k])
    && s'.timers == (if detected then (s.timers - {own})[own := s.now + hold] else s.timers - {own})
    && var c, c' := s.cameras.rows[own.0], s'.cameras.rows[own.0];
       c'.identity == c.identity && c'.raised == (if detected then c.raised + {own.1} else c.raised - {own.1})
  }

  lemma {:induction false} MovedFlag(s: State, s': State, own: TimerKey, detected: bool, hold: nat, key: TimerKey)
    requires MovesOnly(s, s', own, detected, hold)
    ensures FlagOf(s', key) ==
      if key != own then FlagOf(s, key)
      else FlagOf(s, key).(deadline := if detected then Some(s.now + hold) else None, up := detected)
  {
    hide Latest;
  }

  /** A report moves its own flag and timer together and leaves every other flag alone. */
  lemma {:induction false} ReportMoves(cfg: Config, s: State, call: Call, own: TimerKey)
    requires IsReport(call) && Accepted(s, call) && CamerasOk(s) && own == (call.serial, KindOf(call))
    ensures MovesOnly(s, Report(cfg, s, call).0, own, call.detected, cfg.hold)
  {
    ReportCamera(cfg, s, call);
    ReportTimers(cfg, s, call);
  }

  lemma {:induction false} NotifyFlag(cfg: Config, s: State, call: Call, key: TimerKey)
    requires IsReport(call) && CamerasOk(s) && FlagOk(cfg, s, key)
    ensures FlagOk(cfg, Notify(cfg, s, call).0, key)
  {
    if Accepted(s, call) {
      var own := (call.serial, KindOf(call));
      ReportMoves(cfg, s, call, own);
      MovedNotice(cfg, s, Report(cfg, s, call).0, own, call.detected, key);
      hide Report, CamerasOk, FlagOk;
    }
  }

  lemma {:induction false} MovedNotice(cfg: Config, s: State, s': State, own: TimerKey, raised: bool, key: TimerKey)
    requires MovesOnly(s, s', own, raised, cfg.hold) && FlagOk(cfg, s, key)
    ensures FlagOk(cfg, Noticed(s', own, raised), key)
  {
    MovedFlag(s, s', own, raised, cfg.hold, key);
    NoticedFlag(s', own, raised, key);
    assert FlagOf(s, key).now == s.now && FlagOf(s, key).latest == Latest(s.history, key);
    hide FlagOf, Latest;
  }

  lemma {:induction false} NoticedFlag(s: State, noticed: TimerKey, raised: bool, key: TimerKey)
    ensures FlagOf(Noticed(s, noticed, raised), key) ==
      FlagOf(s, key).(latest := if noticed == key then Some(Notice(key, raised, s.now)) else Latest(s.history, key))
  {
    LatestAppend(s.history, Notice(noticed, raised, s.now), key);
  }

  lemma {:induction false} FireFlag(cfg: Config, s: State, serial: string, kind: Kind, key: TimerKey)
    requires CamerasOk(s) && FlagOk(cfg, s, key) && FlagOk(cfg, s, (serial, kind)) && Steady(s, Fire(serial, kind))
    ensures FlagOk(cfg, Apply(cfg, s, Fire(serial, kind)).0, key)
  {
    if (serial, kind) in s.timers && s.timers[(serial, kind)] <= s.now {
      var s' := s.(timers := s.timers - {(serial, kind)});
      var clear := ClearCall(serial, kind, s.now);
      assert Accepted(s', clear) && KindOf(clear) == kind && !clear.detected;
      assert key != (serial, kind) ==> FlagOf(s', key) == FlagOf(s, key);
      assert FlagOf(s', (serial, kind)) == FlagOf(s, (serial, kind)).(deadline := None);
      ReportMoves(cfg, s', clear, (serial, kind));
      MovedFlag(s', Report(cfg, s', clear).0, (serial, kind), false, cfg.hold, key);
      hide Report, CamerasOk, FlagOf;
    }
  }

  lemma {:induction false} OtherFlag(cfg: Config, s: State, call: Call, key: TimerKey)
    requires CamerasOk(s) && FlagOk(cfg, s, key) && !IsReport(call) && !call.Fire?
    ensures FlagOk(cfg, Apply(cfg, s, call).0, key)
  {
    hide Latest, MergeSensor;
  }

  lemma {:induction false} ApplyFlags(cfg: Config, s: State, call: Call)
    requires CamerasOk(s) && (forall key :: FlagOk(cfg, s, key)) && Steady(s, call)
    ensures forall key :: FlagOk(cfg, Apply(cfg, s, call).0, key)
  {
    hide CamerasOk, FlagOk, Steady;
    forall key ensures FlagOk(cfg, Apply(cfg, s, call).0, key) {
      assert FlagOk(cfg, s, key);
      if IsReport(call) { NotifyFlag(cfg, s, call, key); }
      else if call.Fire? { FireFlag(cfg, s, call.serial, call.kind, key); }
      else { OtherFlag(cfg, s, call, key); }
    }
  }

  ghost predicate FlagsOk(cfg: Config, s: State) {
    forall key :: FlagOk(cfg, s, key)
  }

  /** An unsupported camera's due button timer goes without clearing its flag. */
  lemma {:induction false} FireBreaks(cfg: Config, s: State, call: Call)
    requires CamerasOk(s) && FlagsOk(cfg, s) && !Steady(s, call)
    ensures !FlagsOk(cfg, Apply(cfg, s, call).0)
  {
    var key := (call.serial, Doorbell);
    assert FlagOk(cfg, s, key);
    ButtonClearsIff(cfg, s, call.serial);
    hide Latest, CamerasOk, Report;
    assert !FlagOk(cfg, Apply(cfg, s, call).0, key);
  }

  lemma {:induction false} StepFlagsIff(cfg: Config, s: State, call: Call)
    requires CamerasOk(s) && FlagsOk(cfg, s)
    ensures FlagsOk(cfg, Apply(cfg, s, call).0) <==> Steady(s, call)
  {
    hide CamerasOk, FlagOk, Steady, Apply;
    if Steady(s, call) { ApplyFlags(cfg, s, call); } else { FireBreaks(cfg, s, call); }
  }

  /** At every point of a run all flags follow their history. */
  ghost predicate AllFlags(cfg: Config, calls: seq<Call>) {
    forall i | 0 <= i <= |calls| :: FlagsOk(cfg, Run(cfg, calls[..i]))
  }

  lemma {:induction false} AllSplit(cfg: Config, calls: seq<Call>)
    requires calls != []
    ensures var init := calls[..|calls| - 1];
      && (AllFlags(cfg, calls) <==> AllFlags(cfg, init) && FlagsOk(cfg, Run(cfg, calls)))
      && (AllSteady(cfg, calls) <==> AllSteady(cfg, init) && Steady(Run(cfg, init), calls[|calls| - 1]))
      && (AllFlags(cfg, init) ==> FlagsOk(cfg, Run(cfg, init)))
  {
    hide FlagsOk, Steady, Run;
    var n := |calls| - 1;
    var init := calls[..n];
    assert calls[..|calls|] == calls && init[..n] == init;
    forall i | 0 <= i <= n ensures init[..i] == calls[..i] {}
    if AllFlags(cfg, init) && FlagsOk(cfg, Run(cfg, calls)) {
      forall i | 0 <= i <= |calls| ensures FlagsOk(cfg, Run(cfg, calls[..i])) {
        if i <= n { assert FlagsOk(cfg, Run(cfg, init[..i])); }
      }
    }
    if AllFlags(cfg, calls) {
      forall i | 0 <= i <= n ensures FlagsOk(cfg, Run(cfg, init[..i])) { assert FlagsOk(cfg, Run(cfg, calls[..i])); }
    }
    if AllSteady(cfg, calls) {
      forall i | 0 <= i < n ensures Steady(Run(cfg, init[..i]), init[i]) { assert Steady(Run(cfg, calls[..i]), calls[i]); }
    }
    if AllSteady(cfg, init) && Steady(Run(cfg, init), calls[n]) {
      forall i | 0 <= i < |calls| ensures Steady(Run(cfg, calls[..i]), calls[i]) {
        if i < n { assert Steady(Run(cfg, init[..i]), init[i]); }
      }
    }
  }

  lemma {:induction false} NothingRaised(cfg: Config)
    ensures FlagsOk(cfg, INITIAL)
  {
    forall key ensures FlagOk(cfg, INITIAL, key) {}
  }

  /**
   * The exact condition: every flag of every camera follows its history at every point
   * of a run if and only if no due button timer fired while its camera had no button.
   */
  lemma {:induction false} FlagsFollowIff(cfg: Config, calls: seq<Call>)
    ensures AllFlags(cfg, calls) <==> AllSteady(cfg, calls)
    decreases |calls|
  {
    if calls == [] {
      NothingRaised(cfg);
    } else {
      hide FlagsOk, Steady, AllFlags, AllSteady, Apply;
      var init, call := calls[..|calls| - 1], calls[|calls| - 1];
      FlagsFollowIff(cfg, init);
      MotionIsAggregate(cfg, init);
      AllSplit(cfg, calls);
      if FlagsOk(cfg, Run(cfg, init)) { StepFlagsIff(cfg, Run(cfg, init), call); }
    }
  }

  /** Every clear timer that has expired has also fired. */
  ghost predicate NoneDue(s: State) {
    forall key | key in s.timers :: s.now < s.timers[key]
  }

  /**
   * The timer machine refines the history rule: a flag is set exactly when its
   * one timer is pending, that timer expires a hold period after the latest
   * notification, which was a raise, and a raise is never cleared early. So
   * whenever no expired timer is left to fire, the flag is set exactly when the
   * latest notification was a raise less than a hold period ago.
   */
  lemma {:induction false} FlagsFollowHistory(cfg: Config, calls: seq<Call>, serial: string, k: Kind)
    requires AllSteady(cfg, calls) && serial in Run(cfg, calls).cameras.rows
    ensures var s := Run(cfg, calls); var n := Latest(s.history, (serial, k));
      var flag := k in s.cameras.rows[serial].raised;
      && (flag <==> (serial, k) in s.timers)
      && (flag ==> n.Some? && n.value.raised && s.timers[(serial, k)] == n.value.time + cfg.hold)
      && (n.Some? && n.value.raised && s.now < n.value.time + cfg.hold ==> flag)
      && (NoneDue(s) ==> (flag <==> n.Some? && n.value.raised && s.now < n.value.time + cfg.hold))
  {
    FlagsFollowIff(cfg, calls);
    assert calls[..|calls|] == calls;
    assert FlagsOk(cfg, Run(cfg, calls));
    assert FlagOk(cfg, Run(cfg, calls), (serial, k));
  }

  /**
   * The one case the history rule does not cover, exactly: a due button timer
   * clears its flag if and only if the camera supports a button at that moment.
   */
  lemma {:induction false} ButtonClearsIff(cfg: Config, s: State, serial: string)
    requires CamerasOk(s) && serial in s.cameras.rows && Doorbell in s.cameras.rows[serial].raised
    requires (serial, Doorbell) in s.timers && s.timers[(serial, Doorbell)] <= s.now
    ensures var s' := Apply(cfg, s, Fire(serial, Doorbell)).0;
      && s'.timers == s.timers - {(serial, Doorbell)} && serial in s'.cameras.rows
      && (Doorbell !in s'.cameras.rows[serial].raised <==> s.cameras.rows[serial].identity.doorbellSupported)
  {
    var s1 := s.(timers := s.timers - {(serial, Doorbell)});
    var clear := ClearCall(serial, Doorbell, s.now);
    if Accepted(s1, clear) {
      ReportCamera(cfg, s1, clear);
      ReportTimers(cfg, s1, clear);
    }
  }

  const PRESSED: Identity := Identity("c", "m", "s", true, 0)
  const UNSUPPORTED: Identity := Identity("c", "m", "s", false, 0)

  /** The flag is up and its timer pending once the button is pressed. */
  lemma {:induction false} Pressed(cfg: Config)
    ensures var s := Run(cfg, [RegisterCamera(PRESSED), RecordDoorbell("c", true, 0, None, None)]);
      && s.cameras.rows.Keys == {"c"} && Doorbell in s.cameras.rows["c"].raised
      && s.timers == map[("c", Doorbell) := cfg.hold] && s.now == 0
  {
    var a, b := RegisterCamera(PRESSED), RecordDoorbell("c", true, 0, None, None);
    RunStep(cfg, [], a);
    RunStep(cfg, [a], b);
    assert [] + [a] == [a] && [a] + [b] == [a, b];
    assert Run(cfg, []) == INITIAL;
    hide Run, IsRecentPerson, Aggregate;
    var s1 := Apply(cfg, INITIAL, a).0;
    assert s1.cameras.rows.Keys == {"c"} && s1.timers == map[] && s1.now == 0;
  }

  /** A camera that loses button support during a press keeps the flag with no timer to clear it. */
  lemma {:induction false} HeldButtonSticks(cfg: Config)
    ensures var calls := [RegisterCamera(PRESSED), RecordDoorbell("c", true, 0, None, None), RegisterCamera(UNSUPPORTED),
                    Tick(cfg.hold), Fire("c", Doorbell)];
      var s := Run(cfg, calls);
      "c" in s.cameras.rows && Doorbell in s.cameras.rows["c"].raised && s.timers == map[]
  {
    var press := [RegisterCamera(PRESSED), RecordDoorbell("c", true, 0, None, None)];
    var lost, wait, fire := press + [RegisterCamera(UNSUPPORTED)], Tick(cfg.hold), Fire("c", Doorbell);
    Pressed(cfg);
    RunStep(cfg, press, RegisterCamera(UNSUPPORTED));
    RunStep(cfg, lost, wait);
    RunStep(cfg, lost + [wait], fire);
    MotionIsAggregate(cfg, lost + [wait]);
    hide Run, Report, CamerasOk;
    var s := Run(cfg, lost + [wait]);
    assert s.timers == map[("c", Doorbell) := cfg.hold] && s.now == cfg.hold;
    assert !s.cameras.rows["c"].identity.doorbellSupported;
    ButtonClearsIff(cfg, s, "c");
    assert lost + [wait] + [fire] ==
      [RegisterCamera(PRESSED), RecordDoorbell("c", true, 0, None, None), RegisterCamera(UNSUPPORTED), wait, fire];
  }

  lemma {:induction false} RunStep(cfg: Config, calls: seq<Call>, call: Call)
    ensures Run(cfg, calls + [call]) == Apply(cfg, Run(cfg, calls), call).0
  {
    assert (calls + [call])[..|calls|] == calls;
  }

  // ----------------------------------------------------------- name enrichment

  /** A person or button detection that still has an owner was recorded with that owner's identity. */
  ghost predicate OwnerOk(s: State, c: Camera) {
    c.last.Some? ==>
      && c.last.value.id < s.nextId && c.last.value.id in s.sources
      && (c.last.value.kind == Person && c.personOwner.Some? ==> s.sources[c.last.value.id] == c.personOwner)
      && (c.last.value.kind == Doorbell && c.doorbellOwner.Some? ==> s.sources[c.last.value.id] == c.doorbellOwner)
  }

  ghost predicate OwnersOk(s: State) {
    && (forall id | id in s.sources :: id < s.nextId)
    && forall k | k in s.cameras.rows :: OwnerOk(s, s.cameras.rows[k])
  }

  /** A report's own camera: the new detection, when it becomes the last, is owned by its source. */
  lemma {:induction false} ReportedOwner(cfg: Config, s: State, call: Call)
    requires IsReport(call) && Accepted(s, call) && OwnersOk(s)
    ensures OwnerOk(Recorded(cfg, s, call), Reported(cfg, s, call))
  {
    var c := s.cameras.rows[call.serial];
    assert OwnerOk(s, c);
    assert c.last.Some? ==> c.last.value.id != s.nextId;
    FlaggedOwners(c, KindOf(call), call.detected);
    hide Flagged, OwnersOk;
  }

  lemma {:induction false} FlaggedOwners(c: Camera, k: Kind, detected: bool)
    ensures var c' := Flagged(c, k, detected); c'.last == c.last && c'.personOwner == c.personOwner && c'.doorbellOwner == c.doorbellOwner
  {}

  /** Recording a detection adds its source and keeps the others. */
  lemma {:induction false} PutOwners(s: State, s': State, c: Camera)
    requires OwnersOk(s) && OwnerOk(s', c) && s'.cameras == s.cameras && s.nextId <= s'.nextId
    requires forall id | id in s.sources :: id in s'.sources && s'.sources[id] == s.sources[id]
    requires forall id | id in s'.sources :: id < s'.nextId
    ensures OwnersOk(Put(s', c))
  {
    var t := Put(s', c);
    forall k | k in t.cameras.rows ensures OwnerOk(t, t.cameras.rows[k]) {
      if k != c.identity.serial { assert OwnerOk(s, s.cameras.rows[k]); }
    }
  }

  lemma {:induction false} RecordedOwners(cfg: Config, s: State, call: Call)
    requires IsReport(call) && OwnersOk(s)
    ensures var s' := Recorded(cfg, s, call);
      && s'.cameras == s.cameras && s.nextId <= s'.nextId
      && (forall id | id in s.sources :: id in s'.sources && s'.sources[id] == s.sources[id])
      && (forall id | id in s'.sources :: id < s'.nextId)
  {}

  lemma {:induction false} ReportOwners(cfg: Config, s: State, call: Call)
    requires IsReport(call) && OwnersOk(s)
    ensures OwnersOk(Report(cfg, s, call).0)
  {
    if Accepted(s, call) {
      ReportedOwner(cfg, s, call);
      RecordedOwners(cfg, s, call);
      PutOwners(s, Recorded(cfg, s, call), Reported(cfg, s, call));
      hide OwnersOk, OwnerOk, Recorded, Reported;
    }
  }

  lemma {:induction false} CameraOwners(cfg: Config, s: State, call: Call)
    requires CamerasOk(s) && OwnersOk(s) && (call.RegisterCamera? || call.EnrichName? || call.SetMedia?)
    ensures OwnersOk(Apply(cfg, s, call).0)
  {
    var serial := if call.RegisterCamera? then call.identity.serial else call.serial;
    var s' := Apply(cfg, s, call).0;
    if s' != s {
      var c' := s'.cameras.rows[serial];
      if serial in s.cameras.rows { assert OwnerOk(s, s.cameras.rows[serial]); }
      PutOwners(s, s, c');
    }
  }

  lemma {:induction false} ApplyOwners(cfg: Config, s: State, call: Call)
    requires CamerasOk(s) && OwnersOk(s)
    ensures OwnersOk(Apply(cfg, s, call).0)
  {
    if IsReport(call) {
      ReportOwners(cfg, s, call);
      hide Report;
    } else if call.Fire? {
      ReportOwners(cfg, s.(timers := s.timers - {(call.serial, call.kind)}), ClearCall(call.serial, call.kind, s.now));
      hide Report;
    } else if call.RegisterCamera? || call.EnrichName? || call.SetMedia? {
      CameraOwners(cfg, s, call);
    } else {
      SameOwners(s, Apply(cfg, s, call).0);
      hide MergeSensor, OwnersOk;
    }
  }

  lemma {:induction false} SameOwners(s: State, s': State)
    requires OwnersOk(s) && s'.cameras == s.cameras && s'.sources == s.sources && s'.nextId == s.nextId
    ensures OwnersOk(s')
  {
    forall k | k in s'.cameras.rows ensures OwnerOk(s', s'.cameras.rows[k]) { assert OwnerOk(s, s.cameras.rows[k]); }
  }

  lemma {:induction false} RunOwners(cfg: Config, calls: seq<Call>)
    ensures OwnersOk(Run(cfg, calls))
    decreases |calls|
  {
    if calls != [] {
      RunOwners(cfg, calls[..|calls| - 1]);
      MotionIsAggregate(cfg, calls[..|calls| - 1]);
      ApplyOwners(cfg, Run(cfg, calls[..|calls| - 1]), calls[|calls| - 1]);
    }
  }

  /**
   * Enrichment over every run: it either changes nothing and emits nothing, or it
   * gives a name to the last detection, which was unnamed and was recorded by the
   * call that supplied this very identity. Only name and recognition change, and
   * the one event is the camera's state, never a second detection.
   */
  lemma {:induction false} EnrichNamesItsOwn(cfg: Config, calls: seq<Call>, serial: string, id: string, name: string, kind: Kind)
    ensures var s := Run(cfg, calls); var (s', es) := Apply(cfg, s, EnrichName(serial, id, name, kind));
      || (s' == s && es == [])
      || (&& serial in s.cameras.rows && s.cameras.rows[serial].last.Some? && cfg.normalize(name).Some?
          && var c := s.cameras.rows[serial]; var d := c.last.value;
             var c' := c.(last := Some(d.(personName := cfg.normalize(name), recognized := true)));
             && d.kind == kind && !d.recognized && d.id in s.sources && s.sources[d.id] == Some(id)
             && s' == s.(cameras := s.cameras.Set(serial, c')) && es == [CameraUpdated(View(c'))])
  {
    RunOwners(cfg, calls);
    MotionIsAggregate(cfg, calls);
    var s := Run(cfg, calls);
    if serial in s.cameras.rows { assert OwnerOk(s, s.cameras.rows[serial]); }
  }

  // ------------------------------------------------- names over the rest of a run

  /** The last detection could be named by some later call. */
  predicate Nameable(c: Camera) {
    && c.last.Some? && !c.last.value.recognized
    && ((c.last.value.kind == Person && c.personOwner.Some?) || (c.last.value.kind == Doorbell && c.doorbellOwner.Some?))
  }

  /** No detection numbered below `n` can be named on this camera. */
  ghost predicate Disowned(s: State, serial: string, n: nat) {
    n <= s.nextId && (serial in s.cameras.rows && Nameable(s.cameras.rows[serial]) ==> s.cameras.rows[serial].last.value.id >= n)
  }

  /** A call that gives a name, and the number of the detection it names. */
  ghost predicate Names(cfg: Config, s: State, call: Call, id: nat) {
    && call.EnrichName? && Apply(cfg, s, call).1 != []
    && call.serial in s.cameras.rows && s.cameras.rows[call.serial].last.Some? && s.cameras.rows[call.serial].last.value.id == id
  }

  lemma {:induction false} NamesNameable(cfg: Config, s: State, call: Call, id: nat, n: nat)
    requires CamerasOk(s) && Names(cfg, s, call, id) && Disowned(s, call.serial, n)
    ensures id >= n && Disowned(Apply(cfg, s, call).0, call.serial, s.nextId)
  {
    var c := s.cameras.rows[call.serial];
    assert c.identity.serial == call.serial && Nameable(c);
  }

  /** A report leaves its camera with a new detection, or with the old one no more nameable than before. */
  lemma {:induction false} ReportedDisowned(cfg: Config, s: State, call: Call)
    requires IsReport(call) && call.serial in s.cameras.rows
    ensures var c, c' := s.cameras.rows[call.serial], Reported(cfg, s, call);
      Nameable(c') ==> c'.last.value.id == s.nextId || (Nameable(c) && c'.last == c.last)
  {
    var c := s.cameras.rows[call.serial];
    FlaggedOwners(c, KindOf(call), call.detected);
    hide Flagged;
  }

  lemma {:induction false} ReportDisowned(cfg: Config, s: State, call: Call, serial: string, n: nat)
    requires IsReport(call) && CamerasOk(s) && Disowned(s, serial, n)
    ensures Disowned(Report(cfg, s, call).0, serial, n)
  {
    if Accepted(s, call) {
      ReportedDisowned(cfg, s, call);
      ReportedFlags(cfg, s, call);
      RecordedGrows(cfg, s, call);
      hide Reported, Recorded, Nameable;
    }
  }

  lemma {:induction false} RecordedGrows(cfg: Config, s: State, call: Call)
    requires IsReport(call)
    ensures var s' := Recorded(cfg, s, call); s'.cameras == s.cameras && s'.nextId >= s.nextId
  {}

  lemma {:induction false} StepDisowned(cfg: Config, s: State, call: Call, serial: string, n: nat)
    requires CamerasOk(s) && Disowned(s, serial, n)
    ensures Disowned(Apply(cfg, s, call).0, serial, n)
  {
    if IsReport(call) {
      ReportDisowned(cfg, s, call, serial, n);
      hide Report;
    } else if call.Fire? {
      var s1 := s.(timers := s.timers - {(call.serial, call.kind)});
      assert Disowned(s1, serial, n);
      ReportDisowned(cfg, s1, ClearCall(call.serial, call.kind, s.now), serial, n);
      hide Report;
    } else {
      OtherDisowned(cfg, s, call, serial, n);
    }
  }

  lemma {:induction false} OtherDisowned(cfg: Config, s: State, call: Call, serial: string, n: nat)
    requires CamerasOk(s) && Disowned(s, serial, n) && !IsReport(call) && !call.Fire?
    ensures Disowned(Apply(cfg, s, call).0, serial, n)
  {
    hide MergeSensor;
  }

  /** Once disowned, always disowned: whatever is named later is numbered `n` or higher. */
  lemma {:induction false} StaysDisowned(cfg: Config, calls: seq<Call>, i: nat, j: nat, serial: string, n: nat)
    requires i <= j <= |calls| && Disowned(Run(cfg, calls[..i]), serial, n)
    ensures Disowned(Run(cfg, calls[..j]), serial, n)
    decreases j - i
  {
    hide Disowned, Apply;
    if i < j {
      StaysDisowned(cfg, calls, i, j - 1, serial, n);
      MotionIsAggregate(cfg, calls[..j - 1]);
      StepDisowned(cfg, Run(cfg, calls[..j - 1]), calls[j - 1], serial, n);
      RunNext(cfg, calls, j - 1);
    }
  }

  lemma {:induction false} RunNext(cfg: Config, calls: seq<Call>, i: nat)
    requires i < |calls|
    ensures Run(cfg, calls[..i + 1]) == Apply(cfg, Run(cfg, calls[..i]), calls[i]).0
  {
    hide Apply;
    assert calls[..i + 1] == calls[..i] + [calls[i]];
    RunStep(cfg, calls[..i], calls[i]);
  }

  /** From a point where a camera is disowned on, every name goes to a later detection. */
  lemma {:induction false} LaterNames(cfg: Config, calls: seq<Call>, i: nat, j: nat, n: nat, id: nat)
    requires i <= j < |calls| && Names(cfg, Run(cfg, calls[..j]), calls[j], id)
    requires Disowned(Run(cfg, calls[..i]), calls[j].serial, n)
    ensures id >= n
  {
    hide Apply, Run;
    StaysDisowned(cfg, calls, i, j, calls[j].serial, n);
    MotionIsAggregate(cfg, calls[..j]);
    NamesNameable(cfg, Run(cfg, calls[..j]), calls[j], id, n);
  }

  // ------------------------------------------------ one detection, one name

  function LastId(s: State, k: string): Option<nat> {
    if k in s.cameras.rows && s.cameras.rows[k].last.Some? then Some(s.cameras.rows[k].last.value.id) else None
  }

  /** Detection numbers only grow, and no two cameras have the same last detection. */
  ghost predicate LastsOk(s: State) {
    && (forall k | LastId(s, k).Some? :: LastId(s, k).value < s.nextId)
    && forall j, k | j != k && LastId(s, j).Some? :: LastId(s, j) != LastId(s, k)
  }

  /** The last detection of one camera stays or, by a report of that camera, is a new one. */
  ghost predicate LastMoves(s: State, s': State, call: Call, k: string) {
    && s'.nextId >= s.nextId
    && (|| LastId(s', k) == LastId(s, k)
        || (IsReport(call) && call.serial == k && LastId(s', k) == Some(s.nextId) && s'.nextId == s.nextId + 1))
  }

  lemma {:induction false} ReportedLast(cfg: Config, s: State, call: Call)
    requires IsReport(call) && call.serial in s.cameras.rows
    ensures var c, c' := s.cameras.rows[call.serial], Reported(cfg, s, call);
      c'.last == c.last || (call.detected && c'.last == Some(NewDetection(cfg, s, call)))
  {
    FlaggedOwners(s.cameras.rows[call.serial], KindOf(call), call.detected);
    hide Flagged;
  }

  lemma {:induction false} ReportLast(cfg: Config, s: State, call: Call, k: string)
    requires IsReport(call) && CamerasOk(s)
    ensures LastMoves(s, Report(cfg, s, call).0, call, k)
  {
    if Accepted(s, call) {
      ReportedLast(cfg, s, call);
      ReportedFlags(cfg, s, call);
      RecordedNumbers(cfg, s, call);
      hide Reported, Recorded;
    }
  }

  lemma {:induction false} RecordedNumbers(cfg: Config, s: State, call: Call)
    requires IsReport(call)
    ensures var s' := Recorded(cfg, s, call);
      s'.cameras == s.cameras && s'.nextId == if call.detected then s.nextId + 1 else s.nextId
  {}

  lemma {:induction false} ClearLast(cfg: Config, s: State, call: Call, k: string)
    requires CamerasOk(s) && call.Fire?
    ensures LastMoves(s, Apply(cfg, s, call).0, call, k)
  {
    var s1 := s.(timers := s.timers - {(call.serial, call.kind)});
    var clear := ClearCall(call.serial, call.kind, s.now);
    if Accepted(s1, clear) {
      ReportedLast(cfg, s1, clear);
      ReportedFlags(cfg, s1, clear);
      RecordedNumbers(cfg, s1, clear);
      hide Reported, Recorded;
    }
  }

  lemma {:induction false} OtherLast(cfg: Config, s: State, call: Call, k: string)
    requires CamerasOk(s) && !IsReport(call) && !call.Fire?
    ensures LastMoves(s, Apply(cfg, s, call).0, call, k)
  {
    hide MergeSensor;
  }

  lemma {:induction false} StepLast(cfg: Config, s: State, call: Call, k: string)
    requires CamerasOk(s)
    ensures LastMoves(s, Apply(cfg, s, call).0, call, k)
  {
    if IsReport(call) {
      hide Report;
      ReportLast(cfg, s, call, k);
    } else if call.Fire? {
      ClearLast(cfg, s, call, k);
    } else {
      OtherLast(cfg, s, call, k);
    }
  }

  lemma {:induction false} RunLasts(cfg: Config, calls: seq<Call>)
    ensures LastsOk(Run(cfg, calls))
    decreases |calls|
  {
    hide Apply, LastId;
    if calls != [] {
      var init, call := calls[..|calls| - 1], calls[|calls| - 1];
      var s, s' := Run(cfg, init), Run(cfg, calls);
      RunLasts(cfg, init);
      MotionIsAggregate(cfg, init);
      forall k ensures LastMoves(s, s', call, k) { StepLast(cfg, s, call, k); }
      LastsStep(s, s', call);
    } else {
      NoLasts();
    }
  }

  lemma {:induction false} LastsStep(s: State, s': State, call: Call)
    requires LastsOk(s) && forall k :: LastMoves(s, s', call, k)
    ensures LastsOk(s')
  {
    hide LastId;
    forall k | LastId(s', k).Some? ensures LastId(s', k).value < s'.nextId { assert LastMoves(s, s', call, k); }
    forall j, k | j != k && LastId(s', j).Some? ensures LastId(s', j) != LastId(s', k) {
      assert LastMoves(s, s', call, j) && LastMoves(s, s', call, k);
    }
  }

  lemma {:induction false} NoLasts()
    ensures LastsOk(INITIAL)
  {}

  /** A detection another camera holds never becomes this camera's. */
  lemma {:induction false} StaysElsewhere(cfg: Config, calls: seq<Call>, i: nat, j: nat, k: string, id: nat)
    requires i <= j <= |calls| && id < Run(cfg, calls[..i]).nextId && LastId(Run(cfg, calls[..i]), k) != Some(id)
    ensures id < Run(cfg, calls[..j]).nextId && LastId(Run(cfg, calls[..j]), k) != Some(id)
    decreases j - i
  {
    hide Apply, LastId, Run;
    if i < j {
      StaysElsewhere(cfg, calls, i, j - 1, k, id);
      MotionIsAggregate(cfg, calls[..j - 1]);
      StepLast(cfg, Run(cfg, calls[..j - 1]), calls[j - 1], k);
      RunNext(cfg, calls, j - 1);
    }
  }

  /** Enrichment succeeds at most once per detection over every run, whoever asks and for whichever camera. */
  lemma {:induction false} NamedAtMostOnce(cfg: Config, calls: seq<Call>, i: nat, j: nat, first: nat, second: nat)
    requires i < j < |calls|
    requires Names(cfg, Run(cfg, calls[..i]), calls[i], first) && Names(cfg, Run(cfg, calls[..j]), calls[j], second)
    ensures first != second
  {
    hide Apply, Run, Disowned;
    var s := Run(cfg, calls[..i]);
    RunLasts(cfg, calls[..i]);
    MotionIsAggregate(cfg, calls[..i]);
    assert LastId(s, calls[i].serial) == Some(first);
    if calls[i].serial == calls[j].serial {
      NamedDisowns(cfg, s, calls[i], first);
      RunNext(cfg, calls, i);
      LaterNames(cfg, calls, i + 1, j, s.nextId, second);
    } else {
      StaysElsewhere(cfg, calls, i, j, calls[j].serial, first);
      assert LastId(Run(cfg, calls[..j]), calls[j].serial) == Some(second);
    }
  }

  lemma {:induction false} NamedDisowns(cfg: Config, s: State, call: Call, id: nat)
    requires CamerasOk(s) && Names(cfg, s, call, id)
    ensures Disowned(Apply(cfg, s, call).0, call.serial, s.nextId)
  {
    assert Disowned(s, call.serial, 0);
    NamesNameable(cfg, s, call, id, 0);
  }

  /**
   * After a camera is bound to another station or model, for the rest of the run every
   * name goes to a detection recorded since.
   */
  lemma {:induction false} RebindingRefuses(cfg: Config, calls: seq<Call>, i: nat, j: nat, id: nat)
    requires i < j < |calls| && calls[i].RegisterCamera?
    requires var s, identity := Run(cfg, calls[..i]), calls[i].identity;
      && identity.serial in s.cameras.rows
      && var old' := s.cameras.rows[identity.serial].identity;
         old'.stationSerial != identity.stationSerial || old'.model != identity.model
    requires Names(cfg, Run(cfg, calls[..j]), calls[j], id) && calls[j].serial == calls[i].identity.serial
    ensures id >= Run(cfg, calls[..i]).nextId
  {
    hide Run, Names;
    RebindDisowns(cfg, Run(cfg, calls[..i]), calls[i].identity);
    RunNext(cfg, calls, i);
    LaterNames(cfg, calls, i + 1, j, Run(cfg, calls[..i]).nextId, id);
  }

  lemma {:induction false} RebindDisowns(cfg: Config, s: State, identity: Identity)
    requires identity.serial in s.cameras.rows
    requires var old' := s.cameras.rows[identity.serial].identity;
      old'.stationSerial != identity.stationSerial || old'.model != identity.model
    ensures Disowned(Apply(cfg, s, RegisterCamera(identity)).0, identity.serial, s.nextId)
  {}

  /** After an anonymous button press, for the rest of the run every name goes to a detection recorded since. */
  lemma {:induction false} AnonymousPressRefuses(cfg: Config, calls: seq<Call>, i: nat, j: nat, at: int, id: nat)
    requires i < j < |calls| && calls[j].EnrichName? && calls[i] == RecordDoorbell(calls[j].serial, true, at, None, None)
    requires Accepted(Run(cfg, calls[..i]), calls[i]) && Names(cfg, Run(cfg, calls[..j]), calls[j], id)
    ensures id > Run(cfg, calls[..i]).nextId
  {
    hide Run, Names;
    var s := Run(cfg, calls[..i]);
    MotionIsAggregate(cfg, calls[..i]);
    PressDisowns(cfg, s, calls[j].serial, at);
    RunNext(cfg, calls, i);
    LaterNames(cfg, calls, i + 1, j, s.nextId + 1, id);
  }

  lemma {:induction false} PressDisowns(cfg: Config, s: State, serial: string, at: int)
    requires CamerasOk(s) && Accepted(s, RecordDoorbell(serial, true, at, None, None))
    ensures Disowned(Apply(cfg, s, RecordDoorbell(serial, true, at, None, None)).0, serial, s.nextId + 1)
  {
    var call := RecordDoorbell(serial, true, at, None, None);
    FlaggedOwners(s.cameras.rows[serial], Doorbell, true);
    ReportedFlags(cfg, s, call);
    hide Flagged, CamerasOk;
  }

  /** Once a camera has a newer last detection, no earlier one can be named for the rest of the run. */
  lemma {:induction false} NewerRefuses(cfg: Config, calls: seq<Call>, i: nat, j: nat, id: nat)
    requires i <= j < |calls| && calls[j].EnrichName? && LastId(Run(cfg, calls[..i]), calls[j].serial).Some?
    requires Names(cfg, Run(cfg, calls[..j]), calls[j], id)
    ensures id >= LastId(Run(cfg, calls[..i]), calls[j].serial).value
  {
    hide Run, Names, Nameable;
    var s := Run(cfg, calls[..i]);
    RunLasts(cfg, calls[..i]);
    assert Disowned(s, calls[j].serial, LastId(s, calls[j].serial).value);
    LaterNames(cfg, calls, i, j, LastId(s, calls[j].serial).value, id);
  }

  // ------------------------------------------------------------------ the tables

  /** Each family is a map in insertion order, under its members' own serials. */
  ghost predicate TablesOk(s: State) {
    && CamerasOk(s)
    && s.stations.Valid() && (forall k | k in s.stations.rows :: s.stations.rows[k].serial == k)
    && s.sensors.Valid() && (forall k | k in s.sensors.rows :: s.sensors.rows[k].serial == k)
  }

  lemma {:induction false} SetKeepsValid<V>(t: Table<V>, key: string, v: V)
    requires t.Valid()
    ensures t.Set(key, v).Valid()
  {
    if key !in t.rows {
      assert forall k :: k in t.order + [key] <==> k in t.order || k == key;
    }
  }

  lemma {:induction false} ApplyTables(cfg: Config, s: State, call: Call)
    requires TablesOk(s)
    ensures TablesOk(Apply(cfg, s, call).0)
  {
    ApplyCameras(cfg, s, call);
    var s' := Apply(cfg, s, call).0;
    if call.RegisterStation? {
      SetKeepsValid(s.stations, call.station.serial, call.station);
    } else if call.RegisterSensor? || call.UpdateContact? || call.RecordSensor? {
      if s'.sensors != s.sensors {
        var serial := if call.RegisterSensor? then call.sensor.serial else call.serial;
        SetKeepsValid(s.sensors, serial, s'.sensors.rows[serial]);
      }
    } else {
      hide Report, CamerasOk;
      SameFamilies(cfg, s, call);
    }
  }

  lemma {:induction false} SameFamilies(cfg: Config, s: State, call: Call)
    requires !call.RegisterStation? && !call.RegisterSensor? && !call.UpdateContact? && !call.RecordSensor?
    ensures var s' := Apply(cfg, s, call).0; s'.stations == s.stations && s'.sensors == s.sensors
  {
    hide Reported;
  }

  lemma {:induction false} RunTables(cfg: Config, calls: seq<Call>)
    ensures TablesOk(Run(cfg, calls))
    decreases |calls|
  {
    if calls != [] {
      RunTables(cfg, calls[..|calls| - 1]);
      ApplyTables(cfg, Run(cfg, calls[..|calls| - 1]), calls[|calls| - 1]);
    }
  }

  lemma {:induction false} ReportTables(cfg: Config, s: State, call: Call)
    requires TablesOk(s) && IsReport(call)
    ensures TablesOk(Report(cfg, s, call).0)
  {
    if Accepted(s, call) {
      ReportCamera(cfg, s, call);
      hide Reported, CamerasOk;
    }
  }

  /** What everyone sees after an accepted report: the flag, its timer, the aggregate and the announced camera. */
  ghost predicate Shows(s: State, es: seq<Event>, serial: string, k: Kind, detected: bool) {
    && serial in s.cameras.rows && (k in s.cameras.rows[serial].raised <==> detected)
    && ((serial, k) in s.timers <==> detected)
    && s.cameras.rows[serial].motionDetected == (s.cameras.rows[serial].raised * VISUAL != {})
    && es != [] && es[|es| - 1] == CameraUpdated(View(s.cameras.rows[serial]))
  }

  lemma {:induction false} ReportShows(cfg: Config, s: State, call: Call)
    requires CamerasOk(s) && IsReport(call) && Accepted(s, call)
    ensures var (s', es) := Report(cfg, s, call); Shows(s', es, call.serial, KindOf(call), call.detected)
  {
    ReportMoves(cfg, s, call, (call.serial, KindOf(call)));
    ReportedFlags(cfg, s, call);
    hide Reported;
  }

  lemma {:induction false} SameTables(s: State, s': State)
    requires TablesOk(s) && s'.cameras == s.cameras && s'.stations == s.stations && s'.sensors == s.sensors
    ensures TablesOk(s')
  {}

  lemma {:induction false} HasCameras(s: State)
    requires TablesOk(s)
    ensures CamerasOk(s)
  {}
}
