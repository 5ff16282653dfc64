/**
 * What a diagnostic capture keeps: never media without consent, never anything of a device
 * outside the selection, and exactly what arrives while it runs within its limits.
 */
module BundleConsent {
  import opened Basics
  import opened BundleCapture
  import opened DiagnosticBundle

  // ------------------------------------------------------- consent and selection

  predicate Selected(s: State, serial: string) { s.options.everything || serial in s.selected }

  /** The pseudonym stands for a selected device. */
  predicate Owned(s: State, device: nat) {
    exists serial | serial in s.ids :: s.ids[serial] == device && Selected(s, serial)
  }

  ghost predicate Consented(s: State) {
    && (!s.options.media ==> s.media == [])
    && (forall i | 0 <= i < |s.records| && s.records[i].device.Some? :: Owned(s, s.records[i].device.value))
    && (forall i | 0 <= i < |s.media| :: Owned(s, s.media[i].device))
  }

  /** More pseudonyms and a larger selection keep every owner. */
  ghost predicate Extends(s: State, s': State) {
    && s'.options == s.options && s.selected <= s'.selected
    && forall k | k in s.ids :: k in s'.ids && s'.ids[k] == s.ids[k]
  }

  lemma {:induction false} ExtendsOwns(s: State, s': State, device: nat)
    requires Extends(s, s') && Owned(s, device)
    ensures Owned(s', device)
  {
    var serial :| serial in s.ids && s.ids[serial] == device && Selected(s, serial);
    assert serial in s'.ids && s'.ids[serial] == device && Selected(s', serial);
  }

  lemma {:induction false} SameConsented(s: State, s': State)
    requires Consented(s) && Extends(s, s') && s'.records == s.records && s'.media == s.media
    ensures Consented(s')
  {
    hide Owned, Extends;
    assert s'.options == s.options by { ExtendsOptions(s, s'); }
    forall i | 0 <= i < |s.records| && s.records[i].device.Some? ensures Owned(s', s.records[i].device.value) {
      ExtendsOwns(s, s', s.records[i].device.value);
    }
    forall i | 0 <= i < |s.media| ensures Owned(s', s.media[i].device) { ExtendsOwns(s, s', s.media[i].device); }
  }

  lemma {:induction false} ExtendsOptions(s: State, s': State)
    requires Extends(s, s')
    ensures s'.options == s.options
  {}

  lemma {:induction false} IdentifyExtends(s: State, serial: string)
    ensures var s' := Identify(s, serial);
      && Extends(s, s') && serial in s'.ids && s' == s.(ids := s'.ids) && (Selected(s, serial) ==> Owned(s', s'.ids[serial]))
  {
    var s' := Identify(s, serial);
    if Selected(s, serial) { assert serial in s'.ids && s'.ids[serial] == s'.ids[serial] && Selected(s', serial); }
  }

  lemma {:induction false} ExpireConsented(s: State, clock: Readings)
    requires Consented(s)
    ensures Consented(Expire(s, clock)) && Expire(s, clock).options == s.options
    ensures Expire(s, clock).phase == Active ==> Expire(s, clock).selected == s.selected
  {
    hide Elapsed, Owned;
    if !Gone(Expire(s, clock)) || Gone(s) { SameConsented(s, Expire(s, clock)); }
  }

  lemma {:induction false} RecordConsented(s: State, stamp: real, event: string, serial: Option<string>, details: nat)
    requires Consented(s) && (serial.Some? ==> Selected(s, serial.value))
    ensures Consented(AddRecord(s, stamp, event, serial, details)) && AddRecord(s, stamp, event, serial, details).options == s.options
  {
    hide Elapsed, Owned, Extends, Identify, Selected;
    var s1 := if serial.Some? then Identify(s, serial.value) else s;
    if serial.Some? {
      IdentifyExtends(s, serial.value);
      SameConsented(s, s1);
    }
    var s' := AddRecord(s, stamp, event, serial, details);
    OwnersStay(s1, s');
  }

  /** Adding evidence changes no owner. */
  lemma {:induction false} OwnersStay(s: State, s': State)
    requires s'.ids == s.ids && s'.selected == s.selected && s'.options == s.options
    ensures forall device: nat :: Owned(s', device) <==> Owned(s, device)
  {}

  lemma {:induction false} MediaConsented(s: State, stamp: real, serial: string, kind: MediaKind, codec: Codec, data: bytes)
    requires Consented(s) && s.options.media && Selected(s, serial)
    ensures Consented(AddMedia(s, stamp, serial, kind, codec, data)) && AddMedia(s, stamp, serial, kind, codec, data).options == s.options
  {
    hide Elapsed, Owned, Extends, Identify, Selected;
    var s1 := Identify(s, serial);
    IdentifyExtends(s, serial);
    SameConsented(s, s1);
    OwnersStay(s1, AddMedia(s, stamp, serial, kind, codec, data));
  }

  lemma {:induction false} AllExtends(s: State, serials: seq<string>)
    ensures var s' := IdentifyAll(s, serials); Extends(s, s') && s' == s.(ids := s'.ids)
    decreases |serials|
  {
    hide Identify;
    if serials != [] {
      AllExtends(s, serials[..|serials| - 1]);
      IdentifyExtends(IdentifyAll(s, serials[..|serials| - 1]), serials[|serials| - 1]);
    }
  }

  lemma {:induction false} ExportConsented(s: State, first: Readings, serials: seq<string>, second: Readings)
    requires Consented(s)
    ensures Consented(ExportStep(s, first, serials, second)) && ExportStep(s, first, serials, second).options == s.options
  {
    hide Expire, Consented, IdentifyAll, Extends;
    ExpireConsented(s, first);
    var s1 := Expire(s, first);
    if !Gone(s1) {
      var s2 := StopWith(s1, Stopped);
      StopConsented(s1, Stopped);
      AllExtends(s2, serials);
      SameConsented(s2, IdentifyAll(s2, serials));
      ExpireConsented(IdentifyAll(s2, serials), second);
    }
  }

  lemma {:induction false} StopConsented(s: State, reason: Phase)
    requires Consented(s)
    ensures Consented(StopWith(s, reason)) && Consented(Drop(s, reason))
  {
    SameConsented(s, StopWith(s, reason));
    SameConsented(s, Drop(s, reason));
  }

  lemma {:induction false} StepConsented(s: State, step: Step)
    requires Consented(s)
    ensures Consented(Apply(s, step)) && Apply(s, step).options == s.options
  {
    hide Consented, Expire, AddRecord, AddMedia, IdentifyAll, Identify, Extends, Selected;
    match step {
      case Select(serial) => SelectConsented(s, serial);
      case Note(clock, event, serial, details) =>
        ExpireConsented(s, clock);
        var s' := Expire(s, clock);
        StopConsented(s', RecordLimit);
        IncludesSelected(s');
        if serial.None? || Includes(s', serial.value) { RecordConsented(s', clock.stamp, event, serial, details); }
      case Transport(clock, serial, details) =>
        ExpireConsented(s, clock);
        var s' := Expire(s, clock);
        StopConsented(s', RecordLimit);
        IncludesSelected(s');
        if Includes(s', serial) { RecordConsented(s', clock.stamp, "source-transport", Some(serial), details); }
      case Sample(clock, serial, kind, codec, data) =>
        ExpireConsented(s, clock);
        var s' := Expire(s, clock);
        StopConsented(s', RecordLimit);
        StopConsented(s', SizeLimit);
        IncludesSelected(s');
        if s.options.media && Includes(s', serial) { MediaConsented(s', clock.stamp, serial, kind, codec, data); }
      case Stop(reason) => StopConsented(s, reason);
      case Clear(reason) => ClearConsented(s, reason);
      case Status(clock) => ExpireConsented(s, clock);
      case Export(first, serials, second) => ExportConsented(s, first, serials, second);
    }
  }

  lemma {:induction false} IncludesSelected(s: State)
    ensures forall serial :: Includes(s, serial) <==> Selected(s, serial)
  {}

  lemma {:induction false} ClearConsented(s: State, reason: Phase)
    ensures Consented(ClearWith(s, reason))
  {}

  lemma {:induction false} SelectConsented(s: State, serial: string)
    requires Consented(s)
    ensures var s' := Identify(s.(selected := s.selected + {serial}), serial); Consented(s') && s'.options == s.options
  {
    hide Owned, Identify;
    var s1 := s.(selected := s.selected + {serial});
    SameConsented(s, s1);
    IdentifyExtends(s1, serial);
    SameConsented(s1, Identify(s1, serial));
  }

  lemma {:induction false} RunConsented(s: State, steps: seq<Step>)
    requires Consented(s)
    ensures Consented(Run(s, steps)) && Run(s, steps).options == s.options
    decreases |steps|
  {
    hide Consented, Apply;
    if steps != [] {
      StepConsented(s, steps[0]);
      RunConsented(Apply(s, steps[0]), steps[1..]);
    }
  }

  /**
   * Over every run, on any clock: without consent to media there is none, in the session or
   * in an export, and every pseudonym beside a kept record or chunk stands for a device of
   * the selection.
   */
  lemma {:induction false} NothingUnasked(digest: bytes -> string, options: Options, started: real, steps: seq<Step>,
                                         first: Readings, serials: seq<string>, second: Readings)
    ensures Consented(Run(Initial(options, started), steps))
    ensures var s := Run(Initial(options, started), steps); var archive := Exported(digest, s, first, serials, second);
      archive.Some? && !options.media ==> archive.value.media == []
    ensures var s := Run(Initial(options, started), steps); !options.media ==> s.media == []
  {
    hide Apply, Run, ExportStep, Expire, Owned;
    var s0 := Initial(options, started);
    RunConsented(s0, steps);
    ExportConsented(Run(s0, steps), first, serials, second);
  }

  // ------------------------------------------------------------ what is kept

  /** Milliseconds since the start, rounded half up, and none before it. */
  lemma {:induction false} ElapsedIs(s: State, t: real, ms: int)
    ensures Elapsed(s, t) == ms <==>
      if t - s.started < 0.5 then ms == 0 else ms as real - 0.5 <= t - s.started < ms as real + 0.5
  {}

  lemma {:induction false} SameStart(s: State, s': State, t: real)
    requires s'.started == s.started
    ensures Elapsed(s', t) == Elapsed(s, t)
  {}

  /** The capture is active and neither its ten minutes nor its chosen seconds are over. */
  predicate Capturing(s: State, clock: Readings) {
    s.phase.Active? && Elapsed(s, clock.retention) < 600000 && Elapsed(s, clock.duration) < s.options.seconds * 1000
  }

  /** The evidence is gone once its ten minutes are over, and only then. */
  lemma {:induction false} ExpiryErases(s: State, clock: Readings)
    ensures var s' := Expire(s, clock);
      && (Elapsed(s, clock.retention) >= 600000 && !Gone(s) ==>
            s' == State(s.options, s.started, clock.stamp, map[], {}, [], [], 0, s.dropped, Expired))
      && (Elapsed(s, clock.retention) < 600000 || Gone(s) ==>
            s' == s.(now := clock.stamp, phase := if s.phase.Active? && !Capturing(s, clock) then DurationLimit else s.phase))
  {
    hide Elapsed;
  }

  /** The new last chunk, under the pseudonym of its device. */
  ghost predicate KeptMedia(s: State, s': State, serial: string, m: Media) {
    && s'.media == s.media + [m] && s'.bytes == s.bytes + |m.data| && serial in s'.ids && s'.ids[serial] == m.device
    && s' == Identify(s, serial).(now := s'.now, media := s'.media, bytes := s'.bytes)
  }

  /**
   * Media is kept exactly with consent, while the capture runs, for a selected device,
   * when it is not empty and fits both limits. A chunk that meets a limit ends the capture.
   */
  lemma {:induction false} MediaKeptIff(s: State, clock: Readings, serial: string, kind: MediaKind, codec: Codec, data: bytes)
    ensures var s' := Apply(s, Sample(clock, serial, kind, codec, data));
      var offered := s.options.media && Capturing(s, clock) && Selected(s, serial) && data != [];
      var tooLong, tooMany := s.bytes + |data| > 67108864, |s.records| + |s.media| >= 20000;
      && (offered && !tooLong && !tooMany ==> exists m ::
            KeptMedia(s, s', serial, m) && m == Media(Elapsed(s, clock.stamp), m.device, kind, codec, data))
      && (offered && (tooLong || tooMany) ==>
            s' == s.(now := clock.stamp, dropped := s.dropped + 1, phase := if tooLong then SizeLimit else RecordLimit))
      && (!offered ==> s' == if s.options.media then Expire(s, clock) else s)
  {
    hide Elapsed, Identify;
    ExpiryErases(s, clock);
    IdentifyExtends(s, serial);
    var m := Media(Elapsed(s, clock.stamp), Identify(s, serial).ids[serial], kind, codec, data);
    var s' := Apply(s, Sample(clock, serial, kind, codec, data));
    IdentifyLater(s, clock.stamp, serial);
    SameStart(s, s.(now := clock.stamp), clock.stamp);
    if s.options.media && Capturing(s, clock) && Selected(s, serial) && data != []
       && s.bytes + |data| <= 67108864 && |s.records| + |s.media| < 20000 {
      assert KeptMedia(s, s', serial, m);
    }
  }

  lemma {:induction false} IdentifyLater(s: State, now: real, serial: string)
    ensures Identify(s.(now := now), serial) == Identify(s, serial).(now := now)
  {}

  /**
   * A record is kept exactly while the capture runs, for no device or a selected one, below
   * the record limit; at the limit it ends the capture, and only an event counts as dropped.
   */
  lemma {:induction false} RecordKeptIff(s: State, clock: Readings, event: string, serial: Option<string>, details: nat)
    ensures var s' := Apply(s, Note(clock, event, serial, details));
      var offered := Capturing(s, clock) && (serial == None || Selected(s, serial.value));
      && (offered && |s.records| + |s.media| < 20000 ==>
            && |s'.records| == |s.records| + 1 && s'.records[..|s.records|] == s.records && s'.media == s.media
            && s'.dropped == s.dropped && s'.phase.Active?
            && var r := s'.records[|s.records|];
               && r.offsetMs == Elapsed(s, clock.stamp) && r.event == event && r.details == details
               && (serial == None <==> r.device == None)
               && (serial != None ==> serial.value in s'.ids && r.device == Some(s'.ids[serial.value])))
      && (offered && |s.records| + |s.media| >= 20000 ==>
            s' == s.(now := clock.stamp, dropped := s.dropped + 1, phase := RecordLimit))
      && (!offered ==> s' == Expire(s, clock))
  {
    hide Elapsed, Identify;
    ExpiryErases(s, clock);
    SameStart(s, s.(now := clock.stamp), clock.stamp);
    if serial.Some? {
      IdentifyExtends(s, serial.value);
      IdentifyLater(s, clock.stamp, serial.value);
    }
  }

  lemma {:induction false} TransportKeptIff(s: State, clock: Readings, serial: string, details: nat)
    ensures var s' := Apply(s, Transport(clock, serial, details));
      var offered := Capturing(s, clock) && Selected(s, serial);
      && (offered && |s.records| + |s.media| < 20000 ==>
            s' == Apply(s, Note(clock, "source-transport", Some(serial), details)))
      && (offered && |s.records| + |s.media| >= 20000 ==> s' == s.(now := clock.stamp, phase := RecordLimit))
      && (!offered ==> s' == Expire(s, clock))
  {
    hide Elapsed, Identify;
    ExpiryErases(s, clock);
  }

  /** Stopping ends an active capture and keeps its evidence; clearing erases all of it, pseudonyms and selection included. */
  lemma {:induction false} StopKeepsClearErases(s: State, reason: Phase)
    ensures Apply(s, Stop(reason)) == if s.phase.Active? then s.(phase := reason) else s
    ensures Apply(s, Clear(reason)) == State(s.options, s.started, s.now, map[], {}, [], [], 0, s.dropped, reason)
  {}
}
