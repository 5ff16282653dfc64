/**
 * What a camera remembers: its last detection and who may still name it, after every
 * call and over the runs in which nothing newer replaces it.
 */
module GatewayMemory {
  import opened Basics
  import opened Gateway
  import opened GatewayTheorems

  /** The nine detections by name: the audio kinds and the button are not among them. */
  predicate AnyOfNine(raised: set<Kind>) {
    || Motion in raised || Person in raised || Stranger in raised || Pet in raised || Vehicle in raised || Dog in raised
    || PackageDelivered in raised || PackageTaken in raised || PackageStranded in raised
  }

  lemma {:induction false} VisualIsNine(raised: set<Kind>)
    ensures raised * VISUAL != {} <==> AnyOfNine(raised)
  {
    if AnyOfNine(raised) {
      var k :| k in raised && k in VISUAL;
      assert k in raised * VISUAL;
    } else {
      assert raised * VISUAL == {};
    }
  }

  /** Over every run a camera shows motion exactly while one of those nine flags is set. */
  lemma {:induction false} MotionIsAnyOfNine(cfg: Config, calls: seq<Call>, serial: string)
    requires serial in Run(cfg, calls).cameras.rows
    ensures var c := Run(cfg, calls).cameras.rows[serial]; c.motionDetected <==> AnyOfNine(c.raised)
  {
    hide Run, AnyOfNine;
    MotionIsAggregate(cfg, calls);
    VisualIsNine(Run(cfg, calls).cameras.rows[serial].raised);
  }

  // ------------------------------------------------------------ one raise

  /** A person seen at most ten seconds before `at`. */
  predicate SeenLately(last: Option<Detection>, at: int) {
    last.Some? && last.value.kind.Person? && last.value.occurredAt <= at <= last.value.occurredAt + 10000
  }

  /** The supplied name, when it names somebody. */
  function Named(cfg: Config, text: Option<string>): Option<string> {
    match text
    case None => None
    case Some(name) => cfg.normalize(name)
  }

  /** The detection a raise makes, under the number `n`. */
  function Seen(cfg: Config, n: nat, call: Call): Detection
    requires IsReport(call)
  {
    match call
    case RecordMotion(_, _, at) => Detection(n, Motion, at, None, false)
    case RecordPerson(_, _, name, at, _) => Detection(n, Person, at, Named(cfg, name), Named(cfg, name) != None)
    case RecordDetection(_, kind, _, at) => Detection(n, kind, at, None, false)
    case RecordDoorbell(_, _, at, name, _) => Detection(n, Doorbell, at, Named(cfg, name), Named(cfg, name) != None)
  }

  /** The last detection of the camera after a raise: motion spares a recent person, and an anonymous press a named detection. */
  function LastAfterRaise(cfg: Config, n: nat, last: Option<Detection>, call: Call): Option<Detection>
    requires IsReport(call)
  {
    match call
    case RecordMotion(_, _, at) => if SeenLately(last, at) then last else Some(Seen(cfg, n, call))
    case RecordDoorbell(_, _, _, name, source) =>
      if source == None && Named(cfg, name) == None && last != None && last.value.recognized then last
      else Some(Seen(cfg, n, call))
    case _ => Some(Seen(cfg, n, call))
  }

  lemma {:induction false} FlagKeepsMemory(c: Camera, k: Kind, detected: bool)
    ensures var c' := Flagged(c, k, detected);
      && c'.last == c.last && c'.personOwner == c.personOwner && c'.doorbellOwner == c.doorbellOwner
      && c'.identity == c.identity && c'.media == c.media
  {}

  lemma {:induction false} ReportedMemory(cfg: Config, s: State, call: Call)
    requires IsReport(call) && call.serial in s.cameras.rows
    ensures var c, c' := s.cameras.rows[call.serial], Reported(cfg, s, call);
      && c'.identity == c.identity && c'.media == c.media
      && c'.last == (if call.detected then LastAfterRaise(cfg, s.nextId, c.last, call) else c.last)
      && c'.personOwner == (if call.detected && call.RecordPerson? then call.identityOf else c.personOwner)
      && c'.doorbellOwner == (if call.detected && call.RecordDoorbell? then call.identityOf else c.doorbellOwner)
  {
    FlagKeepsMemory(s.cameras.rows[call.serial], KindOf(call), call.detected);
    hide Flagged;
  }

  /** A report of a known camera; a button needs support, and AI reports have the other kinds. */
  predicate Heard(s: State, call: Call)
    requires IsReport(call)
  {
    call.serial in s.cameras.rows && match call
      case RecordDoorbell(_, _, _, _, _) => s.cameras.rows[call.serial].identity.doorbellSupported
      case RecordDetection(_, kind, _, _) => !kind.Motion? && !kind.Person? && !kind.Doorbell?
      case _ => true
  }

  /** What a report does to the memory of its camera; all other cameras and all metadata stay. */
  ghost predicate Remembers(cfg: Config, s: State, s': State, call: Call)
    requires IsReport(call) && call.serial in s.cameras.rows
  {
    && call.serial in s'.cameras.rows
    && var c, c' := s.cameras.rows[call.serial], s'.cameras.rows[call.serial];
       && s'.cameras.rows == s.cameras.rows[call.serial := c'] && c'.identity == c.identity && c'.media == c.media
       && s'.nextId == (if call.detected then s.nextId + 1 else s.nextId)
       && c'.last == (if call.detected then LastAfterRaise(cfg, s.nextId, c.last, call) else c.last)
       && c'.personOwner == (if call.detected && call.RecordPerson? then call.identityOf else c.personOwner)
       && c'.doorbellOwner == (if call.detected && call.RecordDoorbell? then call.identityOf else c.doorbellOwner)
  }

  lemma {:induction false} HeardIsAccepted(s: State, call: Call)
    requires IsReport(call)
    ensures Heard(s, call) <==> Accepted(s, call)
  {}

  lemma {:induction false} ReportMemory(cfg: Config, s: State, call: Call)
    requires IsReport(call) && CamerasOk(s)
    ensures Heard(s, call) ==> Remembers(cfg, s, Report(cfg, s, call).0, call) && Remembers(cfg, s, Apply(cfg, s, call).0, call)
    ensures !Heard(s, call) ==> Report(cfg, s, call) == (s, []) && Apply(cfg, s, call) == (s, [])
  {
    HeardIsAccepted(s, call);
    hide Heard;
    if Accepted(s, call) {
      ReportedMemory(cfg, s, call);
      RecordedNumbers(cfg, s, call);
    }
    hide Reported, Recorded, LastAfterRaise, Named;
  }

  /** A raise announces its detection, and every report the whole camera after it. */
  lemma {:induction false} ReportAnnounces(cfg: Config, s: State, call: Call)
    requires IsReport(call) && CamerasOk(s) && Heard(s, call)
    ensures var (s', es) := Apply(cfg, s, call); var c' := s'.cameras.rows[call.serial];
      es == (if call.detected then [DetectionEvent(call.serial, Seen(cfg, s.nextId, call))] else [])
            + [CameraUpdated(CameraView(c'.identity, c'.raised, c'.motionDetected, c'.last, c'.media))]
  {
    HeardIsAccepted(s, call);
    ReportedFlags(cfg, s, call);
    hide Reported, Recorded;
  }

  /**
   * Over every run, the last detection after a raise: motion leaves a person seen in the
   * last ten seconds, an anonymous press leaves a named detection, and everything else is
   * remembered under its own kind, time, name and a number no camera has yet. A report
   * that is not heard changes nothing.
   */
  lemma {:induction false} LastAfter(cfg: Config, calls: seq<Call>, call: Call)
    requires IsReport(call)
    ensures var s, s' := Run(cfg, calls), Run(cfg, calls + [call]);
      if Heard(s, call) then Remembers(cfg, s, s', call) else s' == s
    ensures var s := Run(cfg, calls);
      forall k | k in s.cameras.rows && s.cameras.rows[k].last.Some? :: s.cameras.rows[k].last.value.id < s.nextId
  {
    hide Apply, Heard, Remembers, CamerasOk;
    MotionIsAggregate(cfg, calls);
    RunStep(cfg, calls, call);
    ReportMemory(cfg, Run(cfg, calls), call);
    RunLasts(cfg, calls);
    NumbersBelow(Run(cfg, calls));
  }

  lemma {:induction false} NumbersBelow(s: State)
    requires LastsOk(s)
    ensures forall k | k in s.cameras.rows && s.cameras.rows[k].last.Some? :: s.cameras.rows[k].last.value.id < s.nextId
  {
    forall k | k in s.cameras.rows && s.cameras.rows[k].last.Some? ensures s.cameras.rows[k].last.value.id < s.nextId {
      assert LastId(s, k).Some?;
    }
  }

  // ------------------------------------------------------- every other call

  /** The camera a successful enrichment leaves. */
  predicate Enriches(cfg: Config, s: State, call: Call) {
    && call.EnrichName? && call.serial in s.cameras.rows && call.identityText != "" && cfg.normalize(call.nameText) != None
    && var c := s.cameras.rows[call.serial];
       && c.last != None && !c.last.value.recognized && c.last.value.kind == call.kind
       && ((call.kind.Person? && c.personOwner == Some(call.identityText)) || (call.kind.Doorbell? && c.doorbellOwner == Some(call.identityText)))
  }

  /** What a call that is no report does to the memory of the known camera `k`. */
  ghost predicate Keeps(cfg: Config, s: State, s': State, call: Call, k: string)
    requires k in s.cameras.rows
  {
    && k in s'.cameras.rows && s'.nextId == s.nextId
    && var c, c' := s.cameras.rows[k], s'.cameras.rows[k];
       && c'.last == (if Enriches(cfg, s, call) && call.serial == k
                      then Some(c.last.value.(personName := cfg.normalize(call.nameText), recognized := true)) else c.last)
       && (call.RegisterCamera? && call.identity.serial == k ==>
             var rebound := call.identity.stationSerial != c.identity.stationSerial || call.identity.model != c.identity.model;
             && c'.identity == call.identity
             && c'.personOwner == (if rebound then None else c.personOwner)
             && c'.doorbellOwner == (if rebound then None else c.doorbellOwner))
       && (!(call.RegisterCamera? && call.identity.serial == k) ==>
             c'.identity == c.identity && c'.personOwner == c.personOwner && c'.doorbellOwner == c.doorbellOwner)
  }

  lemma {:induction false} EnrichMemory(cfg: Config, s: State, call: Call, k: string)
    requires CamerasOk(s) && call.EnrichName? && k in s.cameras.rows
    ensures Keeps(cfg, s, Apply(cfg, s, call).0, call, k)
  {}

  /** New media replaces the camera's media alone, with the announcement of an image before that of the camera. */
  lemma {:induction false} MediaShown(cfg: Config, s: State, serial: string, media: Media, announce: bool)
    requires CamerasOk(s)
    ensures var (s', es) := Apply(cfg, s, SetMedia(serial, media, announce));
      if serial !in s.cameras.rows then s' == s && es == []
      else
        var c' := s.cameras.rows[serial].(media := media);
        && s'.cameras.rows == s.cameras.rows[serial := c'] && s'.timers == s.timers
        && es == (if announce then [MediaEvent(serial)] else [])
                 + [CameraUpdated(CameraView(c'.identity, c'.raised, c'.motionDetected, c'.last, media))]
  {}

  lemma {:induction false} RegisterMemory(cfg: Config, s: State, call: Call, k: string)
    requires CamerasOk(s) && call.RegisterCamera? && k in s.cameras.rows
    ensures Keeps(cfg, s, Apply(cfg, s, call).0, call, k)
  {}

  lemma {:induction false} OtherMemory(cfg: Config, s: State, call: Call, k: string)
    requires CamerasOk(s) && !IsReport(call) && !call.Fire? && k in s.cameras.rows
    ensures Keeps(cfg, s, Apply(cfg, s, call).0, call, k)
  {
    if call.EnrichName? {
      EnrichMemory(cfg, s, call, k);
    } else if call.RegisterCamera? {
      RegisterMemory(cfg, s, call, k);
    } else if call.SetMedia? {
      hide Enriches, Apply;
      NoEnrichment(cfg, s, call);
      MediaShown(cfg, s, call.serial, call.media, call.announce);
      MediaCounts(cfg, s, call);
    } else {
      hide MergeSensor, Enriches, View, Put;
      NoEnrichment(cfg, s, call);
    }
  }

  lemma {:induction false} MediaCounts(cfg: Config, s: State, call: Call)
    requires call.SetMedia?
    ensures Apply(cfg, s, call).0.nextId == s.nextId
  {}

  lemma {:induction false} NoEnrichment(cfg: Config, s: State, call: Call)
    requires !call.EnrichName?
    ensures !Enriches(cfg, s, call)
  {}

  /** A camera registered for the first time remembers nothing, and only registration adds cameras. */
  lemma {:induction false} NewCamera(cfg: Config, s: State, call: Call, k: string)
    requires k !in s.cameras.rows && k in Apply(cfg, s, call).0.cameras.rows && CamerasOk(s)
    ensures call.RegisterCamera? && call.identity.serial == k
    ensures Apply(cfg, s, call).0.cameras.rows[k] == Camera(call.identity, {}, false, None, None, None, Media(0))
  {
    hide MergeSensor, Report, Heard, Remembers;
    if IsReport(call) {
      ReportAddsNone(cfg, s, call);
    } else if call.Fire? {
      ReportAddsNone(cfg, s.(timers := s.timers - {(call.serial, call.kind)}), ClearCall(call.serial, call.kind, s.now));
    }
  }

  lemma {:induction false} ReportAddsNone(cfg: Config, s: State, call: Call)
    requires IsReport(call) && CamerasOk(s)
    ensures Report(cfg, s, call).0.cameras.rows.Keys == s.cameras.rows.Keys
  {
    hide Report, LastAfterRaise;
    ReportMemory(cfg, s, call);
  }

  lemma {:induction false} FireMemory(cfg: Config, s: State, call: Call, k: string)
    requires CamerasOk(s) && call.Fire? && k in s.cameras.rows
    ensures Keeps(cfg, s, Apply(cfg, s, call).0, call, k)
  {
    hide Report, LastAfterRaise, Heard;
    if (call.serial, call.kind) in s.timers && s.timers[(call.serial, call.kind)] <= s.now {
      ReportMemory(cfg, s.(timers := s.timers - {(call.serial, call.kind)}), ClearCall(call.serial, call.kind, s.now));
    }
  }

  // ------------------------------------------------- runs in which a person is remembered

  /** This call neither replaces a person seen at `at` on camera `k`, nor names it, nor rebinds the camera. */
  predicate Quiet(call: Call, k: string, at: int, identity: Identity) {
    && (IsReport(call) && call.serial == k && call.detected ==> call.RecordMotion? && at <= call.occurredAt <= at + 10000)
    && (call.RegisterCamera? && call.identity.serial == k ==>
          call.identity.stationSerial == identity.stationSerial && call.identity.model == identity.model)
    && !(call.EnrichName? && call.serial == k)
  }

  /** The person `d`, of source `source`, is the last detection of the camera bound as `identity` says. */
  ghost predicate HoldsPerson(s: State, k: string, d: Detection, source: Option<string>, identity: Identity) {
    && k in s.cameras.rows
    && var c := s.cameras.rows[k];
       && c.last == Some(d) && c.personOwner == source
       && c.identity.stationSerial == identity.stationSerial && c.identity.model == identity.model
  }

  lemma {:induction false} QuietHolds(cfg: Config, s: State, call: Call, k: string, d: Detection, source: Option<string>, identity: Identity)
    requires CamerasOk(s) && HoldsPerson(s, k, d, source, identity) && d.kind.Person? && Quiet(call, k, d.occurredAt, identity)
    ensures HoldsPerson(Apply(cfg, s, call).0, k, d, source, identity)
  {
    hide Apply, CamerasOk;
    if IsReport(call) {
      ReportMemory(cfg, s, call);
    } else if call.Fire? {
      FireMemory(cfg, s, call, k);
    } else {
      OtherMemory(cfg, s, call, k);
    }
  }

  /**
   * From a person report on, through any calls for other cameras, cleared flags, timers,
   * media, re-registrations and motion within ten seconds, that person stays the last
   * detection and keeps its source.
   */
  lemma {:induction false} PersonHolds(cfg: Config, calls: seq<Call>, i: nat, j: nat)
    requires i < j <= |calls| && calls[i].RecordPerson? && calls[i].detected && Heard(Run(cfg, calls[..i]), calls[i])
    requires var c := Run(cfg, calls[..i]).cameras.rows[calls[i].serial];
      forall m | i < m < j :: Quiet(calls[m], calls[i].serial, calls[i].occurredAt, c.identity)
    ensures var s := Run(cfg, calls[..i]); var name := Named(cfg, calls[i].name);
      HoldsPerson(Run(cfg, calls[..j]), calls[i].serial, Detection(s.nextId, Person, calls[i].occurredAt, name, name != None),
                  calls[i].identityOf, s.cameras.rows[calls[i].serial].identity)
    decreases j
  {
    hide Apply, Run, Quiet, CamerasOk;
    RunNext(cfg, calls, j - 1);
    MotionIsAggregate(cfg, calls[..j - 1]);
    if j == i + 1 {
      ReportMemory(cfg, Run(cfg, calls[..i]), calls[i]);
    } else {
      hide HoldsPerson;
      PersonHolds(cfg, calls, i, j - 1);
      var s, name := Run(cfg, calls[..i]), Named(cfg, calls[i].name);
      var d := Detection(s.nextId, Person, calls[i].occurredAt, name, name != None);
      QuietHolds(cfg, Run(cfg, calls[..j - 1]), calls[j - 1], calls[i].serial, d, calls[i].identityOf,
                 s.cameras.rows[calls[i].serial].identity);
    }
  }

  /** An unnamed person that is still remembered takes the first name its own source supplies. */
  lemma {:induction false} PersonIsNamed(cfg: Config, calls: seq<Call>, i: nat, j: nat)
    requires i < j < |calls| && calls[i].RecordPerson? && calls[i].detected && Heard(Run(cfg, calls[..i]), calls[i])
    requires Named(cfg, calls[i].name) == None
    requires var c := Run(cfg, calls[..i]).cameras.rows[calls[i].serial];
      forall m | i < m < j :: Quiet(calls[m], calls[i].serial, calls[i].occurredAt, c.identity)
    requires calls[j].EnrichName? && calls[j].serial == calls[i].serial && calls[j].kind.Person?
    requires calls[i].identityOf == Some(calls[j].identityText) && calls[j].identityText != ""
    requires cfg.normalize(calls[j].nameText) != None
    ensures var s' := Run(cfg, calls[..j + 1]);
      && calls[i].serial in s'.cameras.rows
      && s'.cameras.rows[calls[i].serial].last ==
           Some(Detection(Run(cfg, calls[..i]).nextId, Person, calls[i].occurredAt, cfg.normalize(calls[j].nameText), true))
  {
    hide Apply, Run, Quiet, CamerasOk;
    PersonHolds(cfg, calls, i, j);
    RunNext(cfg, calls, j);
    MotionIsAggregate(cfg, calls[..j]);
    EnrichMemory(cfg, Run(cfg, calls[..j]), calls[j], calls[i].serial);
  }
}
