/**
 * The gateway's in-memory state: camera detection flags with their clear timers,
 * last detection and name ownership, stations and sensors, and the events that
 * every change emits.
 */
module Gateway {
  import opened Basics

  datatype Kind =
    | Motion | Person | Doorbell | Stranger | Pet | Vehicle | Dog | Crying | Sound
    | PackageDelivered | PackageTaken | PackageStranded

  /** The nine detections that keep the general motion flag raised. */
  const VISUAL: set<Kind> :=
    {Motion, Person, Stranger, Pet, Vehicle, Dog, PackageDelivered, PackageTaken, PackageStranded}

  datatype Detection = Detection(id: nat, kind: Kind, occurredAt: int, personName: Option<string>, recognized: bool)

  /** Discovered metadata; `details` stands for the fields no rule reads. */
  datatype Identity = Identity(serial: string, model: string, stationSerial: string, doorbellSupported: bool, details: nat)

  /** Snapshot, event image and stream fields, none of which a rule here reads. */
  datatype Media = Media(token: nat)

  datatype Camera = Camera(
    identity: Identity,
    raised: set<Kind>,
    motionDetected: bool,
    last: Option<Detection>,
    personOwner: Option<string>,
    doorbellOwner: Option<string>,
    media: Media)

  /** What `getCamera` shows: everything but the private owners. */
  datatype CameraView = CameraView(identity: Identity, raised: set<Kind>, motionDetected: bool, last: Option<Detection>, media: Media)

  datatype Station = Station(serial: string, details: nat)

  /** `held` has the detection fields that are present, `motion` always among them. */
  datatype Sensor = Sensor(serial: string, capabilities: set<string>, contactOpen: Option<bool>, held: map<string, bool>, details: nat)

  const CARE_KINDS: set<string> :=
    {"motion", "crying", "sound", "pet", "babyLeft", "babyEntered", "temperatureHigh", "temperatureLow",
     "careAreaLeft", "careAreaEntered", "babyActivity"}

  datatype Event =
    | CameraUpdated(camera: CameraView)
    | DetectionEvent(cameraSerial: string, detection: Detection)
    | MediaEvent(cameraSerial: string)
    | StationUpdated(station: Station)
    | SensorUpdated(sensor: Sensor)
    | ConnectionUpdated(detail: string)

  /** A JavaScript Map: entries in insertion order. */
  datatype Table<V> = Table(rows: map<string, V>, order: seq<string>) {
    function Set(key: string, v: V): Table<V> {
      Table(rows[key := v], if key in rows then order else order + [key])
    }

    ghost predicate Valid() {
      && (forall k :: k in rows <==> k in order)
      && forall i, j | 0 <= i < j < |order| :: order[i] != order[j]
    }
  }

  type TimerKey = (string, Kind)

  /** A notification the provider gave and the gateway accepted, with its arrival time. */
  datatype Notice = Notice(key: TimerKey, raised: bool, time: int)

  /**
   * `history` and `sources` are history variables: accepted notifications, and
   * the event identity supplied with each recorded detection.
   */
  datatype State = State(
    cameras: Table<Camera>,
    stations: Table<Station>,
    sensors: Table<Sensor>,
    timers: map<TimerKey, int>,
    nextId: nat,
    now: int,
    history: seq<Notice>,
    sources: map<nat, Option<string>>)

  datatype Config = Config(hold: nat, normalize: string -> Option<string>) {
    /** `normalizePersonName` on a possibly absent name. */
    function Name(value: Option<string>): Option<string> {
      if value.None? then None else normalize(value.value)
    }
  }

  datatype Call =
    | RegisterCamera(identity: Identity)
    | RecordMotion(serial: string, detected: bool, occurredAt: int)
    | RecordPerson(serial: string, detected: bool, name: Option<string>, occurredAt: int, identityOf: Option<string>)
    | RecordDetection(serial: string, kind: Kind, detected: bool, occurredAt: int)
    | RecordDoorbell(serial: string, detected: bool, occurredAt: int, name: Option<string>, identityOf: Option<string>)
    | EnrichName(serial: string, identityText: string, nameText: string, kind: Kind)
    | SetMedia(serial: string, media: Media, announce: bool)
    | RegisterStation(station: Station)
    | RegisterSensor(sensor: Sensor)
    | UpdateContact(serial: string, open: bool)
    | RecordSensor(serial: string, sensorKind: string, detected: bool)
    | UpdateConnection(detail: string)
    | Fire(serial: string, kind: Kind)
    | Tick(to: int)

  function View(c: Camera): CameraView {
    CameraView(c.identity, c.raised, c.motionDetected, c.last, c.media)
  }

  /** The general flag is recomputed from the nine visual flags. */
  function Aggregate(c: Camera): Camera {
    c.(motionDetected := c.raised * VISUAL != {})
  }

  function Flag(c: Camera, k: Kind, detected: bool): Camera {
    c.(raised := if detected then c.raised + {k} else c.raised - {k})
  }

  /** Replace the pending clear of one flag: none, or one hold period from now. */
  function Schedule(cfg: Config, s: State, key: TimerKey, detected: bool): State {
    s.(timers := if detected then (s.timers - {key})[key := s.now + cfg.hold] else s.timers - {key})
  }

  function Put(s: State, c: Camera): State {
    s.(cameras := s.cameras.Set(c.identity.serial, c))
  }

  function Noticed(s: State, key: TimerKey, raised: bool): State {
    s.(history := s.history + [Notice(key, raised, s.now)])
  }

  function Fresh(s: State, source: Option<string>): State {
    s.(nextId := s.nextId + 1, sources := s.sources[s.nextId := source])
  }

  function IsRecentPerson(d: Option<Detection>, occurredAt: int): bool {
    d.Some? && d.value.kind == Person && 0 <= occurredAt - d.value.occurredAt <= 10000
  }

  /** The camera after a motion, person, AI or button report, apart from its last detection. */
  function Flagged(c: Camera, k: Kind, detected: bool): Camera {
    var flagged := Flag(c, k, detected);
    if k in VISUAL then Aggregate(flagged) else flagged
  }

  /** The camera after one accepted raise, with its new detection `d`. */
  function Raised(c: Camera, call: Call, d: Detection): Camera {
    var flagged := Flagged(c, d.kind, true);
    match call
    case RecordMotion(_, _, at) => if IsRecentPerson(c.last, at) then flagged else flagged.(last := Some(d))
    case RecordPerson(_, _, _, _, id) => flagged.(last := Some(d), personOwner := id)
    case RecordDoorbell(_, _, _, _, id) =>
      var owned := flagged.(doorbellOwner := id);
      if id.Some? || d.personName.Some? || !(c.last.Some? && c.last.value.recognized) then owned.(last := Some(d)) else owned
    case _ => flagged.(last := Some(d))
  }

  predicate IsReport(call: Call) {
    call.RecordMotion? || call.RecordPerson? || call.RecordDetection? || call.RecordDoorbell?
  }

  function KindOf(call: Call): Kind
    requires IsReport(call)
  {
    match call
    case RecordMotion(_, _, _) => Motion
    case RecordPerson(_, _, _, _, _) => Person
    case RecordDetection(_, k, _, _) => k
    case RecordDoorbell(_, _, _, _, _) => Doorbell
  }

  function NewDetection(cfg: Config, s: State, call: Call): Detection
    requires IsReport(call)
  {
    var name := match call
      case RecordPerson(_, _, n, _, _) => cfg.Name(n)
      case RecordDoorbell(_, _, _, n, _) => cfg.Name(n)
      case _ => None;
    Detection(s.nextId, KindOf(call), call.occurredAt, name, name.Some?)
  }

  function SourceOf(call: Call): Option<string> {
    match call
    case RecordPerson(_, _, _, _, id) => id
    case RecordDoorbell(_, _, _, _, id) => id
    case _ => None
  }

  /** Which reports reach the flag: known cameras, AI kinds by `recordDetection`, doorbells where supported. */
  predicate Accepted(s: State, call: Call)
    requires IsReport(call)
  {
    && call.serial in s.cameras.rows
    && (call.RecordDetection? ==> call.kind !in {Motion, Person, Doorbell})
    && (call.RecordDoorbell? ==> s.cameras.rows[call.serial].identity.doorbellSupported)
  }

  /** The camera an accepted report leaves: on a raise also with its new detection. */
  function Reported(cfg: Config, s: State, call: Call): Camera
    requires IsReport(call) && call.serial in s.cameras.rows
  {
    var c := s.cameras.rows[call.serial];
    if call.detected then Raised(c, call, NewDetection(cfg, s, call)) else Flagged(c, KindOf(call), false)
  }

  /** The timer, and on a raise the detection number, an accepted report takes. */
  function Recorded(cfg: Config, s: State, call: Call): State
    requires IsReport(call)
  {
    var scheduled := Schedule(cfg, s, (call.serial, KindOf(call)), call.detected);
    if call.detected then Fresh(scheduled, SourceOf(call)) else scheduled
  }

  /** One report: a raise announces its detection, then every report announces the camera. */
  function Report(cfg: Config, s: State, call: Call): (State, seq<Event>)
    requires IsReport(call)
  {
    if !Accepted(s, call) then (s, [])
    else
      var c' := Reported(cfg, s, call);
      var raise := if call.detected then [DetectionEvent(call.serial, NewDetection(cfg, s, call))] else [];
      (Put(Recorded(cfg, s, call), c'), raise + [CameraUpdated(View(c'))])
  }

  /** A provider report, recorded in the history when it is accepted. */
  function Notify(cfg: Config, s: State, call: Call): (State, seq<Event>)
    requires IsReport(call)
  {
    var (s', es) := Report(cfg, s, call);
    (if Accepted(s, call) then Noticed(s', (call.serial, KindOf(call)), call.detected) else s', es)
  }

  /** The report a clear timer makes for its own flag. */
  function ClearCall(serial: string, k: Kind, at: int): Call {
    match k
    case Motion => RecordMotion(serial, false, at)
    case Person => RecordPerson(serial, false, None, at, None)
    case Doorbell => RecordDoorbell(serial, false, at, None, None)
    case _ => RecordDetection(serial, k, false, at)
  }

  function RegisterCameraStep(s: State, identity: Identity): (State, seq<Event>) {
    var c :=
      if identity.serial in s.cameras.rows then
        var old' := s.cameras.rows[identity.serial];
        if old'.identity.stationSerial != identity.stationSerial || old'.identity.model != identity.model
        then old'.(identity := identity, personOwner := None, doorbellOwner := None)
        else old'.(identity := identity)
      else Camera(identity, {}, false, None, None, None, Media(0));
    (Put(s, c), [CameraUpdated(View(c))])
  }

  /** Name the last detection if the same source still owns it and it has no name yet. */
  function EnrichStep(cfg: Config, s: State, serial: string, eventIdentity: string, personName: string, kind: Kind): (State, seq<Event>) {
    if serial !in s.cameras.rows || !(kind == Person || kind == Doorbell) then (s, [])
    else
      var c := s.cameras.rows[serial];
      var name := cfg.Name(Some(personName));
      var owner := if kind == Person then c.personOwner else c.doorbellOwner;
      if eventIdentity == "" || owner != Some(eventIdentity) || name.None?
         || c.last.None? || c.last.value.kind != kind || c.last.value.recognized then (s, [])
      else
        var c' := c.(last := Some(c.last.value.(personName := name, recognized := true)));
        (Put(s, c'), [CameraUpdated(View(c'))])
  }

  /** Fields the stored sensor already holds win over the incoming ones; absent capabilities lose theirs. */
  function MergeSensor(old': Option<Sensor>, sensor: Sensor): Sensor {
    var fields := (CARE_KINDS * sensor.capabilities) + {"motion"};
    var held := map k | k in fields ::
      if k !in sensor.capabilities then false
      else if old'.Some? && k in old'.value.held then old'.value.held[k]
      else if k in sensor.held then sensor.held[k]
      else false;
    sensor.(held := held)
  }

  function PutSensor(s: State, sensor: Sensor): (State, seq<Event>) {
    (s.(sensors := s.sensors.Set(sensor.serial, sensor)), [SensorUpdated(sensor)])
  }

  function SensorOf(s: State, serial: string): Option<Sensor> {
    if serial in s.sensors.rows then Some(s.sensors.rows[serial]) else None
  }

  function Apply(cfg: Config, s: State, call: Call): (State, seq<Event>) {
    match call
    case RegisterCamera(identity) => RegisterCameraStep(s, identity)
    case RecordMotion(_, _, _) => Notify(cfg, s, call)
    case RecordPerson(_, _, _, _, _) => Notify(cfg, s, call)
    case RecordDetection(_, _, _, _) => Notify(cfg, s, call)
    case RecordDoorbell(_, _, _, _, _) => Notify(cfg, s, call)
    case EnrichName(serial, id, name, kind) => EnrichStep(cfg, s, serial, id, name, kind)
    case SetMedia(serial, media, announce) =>
      if serial !in s.cameras.rows then (s, [])
      else
        var c := s.cameras.rows[serial].(media := media);
        (Put(s, c), (if announce then [MediaEvent(serial)] else []) + [CameraUpdated(View(c))])
    case RegisterStation(station) =>
      (s.(stations := s.stations.Set(station.serial, station)), [StationUpdated(station)])
    case RegisterSensor(sensor) => PutSensor(s, MergeSensor(SensorOf(s, sensor.serial), sensor))
    case UpdateContact(serial, open) =>
      var old' := SensorOf(s, serial);
      if old'.None? || "contact" !in old'.value.capabilities then (s, [])
      else PutSensor(s, MergeSensor(old', old'.value.(contactOpen := Some(open))))
    case RecordSensor(serial, kind, detected) =>
      var old' := SensorOf(s, serial);
      if old'.None? || kind !in CARE_KINDS || kind !in old'.value.capabilities then (s, [])
      else PutSensor(s, old'.value.(held := old'.value.held[kind := detected]))
    case UpdateConnection(detail) => (s, [ConnectionUpdated(detail)])
    case Fire(serial, kind) =>
      if (serial, kind) !in s.timers || s.timers[(serial, kind)] > s.now then (s, [])
      else Report(cfg, s.(timers := s.timers - {(serial, kind)}), ClearCall(serial, kind, s.now))
    case Tick(to) => (if to > s.now then s.(now := to) else s, [])
  }

  const INITIAL: State := State(Table(map[], []), Table(map[], []), Table(map[], []), map[], 0, 0, [], map[])

  function Run(cfg: Config, calls: seq<Call>): State
    decreases |calls|
  {
    if calls == [] then INITIAL else Apply(cfg, Run(cfg, calls[..|calls| - 1]), calls[|calls| - 1]).0
  }
}
