/** The gateway state as it is updated in place; each method is one step of the specification. */
module GatewayStateModule {
  import opened Basics
  import Gateway
  import opened GatewayTheorems
  import Memory = GatewayMemory

  type Event = Gateway.Event
  type Camera = Gateway.Camera
  type Kind = Gateway.Kind

  class GatewayState {
    const cfg: Gateway.Config
    var cameras: Gateway.Table<Camera>
    var stations: Gateway.Table<Gateway.Station>
    var sensors: Gateway.Table<Gateway.Sensor>
    /** The pending clear timers of all flags, by camera and kind, with their deadlines. */
    var clearTimers: map<Gateway.TimerKey, int>
    var clock: int
    /** Stands for the random detection identifiers, which never repeat. */
    var nextId: nat
    ghost var history: seq<Gateway.Notice>
    ghost var sources: map<nat, Option<string>>

    ghost function State(): Gateway.State
      reads this
    {
      Gateway.State(cameras, stations, sensors, clearTimers, nextId, clock, history, sources)
    }

    /** Every family is indexed by its members' serials, and every motion flag is the OR of its visual flags. */
    ghost predicate Valid()
      reads this
    {
      TablesOk(State())
    }

    constructor (cfg: Gateway.Config)
      ensures Valid() && State() == Gateway.INITIAL && this.cfg == cfg
    {
      this.cfg := cfg;
      cameras, stations, sensors := Gateway.Table(map[], []), Gateway.Table(map[], []), Gateway.Table(map[], []);
      clearTimers, clock, nextId, history, sources := map[], 0, 0, [], map[];
    }

    method Elapse(to: int)
      requires Valid()
      modifies `clock
      ensures Valid()
      ensures State() == Gateway.Apply(cfg, old(State()), Gateway.Tick(to)).0
    {
      if to > clock { clock := to; }
    }

    method RegisterCamera(identity: Gateway.Identity) returns (emitted: seq<Event>)
      requires Valid()
      modifies `cameras
      ensures Valid()
      ensures (State(), emitted) == Gateway.Apply(cfg, old(State()), Gateway.RegisterCamera(identity))
    {
      var camera;
      if identity.serial in cameras.rows {
        camera := cameras.rows[identity.serial];
        if camera.identity.stationSerial != identity.stationSerial || camera.identity.model != identity.model {
          camera := camera.(personOwner := None, doorbellOwner := None);
        }
        camera := camera.(identity := identity);
      } else {
        camera := Gateway.Camera(identity, {}, false, None, None, None, Gateway.Media(0));
      }
      emitted := EmitCamera(camera);
    }

    /** Write one camera record back and announce its state. */
    method EmitCamera(camera: Camera) returns (emitted: seq<Event>)
      modifies `cameras
      ensures State() == Gateway.Put(old(State()), camera)
      ensures emitted == [Gateway.CameraUpdated(Gateway.View(camera))]
    {
      cameras := cameras.Set(camera.identity.serial, camera);
      emitted := [Gateway.CameraUpdated(Gateway.View(camera))];
    }

    method ScheduleDetectionClear(key: Gateway.TimerKey, detected: bool)
      modifies `clearTimers
      ensures State() == Gateway.Schedule(cfg, old(State()), key, detected)
    {
      clearTimers := clearTimers - {key};
      if detected {
        clearTimers := clearTimers[key := clock + cfg.hold];
      }
    }

    method NewDetection(kind: Kind, occurredAt: int, name: Option<string>, source: Option<string>)
        returns (detection: Gateway.Detection)
      modifies `nextId, `sources
      ensures State() == Gateway.Fresh(old(State()), source)
      ensures detection == Gateway.Detection(old(nextId), kind, occurredAt, name, name.Some?)
    {
      detection := Gateway.Detection(nextId, kind, occurredAt, name, name.Some?);
      sources := sources[nextId := source];
      nextId := nextId + 1;
    }

    /** A provider report enters the history; a report of a clear timer does not. */
    ghost function Reported(s: Gateway.State, call: Gateway.Call, provider: bool): (Gateway.State, seq<Event>)
      requires Gateway.IsReport(call)
    {
      var (s', emitted) := Gateway.Report(cfg, s, call);
      (if provider && Gateway.Accepted(s, call) then Gateway.Noticed(s', (call.serial, Gateway.KindOf(call)), call.detected) else s',
       emitted)
    }

    ghost method Note(key: Gateway.TimerKey, raised: bool, provider: bool)
      modifies `history
      ensures State() == if provider then Gateway.Noticed(old(State()), key, raised) else old(State())
    {
      if provider { history := history + [Gateway.Notice(key, raised, clock)]; }
    }

    /** What a report of any kind leaves, whoever makes it. */
    lemma {:induction false} ReportedIsValid(s: Gateway.State, call: Gateway.Call, provider: bool)
      requires TablesOk(s) && Gateway.IsReport(call)
      ensures var (s', emitted) := Reported(s, call, provider);
        && TablesOk(s')
        && (Gateway.Accepted(s, call) ==>
              Shows(s', emitted, call.serial, Gateway.KindOf(call), call.detected) && Memory.Remembers(cfg, s, s', call))
    {
      hide TablesOk, Gateway.Report, Memory.Heard, Memory.LastAfterRaise;
      ReportTables(cfg, s, call);
      var s' := Gateway.Report(cfg, s, call).0;
      SameTables(s', Gateway.Noticed(s', (call.serial, Gateway.KindOf(call)), call.detected));
      HasCameras(s);
      if Gateway.Accepted(s, call) {
        ReportShows(cfg, s, call);
        Memory.HeardIsAccepted(s, call);
        Memory.ReportMemory(cfg, s, call);
      }
    }

    method RecordMotion(serial: string, detected: bool, occurredAt: int, ghost provider: bool)
        returns (emitted: seq<Event>)
      requires Valid()
      modifies `cameras, `clearTimers, `nextId, `history, `sources
      ensures Valid()
      ensures (State(), emitted) == Reported(old(State()), Gateway.RecordMotion(serial, detected, occurredAt), provider)
      ensures serial in old(cameras).rows ==> Shows(State(), emitted, serial, Gateway.Motion, detected)
      ensures serial in old(cameras).rows ==>
        Memory.Remembers(cfg, old(State()), State(), Gateway.RecordMotion(serial, detected, occurredAt))
    {
      hide TablesOk, Gateway.Report, Shows, Memory.Remembers;
      ReportedIsValid(State(), Gateway.RecordMotion(serial, detected, occurredAt), provider);
      HasCameras(State());
      emitted := [];
      if serial !in cameras.rows {
        RefusedReport(cfg, State(), Gateway.RecordMotion(serial, detected, occurredAt));
        return;
      }
      emitted := ReportMotion(serial, detected, occurredAt);
      Note((serial, Gateway.Motion), detected, provider);
    }

    method ReportMotion(serial: string, detected: bool, occurredAt: int) returns (emitted: seq<Event>)
      requires serial in cameras.rows && cameras.rows[serial].identity.serial == serial
      modifies `cameras, `clearTimers, `nextId, `sources
      ensures (State(), emitted) == Gateway.Report(cfg, old(State()), Gateway.RecordMotion(serial, detected, occurredAt))
    {
      emitted := [];
      var previous := cameras.rows[serial];
      var camera := Gateway.Aggregate(Gateway.Flag(previous, Gateway.Motion, detected));
      ScheduleDetectionClear((serial, Gateway.Motion), detected);
      if detected {
        var detection := NewDetection(Gateway.Motion, occurredAt, None, None);
        if !Gateway.IsRecentPerson(previous.last, occurredAt) { camera := camera.(last := Some(detection)); }
        emitted := [Gateway.DetectionEvent(serial, detection)];
      }
      var update := EmitCamera(camera);
      emitted := emitted + update;
    }

    method RecordPerson(serial: string, detected: bool, personName: Option<string>, occurredAt: int,
                        eventIdentity: Option<string>, ghost provider: bool) returns (emitted: seq<Event>)
      requires Valid()
      modifies `cameras, `clearTimers, `nextId, `history, `sources
      ensures Valid()
      ensures (State(), emitted) ==
        Reported(old(State()), Gateway.RecordPerson(serial, detected, personName, occurredAt, eventIdentity), provider)
      ensures serial in old(cameras).rows ==> Shows(State(), emitted, serial, Gateway.Person, detected)
      ensures serial in old(cameras).rows ==>
        Memory.Remembers(cfg, old(State()), State(), Gateway.RecordPerson(serial, detected, personName, occurredAt, eventIdentity))
    {
      hide TablesOk, Gateway.Report, Shows, Memory.Remembers;
      ReportedIsValid(State(), Gateway.RecordPerson(serial, detected, personName, occurredAt, eventIdentity), provider);
      HasCameras(State());
      emitted := [];
      if serial !in cameras.rows {
        RefusedReport(cfg, State(), Gateway.RecordPerson(serial, detected, personName, occurredAt, eventIdentity));
        return;
      }
      emitted := ReportPerson(serial, detected, personName, occurredAt, eventIdentity);
      Note((serial, Gateway.Person), detected, provider);
    }

    method ReportPerson(serial: string, detected: bool, personName: Option<string>, occurredAt: int,
                        eventIdentity: Option<string>) returns (emitted: seq<Event>)
      requires serial in cameras.rows && cameras.rows[serial].identity.serial == serial
      modifies `cameras, `clearTimers, `nextId, `sources
      ensures (State(), emitted) ==
        Gateway.Report(cfg, old(State()), Gateway.RecordPerson(serial, detected, personName, occurredAt, eventIdentity))
    {
      emitted := [];
      var camera := Gateway.Aggregate(Gateway.Flag(cameras.rows[serial], Gateway.Person, detected));
      ScheduleDetectionClear((serial, Gateway.Person), detected);
      if detected {
        camera := camera.(personOwner := eventIdentity);
        var detection := NewDetection(Gateway.Person, occurredAt, cfg.Name(personName), eventIdentity);
        camera := camera.(last := Some(detection));
        emitted := [Gateway.DetectionEvent(serial, detection)];
      }
      var update := EmitCamera(camera);
      emitted := emitted + update;
    }

    /** One AI or audio flag; the audio flags leave the general motion flag alone. */
    method SetFlag(camera: Camera, kind: Kind, detected: bool) returns (flagged: Camera)
      requires kind !in {Gateway.Motion, Gateway.Person, Gateway.Doorbell}
      ensures flagged == Gateway.Flagged(camera, kind, detected)
    {
      flagged := Gateway.Flag(camera, kind, detected);
      if kind != Gateway.Crying && kind != Gateway.Sound { flagged := Gateway.Aggregate(flagged); }
    }

    method RecordDetection(serial: string, kind: Kind, detected: bool, occurredAt: int, ghost provider: bool)
        returns (emitted: seq<Event>)
      requires Valid() && kind !in {Gateway.Motion, Gateway.Person, Gateway.Doorbell}
      modifies `cameras, `clearTimers, `nextId, `history, `sources
      ensures Valid()
      ensures (State(), emitted) ==
        Reported(old(State()), Gateway.RecordDetection(serial, kind, detected, occurredAt), provider)
      ensures serial in old(cameras).rows ==> Shows(State(), emitted, serial, kind, detected)
      ensures serial in old(cameras).rows ==>
        Memory.Remembers(cfg, old(State()), State(), Gateway.RecordDetection(serial, kind, detected, occurredAt))
    {
      hide TablesOk, Gateway.Report, Shows, Memory.Remembers;
      ReportedIsValid(State(), Gateway.RecordDetection(serial, kind, detected, occurredAt), provider);
      HasCameras(State());
      emitted := [];
      if serial !in cameras.rows {
        RefusedReport(cfg, State(), Gateway.RecordDetection(serial, kind, detected, occurredAt));
        return;
      }
      emitted := ReportDetection(serial, kind, detected, occurredAt);
      Note((serial, kind), detected, provider);
    }

    method ReportDetection(serial: string, kind: Kind, detected: bool, occurredAt: int) returns (emitted: seq<Event>)
      requires serial in cameras.rows && cameras.rows[serial].identity.serial == serial
      requires kind !in {Gateway.Motion, Gateway.Person, Gateway.Doorbell}
      modifies `cameras, `clearTimers, `nextId, `sources
      ensures (State(), emitted) ==
        Gateway.Report(cfg, old(State()), Gateway.RecordDetection(serial, kind, detected, occurredAt))
    {
      emitted := [];
      var camera := SetFlag(cameras.rows[serial], kind, detected);
      ScheduleDetectionClear((serial, kind), detected);
      if detected {
        var detection := NewDetection(kind, occurredAt, None, None);
        camera := camera.(last := Some(detection));
        emitted := [Gateway.DetectionEvent(serial, detection)];
      }
      var update := EmitCamera(camera);
      emitted := emitted + update;
    }

    method RecordDoorbell(serial: string, pressed: bool, occurredAt: int, personName: Option<string>,
                          eventIdentity: Option<string>, ghost provider: bool) returns (emitted: seq<Event>)
      requires Valid()
      modifies `cameras, `clearTimers, `nextId, `history, `sources
      ensures Valid()
      ensures (State(), emitted) ==
        Reported(old(State()), Gateway.RecordDoorbell(serial, pressed, occurredAt, personName, eventIdentity), provider)
      ensures serial in old(cameras).rows && old(cameras).rows[serial].identity.doorbellSupported ==>
        Shows(State(), emitted, serial, Gateway.Doorbell, pressed)
        && Memory.Remembers(cfg, old(State()), State(), Gateway.RecordDoorbell(serial, pressed, occurredAt, personName, eventIdentity))
    {
      hide TablesOk, Gateway.Report, Shows, Memory.Remembers;
      ReportedIsValid(State(), Gateway.RecordDoorbell(serial, pressed, occurredAt, personName, eventIdentity), provider);
      HasCameras(State());
      emitted := [];
      if serial !in cameras.rows || !cameras.rows[serial].identity.doorbellSupported {
        RefusedReport(cfg, State(), Gateway.RecordDoorbell(serial, pressed, occurredAt, personName, eventIdentity));
        return;
      }
      emitted := ReportDoorbell(serial, pressed, occurredAt, personName, eventIdentity);
      Note((serial, Gateway.Doorbell), pressed, provider);
    }

    method ReportDoorbell(serial: string, pressed: bool, occurredAt: int, personName: Option<string>,
                          eventIdentity: Option<string>) returns (emitted: seq<Event>)
      requires serial in cameras.rows && cameras.rows[serial].identity.serial == serial
      requires cameras.rows[serial].identity.doorbellSupported
      modifies `cameras, `clearTimers, `nextId, `sources
      ensures (State(), emitted) ==
        Gateway.Report(cfg, old(State()), Gateway.RecordDoorbell(serial, pressed, occurredAt, personName, eventIdentity))
    {
      emitted := [];
      var camera := Gateway.Flag(cameras.rows[serial], Gateway.Doorbell, pressed);
      ScheduleDetectionClear((serial, Gateway.Doorbell), pressed);
      if pressed {
        camera := camera.(doorbellOwner := eventIdentity);
        var name := cfg.Name(personName);
        var detection := NewDetection(Gateway.Doorbell, occurredAt, name, eventIdentity);
        if eventIdentity.Some? || name.Some? || !(camera.last.Some? && camera.last.value.recognized) {
          camera := camera.(last := Some(detection));
        }
        emitted := [Gateway.DetectionEvent(serial, detection)];
      }
      var update := EmitCamera(camera);
      emitted := emitted + update;
    }

    /** A due timer whose callback is not refused: a button's needs a camera with a button. */
    ghost predicate Clears(s: Gateway.State, serial: string, kind: Kind) {
      && (serial, kind) in s.timers && s.timers[(serial, kind)] <= s.now && serial in s.cameras.rows
      && (kind == Gateway.Doorbell ==> s.cameras.rows[serial].identity.doorbellSupported)
    }

    /** One expired clear timer runs its callback. */
    method FireTimer(serial: string, kind: Kind) returns (emitted: seq<Event>)
      requires Valid()
      modifies `cameras, `clearTimers, `nextId, `history, `sources
      ensures Valid()
      ensures (State(), emitted) == Gateway.Apply(cfg, old(State()), Gateway.Fire(serial, kind))
      ensures Clears(old(State()), serial, kind) ==> Shows(State(), emitted, serial, kind, false)
    {
      hide TablesOk, Gateway.Report, Shows, Memory.Remembers, Gateway.Noticed;
      emitted := [];
      if (serial, kind) !in clearTimers || clearTimers[(serial, kind)] > clock { return; }
      ghost var before := State();
      clearTimers := clearTimers - {(serial, kind)};
      SameTables(before, State());
      match kind {
        case Motion => emitted := RecordMotion(serial, false, clock, false);
        case Person => emitted := RecordPerson(serial, false, None, clock, None, false);
        case Doorbell => emitted := RecordDoorbell(serial, false, clock, None, None, false);
        case _ => emitted := RecordDetection(serial, kind, false, clock, false);
      }
    }

    method EnrichName(serial: string, eventIdentity: string, personName: string, kind: Kind) returns (emitted: seq<Event>)
      requires Valid() && kind in {Gateway.Person, Gateway.Doorbell}
      modifies `cameras
      ensures Valid()
      ensures (State(), emitted) ==
        Gateway.Apply(cfg, old(State()), Gateway.EnrichName(serial, eventIdentity, personName, kind))
    {
      emitted := [];
      if serial !in cameras.rows { return; }
      var camera := cameras.rows[serial];
      var name := cfg.Name(Some(personName));
      var owner := if kind == Gateway.Person then camera.personOwner else camera.doorbellOwner;
      if eventIdentity == "" || owner != Some(eventIdentity) || name.None? { return; }
      if camera.last.None? || camera.last.value.kind != kind || camera.last.value.recognized { return; }
      camera := camera.(last := Some(camera.last.value.(personName := name, recognized := true)));
      emitted := EmitCamera(camera);
    }

    method UpdateMedia(serial: string, media: Gateway.Media, announce: bool) returns (emitted: seq<Event>)
      requires Valid()
      modifies `cameras
      ensures Valid()
      ensures (State(), emitted) == Gateway.Apply(cfg, old(State()), Gateway.SetMedia(serial, media, announce))
    {
      emitted := [];
      if serial !in cameras.rows { return; }
      if announce { emitted := [Gateway.MediaEvent(serial)]; }
      var update := EmitCamera(cameras.rows[serial].(media := media));
      emitted := emitted + update;
    }

    method RegisterStation(station: Gateway.Station) returns (emitted: seq<Event>)
      requires Valid()
      modifies `stations
      ensures Valid()
      ensures (State(), emitted) == Gateway.Apply(cfg, old(State()), Gateway.RegisterStation(station))
    {
      stations := stations.Set(station.serial, station);
      emitted := [Gateway.StationUpdated(station)];
    }

    method RegisterSensor(sensor: Gateway.Sensor) returns (emitted: seq<Event>)
      requires Valid()
      modifies `sensors
      ensures Valid()
      ensures (State(), emitted) == Gateway.Apply(cfg, old(State()), Gateway.RegisterSensor(sensor))
    {
      var existing := if sensor.serial in sensors.rows then Some(sensors.rows[sensor.serial]) else None;
      var snapshot := Gateway.MergeSensor(existing, sensor);
      sensors := sensors.Set(sensor.serial, snapshot);
      emitted := [Gateway.SensorUpdated(snapshot)];
    }

    method UpdateSensorContact(serial: string, open: bool) returns (emitted: seq<Event>)
      requires Valid()
      modifies `sensors
      ensures Valid()
      ensures (State(), emitted) == Gateway.Apply(cfg, old(State()), Gateway.UpdateContact(serial, open))
    {
      emitted := [];
      if serial !in sensors.rows || "contact" !in sensors.rows[serial].capabilities { return; }
      emitted := RegisterSensor(sensors.rows[serial].(contactOpen := Some(open)));
    }

    /** `recordSensorMotion` and `recordSensorDetection`: the field of one held observation. */
    method RecordSensor(serial: string, kind: string, detected: bool) returns (emitted: seq<Event>)
      requires kind in Gateway.CARE_KINDS
      requires Valid()
      modifies `sensors
      ensures Valid()
      ensures (State(), emitted) == Gateway.Apply(cfg, old(State()), Gateway.RecordSensor(serial, kind, detected))
    {
      emitted := [];
      if serial !in sensors.rows || kind !in sensors.rows[serial].capabilities { return; }
      var sensor := sensors.rows[serial];
      sensor := sensor.(held := sensor.held[kind := detected]);
      sensors := sensors.Set(serial, sensor);
      emitted := [Gateway.SensorUpdated(sensor)];
    }
  }
}
