/** What a standalone sensor shows: observations it already holds survive every new registration. */
module GatewaySensors {
  import opened Basics
  import opened Gateway
  import opened GatewayTheorems

  /** The eleven observations a sensor may have. */
  predicate Observable(k: string) {
    k == "motion" || k == "crying" || k == "sound" || k == "pet" || k == "babyLeft" || k == "babyEntered"
    || k == "temperatureHigh" || k == "temperatureLow" || k == "careAreaLeft" || k == "careAreaEntered" || k == "babyActivity"
  }

  lemma {:induction false} CareKindsAre(k: string)
    ensures k in CARE_KINDS <==> Observable(k)
  {}

  /** `row` shows `sensor` with what `was` had observed. */
  ghost predicate Merged(was: Option<Sensor>, sensor: Sensor, row: Sensor) {
    && row == sensor.(held := row.held)
    && (forall k :: k in row.held <==> k == "motion" || (Observable(k) && k in sensor.capabilities))
    && (forall k | k in row.held && k !in sensor.capabilities :: !row.held[k])
    && (forall k | k in row.held && k in sensor.capabilities ::
          row.held[k] == if was.Some? && k in was.value.held then was.value.held[k] else k in sensor.held && sensor.held[k])
  }

  lemma {:induction false} MergeMerges(was: Option<Sensor>, sensor: Sensor)
    ensures Merged(was, sensor, MergeSensor(was, sensor))
  {
    hide Observable;
    forall k ensures k in CARE_KINDS <==> Observable(k) { CareKindsAre(k); }
    MotionObservable();
  }

  lemma {:induction false} MotionObservable()
    ensures Observable("motion")
  {}

  /** Registering replaces one sensor by the merged one and announces it; every other sensor stays. */
  lemma {:induction false} Registered(cfg: Config, s: State, sensor: Sensor)
    ensures var (s', es) := Apply(cfg, s, RegisterSensor(sensor));
      && sensor.serial in s'.sensors.rows && es == [SensorUpdated(s'.sensors.rows[sensor.serial])]
      && Merged(if sensor.serial in s.sensors.rows then Some(s.sensors.rows[sensor.serial]) else None, sensor, s'.sensors.rows[sensor.serial])
      && s'.sensors.rows == s.sensors.rows[sensor.serial := s'.sensors.rows[sensor.serial]]
  {
    hide MergeSensor, Observable;
    MergeMerges(SensorOf(s, sensor.serial), sensor);
  }

  /** A contact report of a sensor that has a contact changes its contact alone. */
  lemma {:induction false} ContactShown(cfg: Config, s: State, serial: string, open: bool)
    requires TablesOk(s) && serial in s.sensors.rows && "contact" in s.sensors.rows[serial].capabilities
    ensures var s' := Apply(cfg, s, UpdateContact(serial, open)).0; var was := s.sensors.rows[serial];
      && serial in s'.sensors.rows && s'.sensors.rows == s.sensors.rows[serial := s'.sensors.rows[serial]]
      && Merged(Some(was), was.(contactOpen := Some(open)), s'.sensors.rows[serial])
  {
    hide MergeSensor, Observable;
    MergeMerges(Some(s.sensors.rows[serial]), s.sensors.rows[serial].(contactOpen := Some(open)));
  }

  /** A report of one observation a sensor is capable of sets that observation alone. */
  lemma {:induction false} ObservationShown(cfg: Config, s: State, serial: string, kind: string, detected: bool)
    requires TablesOk(s)
    ensures var (s', es) := Apply(cfg, s, RecordSensor(serial, kind, detected));
      if serial in s.sensors.rows && Observable(kind) && kind in s.sensors.rows[serial].capabilities then
        var was := s.sensors.rows[serial];
        s'.sensors.rows == s.sensors.rows[serial := was.(held := was.held[kind := detected])]
        && es == [SensorUpdated(s'.sensors.rows[serial])]
      else s' == s && es == []
  {
    CareKindsAre(kind);
    hide Observable;
  }

  /** The sensor has this observation at this value. */
  ghost predicate Holds(s: State, serial: string, kind: string, v: bool) {
    && serial in s.sensors.rows && kind in s.sensors.rows[serial].capabilities
    && kind in s.sensors.rows[serial].held && s.sensors.rows[serial].held[kind] == v
  }

  /** The call neither reports this observation nor takes the capability away. */
  predicate Spares(call: Call, serial: string, kind: string) {
    && !(call.RecordSensor? && call.serial == serial && call.sensorKind == kind)
    && (call.RegisterSensor? && call.sensor.serial == serial ==> kind in call.sensor.capabilities)
  }

  lemma {:induction false} SparedHolds(cfg: Config, s: State, call: Call, serial: string, kind: string, v: bool)
    requires TablesOk(s) && Holds(s, serial, kind, v) && Observable(kind) && Spares(call, serial, kind)
    ensures Holds(Apply(cfg, s, call).0, serial, kind, v)
  {
    hide Observable, MergeSensor, Report;
    if call.RegisterSensor? {
      MergeMerges(SensorOf(s, call.sensor.serial), call.sensor);
    } else if call.UpdateContact? {
      if call.serial in s.sensors.rows {
        MergeMerges(SensorOf(s, call.serial), s.sensors.rows[call.serial].(contactOpen := Some(call.open)));
      }
    } else if IsReport(call) || call.Fire? {
      ReportSpares(cfg, s, call);
    }
  }

  lemma {:induction false} ReportSpares(cfg: Config, s: State, call: Call)
    requires IsReport(call) || call.Fire?
    ensures Apply(cfg, s, call).0.sensors == s.sensors
  {
    hide Reported;
  }

  /**
   * Over every run, an observation a sensor reported stays as reported, through any other
   * calls and any registrations of that sensor that keep the capability.
   */
  lemma {:induction false} ObservationStays(cfg: Config, calls: seq<Call>, i: nat, j: nat)
    requires i < j <= |calls| && calls[i].RecordSensor? && Observable(calls[i].sensorKind)
    requires var s := Run(cfg, calls[..i]);
      calls[i].serial in s.sensors.rows && calls[i].sensorKind in s.sensors.rows[calls[i].serial].capabilities
    requires forall m | i < m < j :: Spares(calls[m], calls[i].serial, calls[i].sensorKind)
    ensures Holds(Run(cfg, calls[..j]), calls[i].serial, calls[i].sensorKind, calls[i].detected)
    decreases j
  {
    hide Apply, Run, Spares, Observable, TablesOk;
    RunNext(cfg, calls, j - 1);
    RunTables(cfg, calls[..j - 1]);
    if j == i + 1 {
      ObservationShown(cfg, Run(cfg, calls[..i]), calls[i].serial, calls[i].sensorKind, calls[i].detected);
    } else {
      ObservationStays(cfg, calls, i, j - 1);
      SparedHolds(cfg, Run(cfg, calls[..j - 1]), calls[j - 1], calls[i].serial, calls[i].sensorKind, calls[i].detected);
    }
  }
}
