/**
 * The coordinator's copy of the gateway's cameras, stations and sensors, kept up to
 * date from the event stream alone.
 */
module Replica {
  import opened Basics
  import G = Gateway
  import opened GatewayTheorems

  /** One member of a decoded list or field: a dictionary with a string serial, or anything else. */
  datatype Entry<V> = Entry(serial: string, value: V) | Unusable

  /** The keys of one decoded event that the coordinator reads. */
  datatype Message = Message(
    cameras: Option<seq<Entry<G.CameraView>>>,
    stations: Option<seq<Entry<G.Station>>>,
    camera: Option<Entry<G.CameraView>>,
    station: Option<Entry<G.Station>>,
    sensors: Option<seq<Entry<G.Sensor>>>,
    sensor: Option<Entry<G.Sensor>>)

  const NOTHING: Message := Message(None, None, None, None, None, None)

  datatype Data = Data(cameras: map<string, G.CameraView>, stations: map<string, G.Station>, sensors: map<string, G.Sensor>)

  // ------------------------------------------------------------- specification

  /** A list by serial: a later entry replaces an earlier one, an unusable one is skipped. */
  function Normalized<V>(items: seq<Entry<V>>): map<string, V> {
    if items == [] then map[]
    else
      var init, item := Normalized(items[..|items| - 1]), items[|items| - 1];
      if item.Unusable? then init else init[item.serial := item.value]
  }

  /** One family: a list replaces it, then a single entry updates it. */
  function Merged<V>(rows: map<string, V>, all: Option<seq<Entry<V>>>, one: Option<Entry<V>>): map<string, V> {
    var base := if all.Some? then Normalized(all.value) else rows;
    if one.Some? && one.value.Entry? then base[one.value.serial := one.value.value] else base
  }

  function Merge(d: Data, m: Message): Data {
    Data(Merged(d.cameras, m.cameras, m.camera), Merged(d.stations, m.stations, m.station), Merged(d.sensors, m.sensors, m.sensor))
  }

  function MergeAll(d: Data, ms: seq<Message>): Data {
    if ms == [] then d else Merge(MergeAll(d, ms[..|ms| - 1]), ms[|ms| - 1])
  }

  // ------------------------------------------------------- what the server sends

  datatype Payload = Ready(state: G.State) | Update(event: G.Event)

  /** The values of a Map in insertion order, as list entries. */
  function Listed<V, W>(t: G.Table<V>, entry: V -> Entry<W>): seq<Entry<W>> {
    seq(|t.order|, i requires 0 <= i < |t.order| =>
      if t.order[i] in t.rows then entry(t.rows[t.order[i]]) else Unusable)
  }

  function CameraEntry(c: G.Camera): Entry<G.CameraView> { Entry(c.identity.serial, G.View(c)) }
  function StationEntry(s: G.Station): Entry<G.Station> { Entry(s.serial, s) }
  function SensorEntry(s: G.Sensor): Entry<G.Sensor> { Entry(s.serial, s) }

  /** The keys of the JSON object the server writes for one payload. */
  function MessageOf(p: Payload): Message {
    match p
    case Ready(s) =>
      NOTHING.(cameras := Some(Listed(s.cameras, CameraEntry)), stations := Some(Listed(s.stations, StationEntry)),
               sensors := Some(Listed(s.sensors, SensorEntry)))
    case Update(CameraUpdated(c)) => NOTHING.(camera := Some(Entry(c.identity.serial, c)))
    case Update(StationUpdated(st)) => NOTHING.(station := Some(StationEntry(st)))
    case Update(SensorUpdated(se)) => NOTHING.(sensor := Some(SensorEntry(se)))
    case Update(_) => NOTHING
  }

  /** The gateway's own view of the three families. */
  function ViewOf(s: G.State): Data {
    Data(map k | k in s.cameras.rows :: G.View(s.cameras.rows[k]), s.stations.rows, s.sensors.rows)
  }

  function Updates(es: seq<G.Event>): seq<Message> {
    seq(|es|, i requires 0 <= i < |es| => MessageOf(Update(es[i])))
  }

  /** What the stream carries for one call of a run. */
  function Burst(cfg: G.Config, calls: seq<G.Call>, i: nat): seq<Message>
    requires i < |calls|
  {
    Updates(G.Apply(cfg, G.Run(cfg, calls[..i]), calls[i]).1)
  }

  function Bursts(cfg: G.Config, calls: seq<G.Call>, start: nat): seq<seq<Message>>
    requires start <= |calls|
  {
    seq(|calls| - start, i requires 0 <= i < |calls| - start => Burst(cfg, calls, start + i))
  }

  function Flat(bursts: seq<seq<Message>>): seq<Message> {
    if bursts == [] then [] else Flat(bursts[..|bursts| - 1]) + bursts[|bursts| - 1]
  }

  /** The messages of a connection made after the first `start` calls of a run. */
  function Stream(cfg: G.Config, calls: seq<G.Call>, start: nat): seq<Message>
    requires start <= |calls|
  {
    [MessageOf(Ready(G.Run(cfg, calls[..start])))] + Flat(Bursts(cfg, calls, start))
  }

  // --------------------------------------------------------------- one connection

  lemma {:induction false} NormalizedList<V>(items: seq<Entry<V>>, rows: map<string, V>, order: seq<string>)
    requires |items| == |order| && (forall i | 0 <= i < |order| :: order[i] in rows && items[i] == Entry(order[i], rows[order[i]]))
    ensures Normalized(items) == map k | k in rows && k in order :: rows[k]
    decreases |items|
  {
    if items != [] {
      var n := |items| - 1;
      NormalizedList(items[..n], rows, order[..n]);
      assert order == order[..n] + [order[n]];
      assert forall k :: k in order <==> k in order[..n] || k == order[n];
    }
  }

  /** A ready message replaces all three families, whatever the coordinator held. */
  lemma {:induction false} ReadyIsView(d: Data, s: G.State)
    requires TablesOk(s)
    ensures Merge(d, MessageOf(Ready(s))) == ViewOf(s)
  {
    var view := ViewOf(s);
    ListedIsTable(s.cameras, CameraEntry, view.cameras);
    ListedIsTable(s.stations, StationEntry, s.stations.rows);
    ListedIsTable(s.sensors, SensorEntry, s.sensors.rows);
    hide Normalized, Listed;
  }

  lemma {:induction false} ListedIsTable<V, W>(t: G.Table<V>, entry: V -> Entry<W>, view: map<string, W>)
    requires t.Valid() && view.Keys == t.rows.Keys
    requires forall k | k in t.rows :: entry(t.rows[k]) == Entry(k, view[k])
    ensures Normalized(Listed(t, entry)) == view
  {
    NormalizedList(Listed(t, entry), view, t.order);
    assert view == map k | k in view && k in t.order :: view[k];
  }

  /** The last message of a burst carries the whole step; a message before it carries nothing. */
  ghost predicate Carried(v: Data, v': Data, ms: seq<Message>) {
    && |ms| <= 2
    && (ms == [] ==> v' == v)
    && (ms != [] ==> Merge(v, ms[|ms| - 1]) == v')
    && (|ms| == 2 ==> ms[0] == NOTHING)
  }

  ghost predicate Carries(s: G.State, s': G.State, es: seq<G.Event>) {
    Carried(ViewOf(s), ViewOf(s'), Updates(es))
  }

  lemma {:induction false} PutCarries(s: G.State, s': G.State, c: G.Camera)
    requires s'.cameras == s.cameras.Set(c.identity.serial, c) && s'.stations == s.stations && s'.sensors == s.sensors
    ensures Merge(ViewOf(s), MessageOf(Update(G.CameraUpdated(G.View(c))))) == ViewOf(s')
  {
    assert ViewOf(s').cameras == ViewOf(s).cameras[c.identity.serial := G.View(c)];
  }

  lemma {:induction false} ReportCarries(cfg: G.Config, s: G.State, call: G.Call)
    requires G.IsReport(call)
    ensures Carries(s, G.Report(cfg, s, call).0, G.Report(cfg, s, call).1)
  {
    if G.Accepted(s, call) {
      PutCarries(s, G.Report(cfg, s, call).0, G.Reported(cfg, s, call));
      hide G.Reported, ViewOf, Merge, Merged;
    }
  }

  lemma {:induction false} CameraCarries(cfg: G.Config, s: G.State, call: G.Call)
    requires CamerasOk(s) && (call.RegisterCamera? || call.EnrichName? || call.SetMedia?)
    ensures Carries(s, G.Apply(cfg, s, call).0, G.Apply(cfg, s, call).1)
  {
    var (s', es) := G.Apply(cfg, s, call);
    if es != [] {
      var serial := if call.RegisterCamera? then call.identity.serial else call.serial;
      PutCarries(s, s', s'.cameras.rows[serial]);
      hide ViewOf, Merge, Merged;
    }
  }

  /** Every step of the gateway announces exactly its effect on the three families. */
  lemma {:induction false} ApplyCarries(cfg: G.Config, s: G.State, call: G.Call)
    requires TablesOk(s)
    ensures Carries(s, G.Apply(cfg, s, call).0, G.Apply(cfg, s, call).1)
  {
    if G.IsReport(call) {
      ReportCarries(cfg, s, call);
      SameView(G.Report(cfg, s, call).0, G.Apply(cfg, s, call).0);
      hide G.Report, ViewOf;
    } else if call.Fire? {
      var s1 := s.(timers := s.timers - {(call.serial, call.kind)});
      ReportCarries(cfg, s1, G.ClearCall(call.serial, call.kind, s.now));
      SameView(s, s1);
      hide G.Report, ViewOf;
    } else if call.RegisterCamera? || call.EnrichName? || call.SetMedia? {
      CameraCarries(cfg, s, call);
    } else {
      OtherCarries(cfg, s, call);
      hide Carries;
    }
  }

  lemma {:induction false} OtherCarries(cfg: G.Config, s: G.State, call: G.Call)
    requires !G.IsReport(call) && !call.Fire? && !call.RegisterCamera? && !call.EnrichName? && !call.SetMedia?
    ensures Carries(s, G.Apply(cfg, s, call).0, G.Apply(cfg, s, call).1)
  {
    hide G.MergeSensor, CamerasOk;
  }

  lemma {:induction false} SameView(s: G.State, s': G.State)
    requires s'.cameras == s.cameras && s'.stations == s.stations && s'.sensors == s.sensors
    ensures ViewOf(s') == ViewOf(s)
  {}

  lemma {:induction false} MergeAppend(d: Data, ms: seq<Message>, m: Message)
    ensures MergeAll(d, ms + [m]) == Merge(MergeAll(d, ms), m)
  {
    assert (ms + [m])[..|ms|] == ms;
  }

  /** Part of one burst leaves the old view, all of it the new one. */
  lemma {:induction false} MergeBurst(d: Data, ms: seq<Message>, v: Data, v': Data, burst: seq<Message>, p: nat)
    requires MergeAll(d, ms) == v && Carried(v, v', burst) && p <= |burst|
    ensures MergeAll(d, ms + burst[..p]) == if p == |burst| then v' else v
  {
    if p == 0 {
      assert ms + burst[..p] == ms;
    } else {
      MergeAppend(d, ms, burst[0]);
      if p == 1 {
        assert ms + burst[..p] == ms + [burst[0]];
      } else {
        MergeAppend(d, ms + [burst[0]], burst[1]);
        assert ms + burst[..p] == ms + [burst[0]] + [burst[1]];
      }
      hide MergeAll;
    }
  }

  ghost predicate Chained(views: seq<Data>, bursts: seq<seq<Message>>) {
    |views| == |bursts| + 1 && forall i | 0 <= i < |bursts| :: Carried(views[i], views[i + 1], bursts[i])
  }

  lemma {:induction false} MergeBursts(d: Data, ms: seq<Message>, views: seq<Data>, bursts: seq<seq<Message>>)
    requires Chained(views, bursts) && MergeAll(d, ms) == views[0]
    ensures MergeAll(d, ms + Flat(bursts)) == views[|bursts|]
    decreases |bursts|
  {
    hide Carried, Merge;
    if bursts == [] {
      assert MergeAll(d, ms) == views[0];
      assert ms + Flat(bursts) == ms;
    } else {
      var n := |bursts| - 1;
      MergeBursts(d, ms, views[..n + 1], bursts[..n]);
      MergeBurst(d, ms + Flat(bursts[..n]), views[n], views[n + 1], bursts[n], |bursts[n]|);
      assert bursts[n][..|bursts[n]|] == bursts[n];
      assert ms + Flat(bursts) == ms + Flat(bursts[..n]) + bursts[n];
    }
  }

  /** `j` is the last view all of whose messages are among the first `p`. */
  ghost predicate Reached(bursts: seq<seq<Message>>, p: nat, j: nat) {
    && j <= |bursts| && |Flat(bursts[..j])| <= p
    && (j < |bursts| ==> p < |Flat(bursts[..j + 1])|)
  }

  lemma {:induction false} MergePrefix(d: Data, ms: seq<Message>, views: seq<Data>, bursts: seq<seq<Message>>, p: nat)
      returns (j: nat)
    requires Chained(views, bursts) && MergeAll(d, ms) == views[0] && p <= |Flat(bursts)|
    ensures Reached(bursts, p, j) && MergeAll(d, ms + Flat(bursts)[..p]) == views[j]
    ensures p == |Flat(bursts)| ==> j == |bursts|
    decreases |bursts|
  {
    hide Carried, Merge, MergeAll;
    if p == |Flat(bursts)| {
      j := |bursts|;
      MergeBursts(d, ms, views, bursts);
      assert bursts[..j] == bursts && Flat(bursts)[..p] == Flat(bursts);
    } else {
      var n := |bursts| - 1;
      var init := bursts[..n];
      assert Flat(bursts) == Flat(init) + bursts[n];
      assert bursts[..n + 1] == bursts;
      if p < |Flat(init)| {
        j := MergePrefix(d, ms, views[..n + 1], init, p);
        assert Flat(bursts)[..p] == Flat(init)[..p];
        assert init[..n] == init;
        assert j < n;
        assert init[..j] == bursts[..j] && init[..j + 1] == bursts[..j + 1];
      } else {
        j := n;
        MergeBursts(d, ms, views[..n + 1], init);
        var q := p - |Flat(init)|;
        MergeBurst(d, ms + Flat(init), views[n], views[n + 1], bursts[n], q);
        assert ms + Flat(bursts)[..p] == ms + Flat(init) + bursts[n][..q];
      }
    }
  }

  /** The gateway's views after each call from `start` on. */
  function Views(cfg: G.Config, calls: seq<G.Call>, start: nat): (views: seq<Data>)
    requires start <= |calls|
  {
    seq(|calls| - start + 1, i requires 0 <= i <= |calls| - start => ViewOf(G.Run(cfg, calls[..start + i])))
  }

  lemma {:induction false} ViewsChained(cfg: G.Config, calls: seq<G.Call>, start: nat)
    requires start <= |calls|
    ensures Chained(Views(cfg, calls, start), Bursts(cfg, calls, start))
  {
    hide Carried, ViewOf, Burst, G.Run;
    var views, bursts := Views(cfg, calls, start), Bursts(cfg, calls, start);
    forall i | 0 <= i < |bursts| ensures Carried(views[i], views[i + 1], bursts[i]) {
      StepCarried(cfg, calls, start + i);
      assert calls[..start + (i + 1)] == calls[..start + i + 1];
    }
  }

  lemma {:induction false} StepCarried(cfg: G.Config, calls: seq<G.Call>, i: nat)
    requires i < |calls|
    ensures Carried(ViewOf(G.Run(cfg, calls[..i])), ViewOf(G.Run(cfg, calls[..i + 1])), Burst(cfg, calls, i))
  {
    hide Carried, ViewOf, G.Run, G.Apply, TablesOk, CamerasOk;
    RunTables(cfg, calls[..i]);
    ApplyCarries(cfg, G.Run(cfg, calls[..i]), calls[i]);
    assert calls[..i + 1] == calls[..i] + [calls[i]];
    RunStep(cfg, calls[..i], calls[i]);
  }

  /**
   * Replica agreement. Whatever a coordinator held before it connected after
   * `start` calls, once it has merged the ready message and any `p` of the messages
   * that follow, it shows the gateway exactly as it was after some call `j`: the
   * last one all of whose announcements are among those `p`. With every message
   * merged that is the current state.
   */
  lemma {:induction false} ReplicaLags(cfg: G.Config, calls: seq<G.Call>, start: nat, p: nat, d: Data) returns (j: nat)
    requires start <= |calls| && p <= |Flat(Bursts(cfg, calls, start))|
    ensures start <= j <= |calls| && Reached(Bursts(cfg, calls, start), p, j - start)
    ensures MergeAll(d, Stream(cfg, calls, start)[..p + 1]) == ViewOf(G.Run(cfg, calls[..j]))
    ensures p == |Flat(Bursts(cfg, calls, start))| ==> j == |calls|
  {
    hide MergeAll, Flat, G.Run, MessageOf, ViewOf, TablesOk, Chained, Merge, Reached, Burst, Listed, CamerasOk;
    RunTables(cfg, calls[..start]);
    var s0 := G.Run(cfg, calls[..start]);
    var ready, bursts, views := MessageOf(Ready(s0)), Bursts(cfg, calls, start), Views(cfg, calls, start);
    ReadyIsView(d, s0);
    ViewsChained(cfg, calls, start);
    assert calls[..start + 0] == calls[..start];
    var i := MergeConnection(d, ready, views, bursts, p);
    j := start + i;
    assert Stream(cfg, calls, start) == [ready] + Flat(bursts);
    assert views[i] == ViewOf(G.Run(cfg, calls[..start + i]));
  }

  lemma {:induction false} MergeConnection(d: Data, ready: Message, views: seq<Data>, bursts: seq<seq<Message>>, p: nat)
      returns (i: nat)
    requires Chained(views, bursts) && Merge(d, ready) == views[0] && p <= |Flat(bursts)|
    ensures Reached(bursts, p, i) && MergeAll(d, ([ready] + Flat(bursts))[..p + 1]) == views[i]
    ensures p == |Flat(bursts)| ==> i == |bursts|
  {
    MergeAppend(d, [], ready);
    assert [] + [ready] == [ready];
    i := MergePrefix(d, [ready], views, bursts, p);
    assert ([ready] + Flat(bursts))[..p + 1] == [ready] + Flat(bursts)[..p];
  }
}
