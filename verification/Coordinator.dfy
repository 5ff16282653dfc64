/** The coordinator's event handling, updating its data in place. */
module CoordinatorModule {
  import opened Basics
  import opened Replica
  import G = Gateway

  class Coordinator {
    var data: Data

    constructor (data: Data)
      ensures this.data == data
    {
      this.data := data;
    }

    /** Index one decoded list by serial, skipping what is not a dictionary with a string serial. */
    static method Normalize<V>(items: seq<Entry<V>>) returns (normalized: map<string, V>)
      ensures normalized == Normalized(items)
    {
      normalized := map[];
      for i := 0 to |items|
        invariant normalized == Normalized(items[..i])
      {
        assert items[..i + 1][..i] == items[..i];
        match items[i] {
          case Entry(serial, value) => normalized := normalized[serial := value];
          case Unusable =>
        }
      }
      assert items[..|items|] == items;
    }

    method SetCamera(camera: Entry<G.CameraView>)
      modifies `data
      ensures data == old(data).(cameras := Merged(old(data).cameras, None, Some(camera)))
    {
      if camera.Entry? {
        var updated := data.cameras;
        updated := updated[camera.serial := camera.value];
        data := Data(updated, data.stations, data.sensors);
      }
    }

    method SetStation(station: Entry<G.Station>)
      modifies `data
      ensures data == old(data).(stations := Merged(old(data).stations, None, Some(station)))
    {
      if station.Entry? {
        var updated := data.stations;
        updated := updated[station.serial := station.value];
        data := Data(data.cameras, updated, data.sensors);
      }
    }

    /** One event: full inventories and single devices, in the order the keys are examined. */
    method ApplyEvent(event: Message)
      modifies `data
      ensures data == Merge(old(data), event)
    {
      if event.cameras.Some? {
        var normalized := Normalize(event.cameras.value);
        data := Data(normalized, data.stations, data.sensors);
      }
      if event.stations.Some? {
        var normalized := Normalize(event.stations.value);
        data := Data(data.cameras, normalized, data.sensors);
      }
      if event.camera.Some? { SetCamera(event.camera.value); }
      if event.station.Some? { SetStation(event.station.value); }
      if event.sensors.Some? {
        var normalized := Normalize(event.sensors.value);
        data := Data(data.cameras, data.stations, normalized);
      }
      if event.sensor.Some? && event.sensor.value.Entry? {
        var updated := data.sensors;
        updated := updated[event.sensor.value.serial := event.sensor.value.value];
        data := Data(data.cameras, data.stations, updated);
      }
    }

    /** The events of one connection, merged as they arrive. */
    method Listen(events: seq<Message>)
      modifies `data
      ensures data == MergeAll(old(data), events)
    {
      for i := 0 to |events|
        invariant data == MergeAll(old(data), events[..i])
      {
        assert events[..i + 1][..i] == events[..i];
        ApplyEvent(events[i]);
      }
      assert events[..|events|] == events;
    }
  }
}
