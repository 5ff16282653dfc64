/** The diagnostic capture session as it is updated in place. */
module BundleSession {
  import opened Basics
  import B = BundleCapture
  import D = DiagnosticBundle
  import C = BundleConsent

  /** The limits of the session, and nothing in it that was not asked for. */
  ghost predicate Good(s: B.State) { B.Inv(s) && C.Consented(s) && s.options.Valid() }

  /** What one admissible call keeps: the session invariant, and the minute when its stamp lies in it. */
  lemma {:induction false} StepKeeps(s: B.State, step: B.Step)
    requires Good(s) && B.Admissible(s, step)
    ensures Good(B.Apply(s, step))
    ensures D.WithinMinute(s) && (D.StampsInTime(s, step) || D.OneReading(step)) ==> D.WithinMinute(B.Apply(s, step))
  {
    hide B.Inv, B.Admissible, B.Apply, C.Consented, D.WithinMinute, D.StampsInTime, D.OneReading;
    B.StepInv(s, step);
    C.StepConsented(s, step);
    if D.WithinMinute(s) && (D.StampsInTime(s, step) || D.OneReading(step)) { D.StepWithin(s, step); }
  }

  lemma {:induction false} DropKeeps(s: B.State)
    requires Good(s)
    ensures Good(s.(dropped := s.dropped + 1))
  {
    hide B.Timed, B.IdsOk, B.Total, C.Consented;
    C.SameConsented(s, s.(dropped := s.dropped + 1));
  }

  lemma {:induction false} NoMedia(s: B.State)
    requires Good(s) && !s.options.media
    ensures s.media == []
  {}

  lemma {:induction false} NamingKeeps(s: B.State, serials: seq<string>)
    requires Good(s)
    ensures Good(B.IdentifyAll(s, serials))
  {
    hide B.Timed, B.IdsOk, B.Total, B.IdentifyAll, C.Consented, C.Extends;
    B.IdentifyAllKeeps(s, serials);
    C.AllExtends(s, serials);
    C.SameConsented(s, B.IdentifyAll(s, serials));
  }

  /** The archive of a valid session passes the inspector exactly when no stamp lies beyond the minute. */
  lemma {:induction false} PackedIff(digest: bytes -> string, s: B.State)
    requires Good(s)
    ensures D.Acceptable(digest, B.Packed(digest, s)) <==> D.WithinMinute(s)
    ensures !s.options.media ==> B.Packed(digest, s).media == []
  {
    hide B.Inv, D.Acceptable, D.WithinMinute, B.Row;
    D.FieldsAcceptable(digest, s, B.Packed(digest, s));
  }

  class BundleCapture {
    const options: B.Options
    const started: real
    ghost var now: real
    var ids: map<string, nat>
    var selected: set<string>
    var records: seq<B.Record>
    var samples: seq<B.Media>
    var bytes: nat
    var dropped: nat
    var phase: B.Phase

    ghost function State(): B.State
      reads this
    {
      B.State(options, started, now, ids, selected, records, samples, bytes, dropped, phase)
    }

    /** Counts, bytes, times, pseudonyms, consent and selection are as the session promises. */
    ghost predicate Valid()
      reads this
    {
      Good(State())
    }

    /** No stamp kept so far lies beyond the minute. */
    ghost predicate WithinMinute()
      reads this
    {
      D.WithinMinute(State())
    }

    constructor (options: B.Options, started: real)
      requires options.Valid()
      ensures Valid() && WithinMinute() && State() == B.Initial(options, started)
    {
      this.options, this.started, now := options, started, started;
      ids, selected, records, samples, bytes, dropped, phase := map[], {}, [], [], 0, 0, B.Active;
    }

    method Elapsed(reading: real) returns (ms: int)
      ensures ms == B.Elapsed(State(), reading)
    {
      ms := (reading - started + 0.5).Floor;
      if ms < 0 { ms := 0; }
    }

    method Id(serial: string) returns (id: nat)
      modifies `ids
      ensures State() == B.Identify(old(State()), serial) && serial in ids && id == ids[serial]
    {
      if serial !in ids { ids := ids[serial := |ids| + 1]; }
      id := ids[serial];
    }

    method Stop(reason: B.Phase)
      requires Valid() && reason in {B.Stopped, B.DurationLimit, B.SizeLimit, B.RecordLimit}
      modifies `phase
      ensures Valid() && State() == B.Apply(old(State()), B.Stop(reason))
      ensures old(WithinMinute()) ==> WithinMinute()
    {
      hide Good, D.WithinMinute;
      StepKeeps(State(), B.Stop(reason));
      if phase == B.Active { phase := reason; }
    }

    method Clear(reason: B.Phase)
      requires Valid() && reason in {B.Cleared, B.Expired}
      modifies `records, `samples, `ids, `selected, `bytes, `phase
      ensures Valid() && WithinMinute() && State() == B.Apply(old(State()), B.Clear(reason))
    {
      hide Good;
      StepKeeps(State(), B.Clear(reason));
      samples, records := [], [];
      ids, selected := map[], {};
      bytes := 0;
      phase := reason;
    }

    method Select(serial: string)
      requires Valid()
      modifies `selected, `ids
      ensures Valid() && State() == B.Apply(old(State()), B.Select(serial))
      ensures old(WithinMinute()) ==> WithinMinute()
    {
      hide Good, D.WithinMinute;
      StepKeeps(State(), B.Select(serial));
      selected := selected + {serial};
      var _ := Id(serial);
    }

    /** The expiry test reads the clock once for retention and once more for the capture time. */
    method Expire(clock: B.Readings)
      requires Valid() && clock.From(now)
      modifies `now, `records, `samples, `ids, `selected, `bytes, `phase
      ensures Valid() && State() == B.Apply(old(State()), B.Status(clock)) && now == clock.stamp
      ensures old(WithinMinute()) ==> WithinMinute()
    {
      hide Good, D.WithinMinute;
      StepKeeps(State(), B.Status(clock));
      if phase != B.Cleared && phase != B.Expired {
        var age := Elapsed(clock.retention);
        if age >= B.RETENTION_MS {
          Clear(B.Expired);
        } else {
          age := Elapsed(clock.duration);
          if age >= options.seconds * 1000 { Stop(B.DurationLimit); }
        }
      }
      now := clock.stamp;
    }

    predicate Includes(serial: string)
      reads this
      ensures Includes(serial) == B.Includes(State(), serial)
    {
      options.everything || serial in selected
    }

    method Record(clock: B.Readings, event: string, serial: Option<string>, details: nat)
      requires Valid() && clock.From(now)
      modifies `now, `records, `samples, `ids, `selected, `bytes, `phase, `dropped
      ensures Valid() && State() == B.Apply(old(State()), B.Note(clock, event, serial, details))
      ensures old(WithinMinute()) && (clock.Single() || B.Elapsed(old(State()), clock.stamp) <= 60000) ==> WithinMinute()
    {
      hide Good, D.WithinMinute, B.Elapsed;
      StepKeeps(State(), B.Note(clock, event, serial, details));
      Expire(clock);
      if phase != B.Active || (serial.Some? && !Includes(serial.value)) { return; }
      if |records| + |samples| >= B.MAX_RECORDS {
        Overflow(B.RecordLimit);
        return;
      }
      var offset := Elapsed(clock.stamp);
      var device := None;
      if serial.Some? {
        var id := Id(serial.value);
        device := Some(id);
      }
      records := records + [B.Record(offset, event, device, details)];
    }

    method Transport(clock: B.Readings, serial: string, details: nat)
      requires Valid() && clock.From(now)
      modifies `now, `records, `samples, `ids, `selected, `bytes, `phase
      ensures Valid() && State() == B.Apply(old(State()), B.Transport(clock, serial, details))
      ensures old(WithinMinute()) && (clock.Single() || B.Elapsed(old(State()), clock.stamp) <= 60000) ==> WithinMinute()
    {
      hide Good, D.WithinMinute, B.Elapsed;
      StepKeeps(State(), B.Transport(clock, serial, details));
      Expire(clock);
      if phase != B.Active || !Includes(serial) { return; }
      if |records| + |samples| >= B.MAX_RECORDS {
        Stop(B.RecordLimit);
        return;
      }
      var offset := Elapsed(clock.stamp);
      var id := Id(serial);
      records := records + [B.Record(offset, "source-transport", Some(id), details)];
    }

    method Media(clock: B.Readings, serial: string, kind: B.MediaKind, codec: B.Codec, data: bytes)
      requires Valid() && clock.From(now)
      modifies `now, `records, `samples, `ids, `selected, `bytes, `phase, `dropped
      ensures Valid() && State() == B.Apply(old(State()), B.Sample(clock, serial, kind, codec, data))
      ensures !options.media ==> State() == old(State()) && samples == []
      ensures old(WithinMinute()) && (clock.Single() || B.Elapsed(old(State()), clock.stamp) <= 60000) ==> WithinMinute()
    {
      hide Good, D.WithinMinute, B.Elapsed;
      StepKeeps(State(), B.Sample(clock, serial, kind, codec, data));
      if !options.media {
        NoMedia(State());
        return;
      }
      Expire(clock);
      if phase != B.Active || !Includes(serial) || data == [] { return; }
      if bytes + |data| > B.MAX_BYTES {
        Overflow(B.SizeLimit);
      } else if |records| + |samples| >= B.MAX_RECORDS {
        Overflow(B.RecordLimit);
      } else {
        Add(clock.stamp, serial, kind, codec, data);
      }
    }

    /** What does not fit is counted and ends the capture. */
    method Overflow(reason: B.Phase)
      requires Valid() && reason in {B.SizeLimit, B.RecordLimit}
      modifies `phase, `dropped
      ensures State() == B.Drop(old(State()), reason)
    {
      hide Good;
      DropKeeps(State());
      dropped := dropped + 1;
      Stop(reason);
    }

    method Add(stamp: real, serial: string, kind: B.MediaKind, codec: B.Codec, data: bytes)
      modifies `samples, `ids, `bytes
      ensures State() == B.AddMedia(old(State()), stamp, serial, kind, codec, data)
    {
      hide B.Elapsed;
      var offset := Elapsed(stamp);
      var id := Id(serial);
      samples := samples + [B.Media(offset, id, kind, codec, data)];
      bytes := bytes + |data|;
    }

    method Pack(digest: bytes -> string) returns (archive: B.Archive)
      ensures archive == B.Packed(digest, State())
    {
      var rows: seq<B.MediaRow> := [];
      for i := 0 to |samples|
        invariant |rows| == i && forall j | 0 <= j < i :: rows[j] == B.Row(digest, samples[j])
      {
        rows := rows + [B.Row(digest, samples[i])];
      }
      assert rows == B.Rows(digest, samples);
      archive := B.Archive("eufy-diagnostics-1", {"schema", "summary", "capture", "stages", "records", "media"}, records, rows, bytes);
    }

    /** The summary names its devices under their pseudonyms. */
    method Summarize(serials: seq<string>)
      requires Valid()
      modifies `ids
      ensures Valid() && State() == B.IdentifyAll(old(State()), serials)
    {
      hide Good;
      NamingKeeps(State(), serials);
      for i := 0 to |serials|
        invariant State() == B.IdentifyAll(old(State()), serials[..i])
      {
        assert serials[..i + 1][..i] == serials[..i];
        var _ := Id(serials[i]);
      }
      assert serials[..|serials|] == serials;
    }

    /** Stop, summarize and build the archive; nothing once the evidence is gone. */
    method Archive(digest: bytes -> string, first: B.Readings, serials: seq<string>, second: B.Readings)
        returns (archive: Option<B.Archive>)
      requires Valid() && first.From(now) && second.From(first.stamp)
      modifies `now, `records, `samples, `ids, `selected, `bytes, `phase
      ensures Valid() && State() == B.Apply(old(State()), B.Export(first, serials, second))
      ensures archive == B.Exported(digest, old(State()), first, serials, second)
      ensures archive.Some? ==> (D.Acceptable(digest, archive.value) <==> WithinMinute())
      ensures archive.Some? && !options.media ==> archive.value.media == []
      ensures old(WithinMinute()) ==> WithinMinute()
    {
      hide Good, D.WithinMinute, D.Acceptable, B.Elapsed, B.Packed, B.Expire, B.StopWith, B.IdentifyAll;
      StepKeeps(State(), B.Export(first, serials, second));
      Expire(first);
      if phase == B.Cleared || phase == B.Expired { return None; }
      Stop(B.Stopped);
      Summarize(serials);
      Expire(second);
      PackedIff(digest, State());
      var packed := Pack(digest);
      archive := Some(packed);
    }
  }
}
