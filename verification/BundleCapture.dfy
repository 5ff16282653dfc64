/**
 * One diagnostic capture session: bounded records and media with relative times and
 * pseudonyms, and the archive it exports.
 */
module BundleCapture {
  import opened Basics
  import Base64

  const MAX_BYTES := 64 * 1024 * 1024
  const MAX_RECORDS := 20000
  const RETENTION_MS := 600000

  datatype MediaKind = Video | Audio | Snapshot | EventImage {
    function Name(): string {
      match this case Video => "video" case Audio => "audio" case Snapshot => "snapshot" case EventImage => "event-image"
    }
  }

  datatype Codec = H264 | H265 | Unknown | Aac | Jpeg {
    function Name(): string {
      match this case H264 => "h264" case H265 => "h265" case Unknown => "unknown" case Aac => "aac" case Jpeg => "jpeg"
    }
  }

  datatype Phase = Active | Stopped | DurationLimit | SizeLimit | RecordLimit | Cleared | Expired

  /** `details` stands for the code, counters and other fields of a record that no rule reads. */
  datatype Record = Record(offsetMs: int, event: string, device: Option<nat>, details: nat)

  datatype Media = Media(offsetMs: int, device: nat, kind: MediaKind, codec: Codec, data: bytes)

  /** `everything` is the target that includes every device. */
  datatype Options = Options(everything: bool, seconds: nat, media: bool) {
    predicate Valid() { seconds == 30 || seconds == 60 }
  }

  /** `now` is the last clock reading any call made. */
  datatype State = State(
    options: Options,
    started: real,
    now: real,
    ids: map<string, nat>,
    selected: set<string>,
    records: seq<Record>,
    media: seq<Media>,
    bytes: nat,
    dropped: nat,
    phase: Phase)

  /** The clock readings of one call: two by the expiry test, one by the time stamp. */
  datatype Readings = Readings(retention: real, duration: real, stamp: real) {
    predicate From(now: real) { now <= retention <= duration <= stamp }
    predicate Single() { retention == duration == stamp }
  }

  datatype Step =
    | Select(serial: string)
    | Note(clock: Readings, event: string, about: Option<string>, details: nat)
    | Transport(clock: Readings, serial: string, details: nat)
    | Sample(clock: Readings, serial: string, kind: MediaKind, codec: Codec, data: bytes)
    | Stop(reason: Phase)
    | Clear(reason: Phase)
    | Status(clock: Readings)
    | Export(first: Readings, serials: seq<string>, second: Readings)

  predicate Gone(s: State) { s.phase == Cleared || s.phase == Expired }

  /** `Math.round`, then never negative. */
  function Elapsed(s: State, t: real): int {
    var rounded := (t - s.started + 0.5).Floor;
    if rounded < 0 then 0 else rounded
  }

  function StopWith(s: State, reason: Phase): State {
    if s.phase == Active then s.(phase := reason) else s
  }

  function ClearWith(s: State, reason: Phase): State {
    s.(records := [], media := [], ids := map[], selected := {}, bytes := 0, phase := reason)
  }

  function Expire(s: State, clock: Readings): State {
    var s' := s.(now := clock.stamp);
    if Gone(s) then s'
    else if Elapsed(s, clock.retention) >= RETENTION_MS then ClearWith(s', Expired)
    else if Elapsed(s, clock.duration) >= s.options.seconds * 1000 then StopWith(s', DurationLimit)
    else s'
  }

  function Identify(s: State, serial: string): State {
    if serial in s.ids then s else s.(ids := s.ids[serial := |s.ids| + 1])
  }

  function IdentifyAll(s: State, serials: seq<string>): State {
    if serials == [] then s else Identify(IdentifyAll(s, serials[..|serials| - 1]), serials[|serials| - 1])
  }

  predicate Includes(s: State, serial: string) { s.options.everything || serial in s.selected }

  predicate Full(s: State) { |s.records| + |s.media| >= MAX_RECORDS }

  function Drop(s: State, reason: Phase): State { StopWith(s.(dropped := s.dropped + 1), reason) }

  function AddRecord(s: State, stamp: real, event: string, serial: Option<string>, details: nat): State {
    var s' := if serial.Some? then Identify(s, serial.value) else s;
    var device := if serial.Some? then Some(s'.ids[serial.value]) else None;
    s'.(records := s'.records + [Record(Elapsed(s, stamp), event, device, details)])
  }

  function AddMedia(s: State, stamp: real, serial: string, kind: MediaKind, codec: Codec, data: bytes): State {
    var s' := Identify(s, serial);
    s'.(media := s'.media + [Media(Elapsed(s, stamp), s'.ids[serial], kind, codec, data)], bytes := s'.bytes + |data|)
  }

  function NoteStep(s: State, clock: Readings, event: string, serial: Option<string>, details: nat): State {
    var s' := Expire(s, clock);
    if s'.phase != Active || (serial.Some? && !Includes(s', serial.value)) then s'
    else if Full(s') then Drop(s', RecordLimit)
    else AddRecord(s', clock.stamp, event, serial, details)
  }

  function TransportStep(s: State, clock: Readings, serial: string, details: nat): State {
    var s' := Expire(s, clock);
    if s'.phase != Active || !Includes(s', serial) then s'
    else if Full(s') then StopWith(s', RecordLimit)
    else AddRecord(s', clock.stamp, "source-transport", Some(serial), details)
  }

  function SampleStep(s: State, clock: Readings, serial: string, kind: MediaKind, codec: Codec, data: bytes): State {
    if !s.options.media then s
    else
      var s' := Expire(s, clock);
      if s'.phase != Active || !Includes(s', serial) || data == [] then s'
      else if s'.bytes + |data| > MAX_BYTES then Drop(s', SizeLimit)
      else if Full(s') then Drop(s', RecordLimit)
      else AddMedia(s', clock.stamp, serial, kind, codec, data)
  }

  // ------------------------------------------------------------------ the archive

  datatype MediaRow = MediaRow(members: set<string>, offsetMs: int, device: nat, kind: string, codec: string, bytes: int,
                               sha256: string, base64: string)

  datatype Archive = Archive(schema: string, members: set<string>, records: seq<Record>, media: seq<MediaRow>, mediaBytes: int)

  /** The digest is the same function on both sides. */
  function Row(digest: bytes -> string, m: Media): MediaRow {
    MediaRow({"offsetMs", "device", "kind", "codec", "bytes", "sha256", "base64"}, m.offsetMs, m.device, m.kind.Name(),
             m.codec.Name(), |m.data|, digest(m.data), Base64.Encode(m.data))
  }

  /** The state an export leaves: stopped, the summary's devices named, and possibly expired while being built. */
  function ExportStep(s: State, first: Readings, serials: seq<string>, second: Readings): State {
    var s1 := Expire(s, first);
    if Gone(s1) then s1 else Expire(IdentifyAll(StopWith(s1, Stopped), serials), second)
  }

  function Rows(digest: bytes -> string, media: seq<Media>): (rows: seq<MediaRow>)
    ensures |rows| == |media| && forall i | 0 <= i < |media| :: rows[i] == Row(digest, media[i])
  {
    seq(|media|, i requires 0 <= i < |media| => Row(digest, media[i]))
  }

  /** The archive of the evidence a state holds. */
  function Packed(digest: bytes -> string, s: State): Archive {
    Archive("eufy-diagnostics-1", {"schema", "summary", "capture", "stages", "records", "media"}, s.records,
            Rows(digest, s.media), s.bytes)
  }

  function Exported(digest: bytes -> string, s: State, first: Readings, serials: seq<string>, second: Readings): Option<Archive> {
    if Gone(Expire(s, first)) then None else Some(Packed(digest, ExportStep(s, first, serials, second)))
  }

  function Apply(s: State, step: Step): State {
    match step
    case Select(serial) => Identify(s.(selected := s.selected + {serial}), serial)
    case Note(clock, event, serial, details) => NoteStep(s, clock, event, serial, details)
    case Transport(clock, serial, details) => TransportStep(s, clock, serial, details)
    case Sample(clock, serial, kind, codec, data) => SampleStep(s, clock, serial, kind, codec, data)
    case Stop(reason) => StopWith(s, reason)
    case Clear(reason) => ClearWith(s, reason)
    case Status(clock) => Expire(s, clock)
    case Export(first, serials, second) => ExportStep(s, first, serials, second)
  }

  /** What the callers respect: the clock does not run backwards, and the reasons are the declared ones. */
  predicate Admissible(s: State, step: Step) {
    match step
    case Note(clock, _, _, _) => clock.From(s.now)
    case Transport(clock, _, _) => clock.From(s.now)
    case Sample(clock, _, _, _, _) => clock.From(s.now)
    case Stop(reason) => reason in {Stopped, DurationLimit, SizeLimit, RecordLimit}
    case Clear(reason) => reason in {Cleared, Expired}
    case Status(clock) => clock.From(s.now)
    case Export(first, _, second) => first.From(s.now) && second.From(first.stamp)
    case Select(_) => true
  }

  function Initial(options: Options, started: real): State {
    State(options, started, started, map[], {}, [], [], 0, 0, Active)
  }

  /** Every step of a run is admissible where it happens. */
  ghost predicate AllAdmissible(s: State, steps: seq<Step>)
    decreases |steps|
  {
    steps == [] || (Admissible(s, steps[0]) && AllAdmissible(Apply(s, steps[0]), steps[1..]))
  }

  function Run(s: State, steps: seq<Step>): State
    decreases |steps|
  {
    if steps == [] then s else Run(Apply(s, steps[0]), steps[1..])
  }

  // -------------------------------------------------------------------- invariants

  function Total(media: seq<Media>): nat {
    if media == [] then 0 else Total(media[..|media| - 1]) + |media[|media| - 1].data|
  }

  /** Times that never decrease and are no later than `bound`. */
  ghost predicate Timed(offsets: seq<int>, bound: int) {
    && (forall i | 0 <= i < |offsets| :: 0 <= offsets[i] <= bound)
    && forall i, j | 0 <= i < j < |offsets| :: offsets[i] <= offsets[j]
  }

  function RecordTimes(records: seq<Record>): seq<int> {
    seq(|records|, i requires 0 <= i < |records| => records[i].offsetMs)
  }

  function MediaTimes(media: seq<Media>): seq<int> {
    seq(|media|, i requires 0 <= i < |media| => media[i].offsetMs)
  }

  /** Pseudonyms are 1, 2, ... and no two devices share one. */
  ghost predicate IdsOk(ids: map<string, nat>) {
    && (forall k | k in ids :: 1 <= ids[k] <= |ids|)
    && forall j, k | j in ids && k in ids && j != k :: ids[j] != ids[k]
  }

  ghost predicate Inv(s: State) {
    && |s.records| + |s.media| <= MAX_RECORDS
    && s.bytes == Total(s.media) <= MAX_BYTES
    && s.started <= s.now
    && Timed(RecordTimes(s.records), Elapsed(s, s.now))
    && Timed(MediaTimes(s.media), Elapsed(s, s.now))
    && IdsOk(s.ids)
    && (Gone(s) ==> s.records == [] && s.media == [])
  }

  lemma {:induction false} ElapsedGrows(s: State, t: real, t': real)
    requires t <= t'
    ensures Elapsed(s, t) <= Elapsed(s, t')
  {}

  lemma {:induction false} TimedLater(offsets: seq<int>, bound: int, bound': int)
    requires Timed(offsets, bound) && bound <= bound'
    ensures Timed(offsets, bound')
  {}

  lemma {:induction false} TimedAppend(offsets: seq<int>, bound: int)
    requires Timed(offsets, bound) && bound >= 0
    ensures Timed(offsets + [bound], bound)
  {}

  lemma {:induction false} IdentifyKeeps(s: State, serial: string)
    requires IdsOk(s.ids)
    ensures var s' := Identify(s, serial); IdsOk(s'.ids) && serial in s'.ids && s'.(ids := s.ids) == s
  {
    if serial !in s.ids {
      assert s.ids[serial := |s.ids| + 1].Keys == s.ids.Keys + {serial};
      assert |s.ids[serial := |s.ids| + 1]| == |s.ids| + 1;
    }
  }

  lemma {:induction false} IdentifyAllKeeps(s: State, serials: seq<string>)
    requires IdsOk(s.ids)
    ensures var s' := IdentifyAll(s, serials); IdsOk(s'.ids) && s'.(ids := s.ids) == s
    decreases |serials|
  {
    if serials != [] {
      IdentifyAllKeeps(s, serials[..|serials| - 1]);
      IdentifyKeeps(IdentifyAll(s, serials[..|serials| - 1]), serials[|serials| - 1]);
    }
  }

  lemma {:induction false} ExpireKeeps(s: State, clock: Readings)
    requires Inv(s) && clock.From(s.now)
    ensures Inv(Expire(s, clock)) && Expire(s, clock).now == clock.stamp
    ensures Expire(s, clock).options == s.options && Expire(s, clock).started == s.started
  {
    hide IdsOk, Timed;
    ElapsedGrows(s, s.now, clock.stamp);
    TimedLater(RecordTimes(s.records), Elapsed(s, s.now), Elapsed(s, clock.stamp));
    TimedLater(MediaTimes(s.media), Elapsed(s, s.now), Elapsed(s, clock.stamp));
    EmptyIsTimed(Elapsed(s, clock.stamp));
  }

  lemma {:induction false} EmptyIsTimed(bound: int)
    ensures Timed(RecordTimes([]), bound) && Timed(MediaTimes([]), bound) && IdsOk(map[])
  {}

  lemma {:induction false} RecordKeeps(s: State, event: string, serial: Option<string>, details: nat)
    requires Inv(s) && !Full(s) && !Gone(s)
    ensures Inv(AddRecord(s, s.now, event, serial, details))
  {
    if serial.Some? { IdentifyKeeps(s, serial.value); }
    hide IdsOk, Timed;
    var s' := AddRecord(s, s.now, event, serial, details);
    assert RecordTimes(s'.records) == RecordTimes(s.records) + [Elapsed(s, s.now)];
    TimedAppend(RecordTimes(s.records), Elapsed(s, s.now));
  }

  lemma {:induction false} MediaKeeps(s: State, serial: string, kind: MediaKind, codec: Codec, data: bytes)
    requires Inv(s) && !Full(s) && !Gone(s) && s.bytes + |data| <= MAX_BYTES
    ensures Inv(AddMedia(s, s.now, serial, kind, codec, data))
  {
    IdentifyKeeps(s, serial);
    hide IdsOk, Timed;
    var s' := AddMedia(s, s.now, serial, kind, codec, data);
    assert MediaTimes(s'.media) == MediaTimes(s.media) + [Elapsed(s, s.now)];
    assert s'.media[..|s'.media| - 1] == s.media;
    TimedAppend(MediaTimes(s.media), Elapsed(s, s.now));
  }

  lemma {:induction false} StepInv(s: State, step: Step)
    requires Inv(s) && Admissible(s, step)
    ensures Inv(Apply(s, step))
  {
    hide Timed, IdsOk, AddRecord, AddMedia, Expire, Identify;
    match step {
      case Select(serial) => IdentifyKeeps(s.(selected := s.selected + {serial}), serial);
      case Note(clock, event, serial, details) =>
        ExpireKeeps(s, clock);
        var s' := Expire(s, clock);
        if !Full(s') && s'.phase == Active { RecordKeeps(s', event, serial, details); }
      case Transport(clock, serial, details) =>
        ExpireKeeps(s, clock);
        var s' := Expire(s, clock);
        if !Full(s') && s'.phase == Active { RecordKeeps(s', "source-transport", Some(serial), details); }
      case Sample(clock, serial, kind, codec, data) =>
        ExpireKeeps(s, clock);
        var s' := Expire(s, clock);
        if !Full(s') && s'.phase == Active && s'.bytes + |data| <= MAX_BYTES { MediaKeeps(s', serial, kind, codec, data); }
      case Stop(_) =>
      case Clear(_) => EmptyIsTimed(Elapsed(s, s.now));
      case Status(clock) => ExpireKeeps(s, clock);
      case Export(first, serials, second) =>
        ExpireKeeps(s, first);
        var s1 := Expire(s, first);
        if !Gone(s1) {
          var s2 := StopWith(s1, Stopped);
          IdentifyAllKeeps(s2, serials);
          assert Inv(IdentifyAll(s2, serials));
          ExpireKeeps(IdentifyAll(s2, serials), second);
        }
    }
  }

  lemma {:induction false} RunInv(s: State, steps: seq<Step>)
    requires Inv(s) && AllAdmissible(s, steps)
    ensures Inv(Run(s, steps))
    decreases |steps|
  {
    if steps != [] {
      hide Inv;
      StepInv(s, steps[0]);
      RunInv(Apply(s, steps[0]), steps[1..]);
    }
  }

  lemma {:induction false} InitialInv(options: Options, started: real)
    ensures Inv(Initial(options, started))
  {}

  /** A device keeps its pseudonym until the session's evidence is erased. */
  lemma {:induction false} PseudonymsStay(s: State, step: Step, serial: string)
    requires serial in s.ids && !step.Clear? && !Gone(Apply(s, step))
    ensures serial in Apply(s, step).ids && Apply(s, step).ids[serial] == s.ids[serial]
  {
    hide Elapsed;
    if step.Export? {
      var s1 := Expire(s, step.first);
      if !Gone(s1) { IdentifyAllExtends(StopWith(s1, Stopped), step.serials, serial); }
    }
  }

  lemma {:induction false} IdentifyAllExtends(s: State, serials: seq<string>, serial: string)
    requires serial in s.ids
    ensures serial in IdentifyAll(s, serials).ids && IdentifyAll(s, serials).ids[serial] == s.ids[serial]
    decreases |serials|
  {
    if serials != [] { IdentifyAllExtends(s, serials[..|serials| - 1], serial); }
  }
}

/** The owner's check of a downloaded archive. */
module DiagnosticBundle {
  import opened Basics
  import Base64
  import opened BundleCapture

  const MAX_MEDIA := 64 * 1024 * 1024

  datatype Failure = Unrecognized | LimitExceeded | InvalidTiming | InvalidMedia | ManifestMismatch

  datatype Report = Report(records: nat, mediaChunks: nat, mediaBytes: nat, kinds: map<string, nat>)

  const KINDS: set<string> := {"video", "audio", "snapshot", "event-image"}
  const CODECS: set<string> := {"h264", "h265", "unknown", "aac", "jpeg"}
  const ARCHIVE_MEMBERS: set<string> := {"schema", "summary", "capture", "stages", "records", "media"}
  const MEDIA_MEMBERS: set<string> := {"offsetMs", "device", "kind", "codec", "bytes", "sha256", "base64"}

  // ---------------------------------------------------------- what is acceptable

  ghost predicate RowOk(digest: bytes -> string, row: MediaRow) {
    && row.members == MEDIA_MEMBERS && row.kind in KINDS && row.codec in CODECS
    && var data := Base64.DecodeStrict(row.base64);
       data.Some? && |data.value| == row.bytes && digest(data.value) == row.sha256
  }

  function RowBytes(row: MediaRow): nat {
    var data := Base64.DecodeStrict(row.base64);
    if data.None? then 0 else |data.value|
  }

  function TotalBytes(rows: seq<MediaRow>): nat {
    if rows == [] then 0 else TotalBytes(rows[..|rows| - 1]) + RowBytes(rows[|rows| - 1])
  }

  function KindCount(rows: seq<MediaRow>, kind: string): nat {
    if rows == [] then 0
    else KindCount(rows[..|rows| - 1], kind) + if rows[|rows| - 1].kind == kind then 1 else 0
  }

  function RowTimes(rows: seq<MediaRow>): seq<int> {
    seq(|rows|, i requires 0 <= i < |rows| => rows[i].offsetMs)
  }

  /** Everything the check demands, apart from the raw size caps. */
  ghost predicate Acceptable(digest: bytes -> string, a: Archive) {
    && a.schema == "eufy-diagnostics-1" && a.members == ARCHIVE_MEMBERS
    && |a.records| + |a.media| <= MAX_RECORDS
    && Timed(RecordTimes(a.records), 60000) && Timed(RowTimes(a.media), 60000)
    && (forall i | 0 <= i < |a.media| :: RowOk(digest, a.media[i]))
    && TotalBytes(a.media) <= MAX_MEDIA && a.mediaBytes == TotalBytes(a.media)
  }

  // --------------------------------------------------------------- the inspector

  /** One section's times: finite, in range and never decreasing. */
  method InspectTiming(offsets: seq<int>) returns (ok: bool)
    ensures ok <==> Timed(offsets, 60000)
  {
    var previous := -1;
    for i := 0 to |offsets|
      invariant Timed(offsets[..i], 60000)
      invariant previous == if i == 0 then -1 else offsets[i - 1]
    {
      if !(0 <= offsets[i] <= 60000) || offsets[i] < previous {
        NotTimed(offsets, i, previous);
        return false;
      }
      assert offsets[..i + 1] == offsets[..i] + [offsets[i]];
      previous := offsets[i];
    }
    assert offsets[..|offsets|] == offsets;
    return true;
  }

  lemma {:induction false} NotTimed(offsets: seq<int>, i: nat, previous: int)
    requires i < |offsets| && previous == if i == 0 then -1 else offsets[i - 1]
    requires !(0 <= offsets[i] <= 60000) || offsets[i] < previous
    ensures !Timed(offsets, 60000)
  {}

  lemma {:induction false} TotalGrows(rows: seq<MediaRow>, i: nat)
    requires i <= |rows|
    ensures TotalBytes(rows[..i]) <= TotalBytes(rows)
    decreases |rows|
  {
    if i < |rows| {
      TotalGrows(rows[..|rows| - 1], i);
      assert rows[..|rows| - 1][..i] == rows[..i];
    } else {
      assert rows[..i] == rows;
    }
  }

  /** `kinds` counts the rows of every kind that occurs. */
  ghost predicate Counts(kinds: map<string, nat>, rows: seq<MediaRow>) {
    forall k: string :: (k in kinds <==> KindCount(rows, k) > 0) && (k in kinds ==> kinds[k] == KindCount(rows, k))
  }

  lemma {:induction false} CountsRow(kinds: map<string, nat>, rows: seq<MediaRow>, row: MediaRow)
    requires Counts(kinds, rows)
    ensures Counts(kinds[row.kind := 1 + if row.kind in kinds then kinds[row.kind] else 0], rows + [row])
  {
    assert (rows + [row])[..|rows|] == rows;
  }

  /** One media row: its members, its format and the integrity of its data. */
  method InspectRow(digest: bytes -> string, row: MediaRow) returns (r: Result<nat, Failure>)
    ensures r.Ok? <==> RowOk(digest, row)
    ensures r.Ok? ==> r.value == RowBytes(row)
  {
    if row.members != MEDIA_MEMBERS { return Err(Unrecognized); }
    if row.kind !in KINDS || row.codec !in CODECS { return Err(Unrecognized); }
    var data := Base64.DecodeStrict(row.base64);
    if data.None? { return Err(InvalidMedia); }
    if |data.value| != row.bytes || digest(data.value) != row.sha256 { return Err(InvalidMedia); }
    return Ok(|data.value|);
  }

  method InspectMedia(digest: bytes -> string, rows: seq<MediaRow>) returns (r: Result<(nat, map<string, nat>), Failure>)
    ensures r.Ok? <==> (forall i | 0 <= i < |rows| :: RowOk(digest, rows[i])) && TotalBytes(rows) <= MAX_MEDIA
    ensures r.Ok? ==> r.value.0 == TotalBytes(rows) && Counts(r.value.1, rows)
  {
    hide RowOk, RowBytes, KindCount, Counts;
    var total: nat := 0;
    var kinds: map<string, nat> := map[];
    NoRows();
    assert rows[..0] == [];
    for n := 0 to |rows|
      invariant total == TotalBytes(rows[..n]) <= MAX_MEDIA
      invariant forall i | 0 <= i < n :: RowOk(digest, rows[i])
      invariant Counts(kinds, rows[..n])
    {
      var row := rows[n];
      assert rows[..n + 1] == rows[..n] + [row] && rows[..n + 1][..n] == rows[..n];
      var size := InspectRow(digest, row);
      if size.Err? { return Err(size.error); }
      total := total + size.value;
      TotalGrows(rows, n + 1);
      if total > MAX_MEDIA { return Err(InvalidMedia); }
      CountsRow(kinds, rows[..n], row);
      kinds := kinds[row.kind := 1 + if row.kind in kinds then kinds[row.kind] else 0];
    }
    assert rows[..|rows|] == rows;
    return Ok((total, kinds));
  }

  lemma {:induction false} NoRows()
    ensures Counts(map[], []) && TotalBytes([]) == 0
  {}

  /** The check accepts exactly the acceptable archives, and reports what they hold. */
  method Inspect(digest: bytes -> string, a: Archive) returns (r: Result<Report, Failure>)
    ensures r.Ok? <==> Acceptable(digest, a)
    ensures r.Ok? ==> r.value.records == |a.records| && r.value.mediaChunks == |a.media| && r.value.mediaBytes == TotalBytes(a.media)
    ensures r.Ok? ==> Counts(r.value.kinds, a.media)
  {
    if a.schema != "eufy-diagnostics-1" { return Err(Unrecognized); }
    if a.members != ARCHIVE_MEMBERS { return Err(Unrecognized); }
    if |a.records| + |a.media| > MAX_RECORDS { return Err(LimitExceeded); }
    var recordsOk := InspectTiming(RecordTimes(a.records));
    if !recordsOk { return Err(InvalidTiming); }
    var mediaOk := InspectTiming(RowTimes(a.media));
    if !mediaOk { return Err(InvalidTiming); }
    var media := InspectMedia(digest, a.media);
    if media.Err? { return Err(media.error); }
    if a.mediaBytes != media.value.0 { return Err(ManifestMismatch); }
    return Ok(Report(|a.records|, |a.media|, media.value.0, media.value.1));
  }

  // ------------------------------------------------------- exports are acceptable

  lemma {:induction false} RowPasses(digest: bytes -> string, m: Media)
    ensures RowOk(digest, Row(digest, m)) && RowBytes(Row(digest, m)) == |m.data|
  {
    Base64.DecodeStrictEncode(m.data);
    hide Base64.Encode, Base64.DecodeStrict;
  }

  lemma {:induction false} RowsTotal(digest: bytes -> string, media: seq<Media>, rows: seq<MediaRow>)
    requires |rows| == |media| && forall i | 0 <= i < |rows| :: rows[i] == Row(digest, media[i])
    ensures TotalBytes(rows) == Total(media)
    decreases |rows|
  {
    if rows != [] {
      RowsTotal(digest, media[..|media| - 1], rows[..|rows| - 1]);
      RowPasses(digest, media[|media| - 1]);
      hide Row, RowBytes;
    }
  }

  /** No stamp of a session lies beyond a minute. */
  ghost predicate WithinMinute(s: State) {
    && (forall i | 0 <= i < |s.records| :: s.records[i].offsetMs <= 60000)
    && (forall i | 0 <= i < |s.media| :: s.media[i].offsetMs <= 60000)
  }

  lemma {:induction false} TimedWithin(offsets: seq<int>, bound: int)
    requires Timed(offsets, bound)
    ensures Timed(offsets, 60000) <==> forall i | 0 <= i < |offsets| :: offsets[i] <= 60000
  {}

  lemma {:induction false} ArchiveFields(digest: bytes -> string, s: State, step: Step)
    requires Inv(s) && Admissible(s, step) && step.Export?
    requires Exported(digest, s, step.first, step.serials, step.second).Some?
    ensures var a := Exported(digest, s, step.first, step.serials, step.second).value; var s' := Apply(s, step);
      && Inv(s') && a.records == s'.records && |a.media| == |s'.media| && a.mediaBytes == s'.bytes
      && (forall i | 0 <= i < |a.media| :: a.media[i] == Row(digest, s'.media[i]))
      && a.schema == "eufy-diagnostics-1" && a.members == ARCHIVE_MEMBERS
  {
    StepInv(s, step);
    hide Inv, Expire, IdentifyAll, Row;
  }

  /**
   * Whatever a session went through, the inspector accepts its export if and only if
   * no time stamp in it lies beyond 60000 milliseconds; nothing else can fail.
   */
  lemma {:induction false} AcceptedByStamps(digest: bytes -> string, options: Options, started: real, steps: seq<Step>, final: Step)
    requires AllAdmissible(Initial(options, started), steps) && final.Export?
    requires var s := Run(Initial(options, started), steps);
      Admissible(s, final) && Exported(digest, s, final.first, final.serials, final.second).Some?
    ensures var s := Run(Initial(options, started), steps);
      var a := Exported(digest, s, final.first, final.serials, final.second).value;
      Acceptable(digest, a) <==> WithinMinute(Apply(s, final))
  {
    hide Inv, Exported, Apply, Run, AllAdmissible, Row, Admissible, RowOk;
    InitialInv(options, started);
    RunInv(Initial(options, started), steps);
    var s := Run(Initial(options, started), steps);
    ArchiveFields(digest, s, final);
    FieldsAcceptable(digest, Apply(s, final), Exported(digest, s, final.first, final.serials, final.second).value);
  }

  lemma {:induction false} FieldsAcceptable(digest: bytes -> string, s: State, a: Archive)
    requires Inv(s) && a.records == s.records && |a.media| == |s.media| && a.mediaBytes == s.bytes
    requires forall i | 0 <= i < |a.media| :: a.media[i] == Row(digest, s.media[i])
    requires a.schema == "eufy-diagnostics-1" && a.members == ARCHIVE_MEMBERS
    ensures Acceptable(digest, a) <==> WithinMinute(s)
  {
    assert RowTimes(a.media) == MediaTimes(s.media);
    TimedWithin(RecordTimes(s.records), Elapsed(s, s.now));
    TimedWithin(MediaTimes(s.media), Elapsed(s, s.now));
    RowsTotal(digest, s.media, a.media);
    forall i | 0 <= i < |a.media| ensures RowOk(digest, a.media[i]) { RowPasses(digest, s.media[i]); }
    hide Timed, Row, RowOk, Total, TotalBytes;
    WithinTimes(s);
  }

  lemma {:induction false} WithinTimes(s: State)
    ensures WithinMinute(s) <==>
      && (forall i | 0 <= i < |RecordTimes(s.records)| :: RecordTimes(s.records)[i] <= 60000)
      && (forall i | 0 <= i < |MediaTimes(s.media)| :: MediaTimes(s.media)[i] <= 60000)
  {
    forall i | 0 <= i < |s.records| ensures RecordTimes(s.records)[i] == s.records[i].offsetMs {}
    forall i | 0 <= i < |s.media| ensures MediaTimes(s.media)[i] == s.media[i].offsetMs {}
  }

  // ----------------------------------------------------------- the sixty seconds

  /** The call's own time stamp, when it makes one, is no later than a minute. */
  predicate StampsInTime(s: State, step: Step) {
    match step
    case Note(clock, _, _, _) => Elapsed(s, clock.stamp) <= 60000
    case Transport(clock, _, _) => Elapsed(s, clock.stamp) <= 60000
    case Sample(clock, _, _, _, _) => Elapsed(s, clock.stamp) <= 60000
    case _ => true
  }

  /** One reading serves both the call's expiry test and its time stamp. */
  predicate OneReading(step: Step) {
    match step
    case Note(clock, _, _, _) => clock.Single()
    case Transport(clock, _, _) => clock.Single()
    case Sample(clock, _, _, _, _) => clock.Single()
    case _ => true
  }

  lemma {:induction false} ExpireWithin(s: State, clock: Readings)
    requires WithinMinute(s)
    ensures WithinMinute(Expire(s, clock)) && Expire(s, clock).started == s.started && Expire(s, clock).options == s.options
    ensures Expire(s, clock).phase == Active ==> Elapsed(s, clock.duration) < s.options.seconds * 1000
  {}

  lemma {:induction false} IdentifyWithin(s: State, serials: seq<string>)
    ensures IdentifyAll(s, serials).records == s.records && IdentifyAll(s, serials).media == s.media
    ensures IdentifyAll(s, serials).options == s.options && IdentifyAll(s, serials).started == s.started
    decreases |serials|
  {
    if serials != [] { IdentifyWithin(s, serials[..|serials| - 1]); }
  }

  lemma {:induction false} StepWithin(s: State, step: Step)
    requires WithinMinute(s) && s.options.Valid() && (StampsInTime(s, step) || OneReading(step))
    ensures WithinMinute(Apply(s, step)) && Apply(s, step).options == s.options
  {
    hide Expire;
    match step {
      case Note(clock, _, _, _) => ExpireWithin(s, clock);
      case Transport(clock, _, _) => ExpireWithin(s, clock);
      case Sample(clock, _, _, _, _) => ExpireWithin(s, clock);
      case Status(clock) => ExpireWithin(s, clock);
      case Export(first, serials, second) =>
        ExpireWithin(s, first);
        var s2 := StopWith(Expire(s, first), Stopped);
        IdentifyWithin(s2, serials);
        ExpireWithin(IdentifyAll(s2, serials), second);
      case _ =>
    }
  }

  ghost predicate AllOneReading(steps: seq<Step>) {
    forall i | 0 <= i < |steps| :: OneReading(steps[i])
  }

  lemma {:induction false} RunWithin(s: State, steps: seq<Step>)
    requires WithinMinute(s) && s.options.Valid() && AllOneReading(steps)
    ensures WithinMinute(Run(s, steps)) && Run(s, steps).options == s.options
    decreases |steps|
  {
    hide WithinMinute, Apply;
    if steps != [] {
      assert OneReading(steps[0]);
      StepWithin(s, steps[0]);
      forall i | 0 <= i < |steps[1..]| ensures OneReading(steps[1..][i]) { assert steps[1..][i] == steps[i + 1]; }
      RunWithin(Apply(s, steps[0]), steps[1..]);
    }
  }

  /** With one clock reading in each call, the inspector accepts every export of every run. */
  lemma {:induction false} ExportAccepted(digest: bytes -> string, options: Options, started: real, steps: seq<Step>, final: Step)
    requires options.Valid() && AllAdmissible(Initial(options, started), steps) && AllOneReading(steps) && final.Export?
    requires var s := Run(Initial(options, started), steps);
      Admissible(s, final) && Exported(digest, s, final.first, final.serials, final.second).Some?
    ensures var s := Run(Initial(options, started), steps);
      Acceptable(digest, Exported(digest, s, final.first, final.serials, final.second).value)
  {
    hide WithinMinute, Apply, Run, Exported, Acceptable;
    InitialWithin(options, started);
    RunWithin(Initial(options, started), steps);
    StepWithin(Run(Initial(options, started), steps), final);
    AcceptedByStamps(digest, options, started, steps, final);
  }

  lemma {:induction false} InitialWithin(options: Options, started: real)
    ensures WithinMinute(Initial(options, started))
  {}

  // ------------------------------------------- acceptance by the calls' own readings

  /** The call added a record or a media chunk. */
  predicate Keeps(s: State, step: Step) {
    |Apply(s, step).records| + |Apply(s, step).media| > |s.records| + |s.media|
  }

  /** Every call that kept evidence read the clock for its stamp within the minute. */
  ghost predicate AllInTime(s: State, steps: seq<Step>)
    decreases |steps|
  {
    steps == [] || ((Keeps(s, steps[0]) ==> StampsInTime(s, steps[0])) && AllInTime(Apply(s, steps[0]), steps[1..]))
  }

  lemma {:induction false} ExpireEvidence(s: State, clock: Readings)
    requires !Gone(Expire(s, clock))
    ensures var s' := Expire(s, clock);
      s'.records == s.records && s'.media == s.media && s'.started == s.started && s'.options == s.options && !Gone(s)
  {}

  lemma {:induction false} RecordWithinIff(s: State, stamp: real, event: string, serial: Option<string>, details: nat)
    ensures WithinMinute(AddRecord(s, stamp, event, serial, details)) <==> WithinMinute(s) && Elapsed(s, stamp) <= 60000
    ensures var s' := AddRecord(s, stamp, event, serial, details); |s'.records| == |s.records| + 1 && s'.media == s.media
  {
    var s' := AddRecord(s, stamp, event, serial, details);
    assert s'.records[|s.records|].offsetMs == Elapsed(s, stamp);
    assert forall i | 0 <= i < |s.records| :: s'.records[i] == s.records[i];
  }

  lemma {:induction false} MediaWithinIff(s: State, stamp: real, serial: string, kind: MediaKind, codec: Codec, data: bytes)
    ensures WithinMinute(AddMedia(s, stamp, serial, kind, codec, data)) <==> WithinMinute(s) && Elapsed(s, stamp) <= 60000
    ensures var s' := AddMedia(s, stamp, serial, kind, codec, data); |s'.media| == |s.media| + 1 && s'.records == s.records
  {
    var s' := AddMedia(s, stamp, serial, kind, codec, data);
    assert s'.media[|s.media|].offsetMs == Elapsed(s, stamp);
    assert forall i | 0 <= i < |s.media| :: s'.media[i] == s.media[i];
  }

  lemma {:induction false} SameEvidence(s: State, s': State)
    requires s'.records == s.records && s'.media == s.media
    ensures WithinMinute(s') <==> WithinMinute(s)
  {}

  lemma {:induction false} NoteWithinIff(s: State, clock: Readings, event: string, serial: Option<string>, details: nat)
    requires !Gone(NoteStep(s, clock, event, serial, details))
    ensures var s' := NoteStep(s, clock, event, serial, details);
      var kept := |s'.records| + |s'.media| > |s.records| + |s.media|;
      WithinMinute(s') <==> WithinMinute(s) && (kept ==> Elapsed(s, clock.stamp) <= 60000)
  {
    hide WithinMinute, AddRecord, Expire;
    var s' := Expire(s, clock);
    RecordWithinIff(s', clock.stamp, event, serial, details);
    AddedPhase(s', clock.stamp, event, serial, details);
    ExpireEvidence(s, clock);
    SameEvidence(s, s');
    SameEvidence(s', Drop(s', RecordLimit));
  }

  lemma {:induction false} AddedPhase(s: State, stamp: real, event: string, serial: Option<string>, details: nat)
    ensures AddRecord(s, stamp, event, serial, details).phase == s.phase
  {}

  lemma {:induction false} TransportWithinIff(s: State, clock: Readings, serial: string, details: nat)
    requires !Gone(TransportStep(s, clock, serial, details))
    ensures var s' := TransportStep(s, clock, serial, details);
      var kept := |s'.records| + |s'.media| > |s.records| + |s.media|;
      WithinMinute(s') <==> WithinMinute(s) && (kept ==> Elapsed(s, clock.stamp) <= 60000)
  {
    hide WithinMinute, AddRecord, Expire;
    var s' := Expire(s, clock);
    RecordWithinIff(s', clock.stamp, "source-transport", Some(serial), details);
    AddedPhase(s', clock.stamp, "source-transport", Some(serial), details);
    ExpireEvidence(s, clock);
    SameEvidence(s, s');
    SameEvidence(s', StopWith(s', RecordLimit));
  }

  lemma {:induction false} SampleWithinIff(s: State, clock: Readings, serial: string, kind: MediaKind, codec: Codec, data: bytes)
    requires !Gone(SampleStep(s, clock, serial, kind, codec, data))
    ensures var s' := SampleStep(s, clock, serial, kind, codec, data);
      var kept := |s'.records| + |s'.media| > |s.records| + |s.media|;
      WithinMinute(s') <==> WithinMinute(s) && (kept ==> Elapsed(s, clock.stamp) <= 60000)
  {
    hide WithinMinute, Expire;
    if s.options.media {
      var s' := Expire(s, clock);
      MediaWithinIff(s', clock.stamp, serial, kind, codec, data);
      ExpireEvidence(s, clock);
      SameEvidence(s, s');
      SameEvidence(s', Drop(s', RecordLimit));
      SameEvidence(s', Drop(s', SizeLimit));
    }
  }

  lemma {:induction false} ExportEvidence(s: State, first: Readings, serials: seq<string>, second: Readings)
    requires !Gone(ExportStep(s, first, serials, second))
    ensures var s' := ExportStep(s, first, serials, second); s'.records == s.records && s'.media == s.media
  {
    hide Expire;
    var s1 := Expire(s, first);
    IdentifyWithin(StopWith(s1, Stopped), serials);
    ExpireEvidence(IdentifyAll(StopWith(s1, Stopped), serials), second);
    ExpireEvidence(s, first);
  }

  /** A call that erases nothing keeps the stamps in time exactly when its own stamp is. */
  lemma {:induction false} StepWithinIff(s: State, step: Step)
    requires !Gone(Apply(s, step)) && Admissible(s, step)
    ensures WithinMinute(Apply(s, step)) <==> WithinMinute(s) && (Keeps(s, step) ==> StampsInTime(s, step))
  {
    hide WithinMinute, NoteStep, TransportStep, SampleStep, ExportStep, Expire, Elapsed;
    match step {
      case Select(serial) => SameEvidence(s, Apply(s, step));
      case Note(clock, event, serial, details) => NoteWithinIff(s, clock, event, serial, details);
      case Transport(clock, serial, details) => TransportWithinIff(s, clock, serial, details);
      case Sample(clock, serial, kind, codec, data) => SampleWithinIff(s, clock, serial, kind, codec, data);
      case Stop(reason) => SameEvidence(s, StopWith(s, reason));
      case Clear(_) =>
      case Status(clock) =>
        ExpireEvidence(s, clock);
        SameEvidence(s, Expire(s, clock));
      case Export(first, serials, second) =>
        ExportEvidence(s, first, serials, second);
        SameEvidence(s, Apply(s, step));
    }
  }

  /** Erased evidence stays erased. */
  lemma {:induction false} GoneStays(s: State, step: Step)
    requires Gone(s) && Admissible(s, step)
    ensures Gone(Apply(s, step))
  {}

  lemma {:induction false} GoneForGood(s: State, steps: seq<Step>)
    requires Gone(s) && AllAdmissible(s, steps)
    ensures Gone(Run(s, steps))
    decreases |steps|
  {
    hide Gone, Apply, Admissible;
    if steps != [] {
      GoneStays(s, steps[0]);
      GoneForGood(Apply(s, steps[0]), steps[1..]);
    }
  }

  lemma {:induction false} RunWithinIff(s: State, steps: seq<Step>)
    requires AllAdmissible(s, steps) && !Gone(Run(s, steps))
    ensures WithinMinute(Run(s, steps)) <==> WithinMinute(s) && AllInTime(s, steps)
    decreases |steps|
  {
    hide WithinMinute, Gone, Apply, Admissible, Keeps, StampsInTime;
    if steps != [] {
      var s' := Apply(s, steps[0]);
      if Gone(s') { GoneForGood(s', steps[1..]); }
      StepWithinIff(s, steps[0]);
      RunWithinIff(s', steps[1..]);
    }
  }

  /**
   * The inspector accepts a session's export exactly when every call that kept evidence
   * read the clock for its stamp within the minute, or the evidence expired while the
   * archive was being built.
   */
  lemma {:induction false} ExportAcceptedIff(digest: bytes -> string, options: Options, started: real, steps: seq<Step>, final: Step)
    requires AllAdmissible(Initial(options, started), steps) && final.Export?
    requires var s := Run(Initial(options, started), steps);
      Admissible(s, final) && Exported(digest, s, final.first, final.serials, final.second).Some?
    ensures var s := Run(Initial(options, started), steps);
      Acceptable(digest, Exported(digest, s, final.first, final.serials, final.second).value) <==>
        Gone(Apply(s, final)) || AllInTime(Initial(options, started), steps)
  {
    hide WithinMinute, Run, Acceptable, Packed, Elapsed, AllInTime, AllAdmissible;
    var s0 := Initial(options, started);
    var s := Run(s0, steps);
    AcceptedByStamps(digest, options, started, steps, final);
    if Gone(Apply(s, final)) {
      ErasedWithin(options, started, steps, final);
    } else {
      ExportEvidence(s, final.first, final.serials, final.second);
      SameEvidence(s, Apply(s, final));
      RunWithinIff(s0, steps);
      InitialWithin(options, started);
    }
  }

  lemma {:induction false} ErasedWithin(options: Options, started: real, steps: seq<Step>, final: Step)
    requires AllAdmissible(Initial(options, started), steps)
    requires Admissible(Run(Initial(options, started), steps), final) && Gone(Apply(Run(Initial(options, started), steps), final))
    ensures WithinMinute(Apply(Run(Initial(options, started), steps), final))
  {
    hide Apply, Run, AllAdmissible, Admissible;
    InitialInv(options, started);
    RunInv(Initial(options, started), steps);
    StepInv(Run(Initial(options, started), steps), final);
  }

  /**
   * The code reads the clock again for the time stamp. When that reading crosses the
   * minute after the expiry test passed, the session exports what its inspector refuses.
   */
  lemma {:induction false} LateStampIsRefused(digest: bytes -> string)
    ensures var options := Options(true, 60, false);
      var late := Note(Readings(59999.0, 59999.0, 60001.0), "snapshot-updated", None, 0);
      var end := Readings(60001.0, 60001.0, 60001.0);
      var s := Run(Initial(options, 0.0), [late]);
      && AllAdmissible(Initial(options, 0.0), [late]) && Admissible(s, Export(end, [], end))
      && Exported(digest, s, end, [], end).Some? && !Acceptable(digest, Exported(digest, s, end, [], end).value)
  {
    var options := Options(true, 60, false);
    var late := Note(Readings(59999.0, 59999.0, 60001.0), "snapshot-updated", None, 0);
    var end := Readings(60001.0, 60001.0, 60001.0);
    var s0 := Initial(options, 0.0);
    var s := Apply(s0, late);
    assert s.records == [Record(60001, "snapshot-updated", None, 0)];
    assert [late][1..] == [];
    assert Run(s0, [late]) == s;
    var a := Exported(digest, s, end, [], end).value;
    assert a.records == s.records;
    assert RecordTimes(a.records)[0] == 60001;
  }
}
