/** What the owner's two checks prove about the bytes in an archive they accept. */
module BundleSeal {
  import opened Basics
  import Base64
  import B = BundleCapture
  import opened DiagnosticBundle

  /** SHA-256 is assumed to tell byte strings apart. */
  ghost predicate Collisionless(digest: bytes -> string) {
    forall a: bytes, b: bytes :: digest(a) == digest(b) ==> a == b
  }

  function Sum(bodies: seq<bytes>): nat {
    if bodies == [] then 0 else Sum(bodies[..|bodies| - 1]) + |bodies[|bodies| - 1]|
  }

  /** The row carries exactly this body: its encoding, its length and its checksum. */
  predicate Carries(digest: bytes -> string, row: B.MediaRow, body: bytes) {
    Base64.DecodeStrict(row.base64) == Some(body) && row.bytes == |body| && row.sha256 == digest(body)
  }

  /** The closed vocabulary of a media row. */
  predicate Known(row: B.MediaRow) {
    && row.members == {"offsetMs", "device", "kind", "codec", "bytes", "sha256", "base64"}
    && (row.kind == "video" || row.kind == "audio" || row.kind == "snapshot" || row.kind == "event-image")
    && (row.codec == "h264" || row.codec == "h265" || row.codec == "unknown" || row.codec == "aac" || row.codec == "jpeg")
  }

  /** Times from 0 to 60000 that never decrease. */
  ghost predicate Ordered(times: seq<int>) {
    (forall i | 0 <= i < |times| :: 0 <= times[i] <= 60000) && forall i, j | 0 <= i < j < |times| :: times[i] <= times[j]
  }

  function RecordOffsets(a: B.Archive): seq<int> {
    seq(|a.records|, i requires 0 <= i < |a.records| => a.records[i].offsetMs)
  }

  function MediaOffsets(a: B.Archive): seq<int> {
    seq(|a.media|, i requires 0 <= i < |a.media| => a.media[i].offsetMs)
  }

  lemma {:induction false} OffsetsAre(a: B.Archive)
    ensures Ordered(RecordOffsets(a)) <==> B.Timed(B.RecordTimes(a.records), 60000)
    ensures Ordered(MediaOffsets(a)) <==> B.Timed(RowTimes(a.media), 60000)
  {
    assert RecordOffsets(a) == B.RecordTimes(a.records);
    assert MediaOffsets(a) == RowTimes(a.media);
  }

  /** The archive with these media bodies is whole and within every limit. */
  ghost predicate Sealed(digest: bytes -> string, a: B.Archive, bodies: seq<bytes>) {
    && a.schema == "eufy-diagnostics-1" && a.members == {"schema", "summary", "capture", "stages", "records", "media"}
    && |a.records| + |a.media| <= 20000
    && Ordered(RecordOffsets(a)) && Ordered(MediaOffsets(a))
    && |bodies| == |a.media| && (forall i | 0 <= i < |bodies| :: Known(a.media[i]) && Carries(digest, a.media[i], bodies[i]))
    && Sum(bodies) <= 67108864 && a.mediaBytes == Sum(bodies)
  }

  lemma {:induction false} RowCarries(digest: bytes -> string, row: B.MediaRow)
    ensures RowOk(digest, row) <==> Known(row) && exists body :: Carries(digest, row, body)
    ensures forall body | Carries(digest, row, body) :: RowBytes(row) == |body|
  {
    hide Base64.DecodeStrict;
    if RowOk(digest, row) { assert Carries(digest, row, Base64.DecodeStrict(row.base64).value); }
  }

  lemma {:induction false} SumIs(digest: bytes -> string, rows: seq<B.MediaRow>, bodies: seq<bytes>)
    requires |rows| == |bodies| && forall i | 0 <= i < |rows| :: Carries(digest, rows[i], bodies[i])
    ensures TotalBytes(rows) == Sum(bodies)
    decreases |rows|
  {
    hide Carries;
    if rows != [] {
      RowCarries(digest, rows[|rows| - 1]);
      SumIs(digest, rows[..|rows| - 1], bodies[..|rows| - 1]);
    }
  }

  lemma {:induction false} BodiesOf(digest: bytes -> string, rows: seq<B.MediaRow>) returns (bodies: seq<bytes>)
    requires forall i | 0 <= i < |rows| :: RowOk(digest, rows[i])
    ensures |bodies| == |rows| && forall i | 0 <= i < |rows| :: Carries(digest, rows[i], bodies[i])
    decreases |rows|
  {
    hide RowOk, Carries;
    if rows == [] {
      bodies := [];
    } else {
      RowCarries(digest, rows[|rows| - 1]);
      var body :| Carries(digest, rows[|rows| - 1], body);
      bodies := BodiesOf(digest, rows[..|rows| - 1]);
      bodies := bodies + [body];
    }
  }

  /** The inspector accepts an archive exactly when it carries some bodies whole, within every limit. */
  lemma {:induction false} SealedIff(digest: bytes -> string, a: B.Archive)
    ensures Acceptable(digest, a) <==> exists bodies :: Sealed(digest, a, bodies)
  {
    hide RowOk, Carries, Known, TotalBytes, Sum, Ordered, B.Timed;
    OffsetsAre(a);
    forall i | 0 <= i < |a.media|
      ensures RowOk(digest, a.media[i]) <==> Known(a.media[i]) && exists body :: Carries(digest, a.media[i], body)
    {
      RowCarries(digest, a.media[i]);
    }
    if Acceptable(digest, a) {
      var bodies := BodiesOf(digest, a.media);
      SumIs(digest, a.media, bodies);
      assert Sealed(digest, a, bodies);
    }
    if exists bodies :: Sealed(digest, a, bodies) {
      var bodies :| Sealed(digest, a, bodies);
      SumIs(digest, a.media, bodies);
    }
  }

  predicate KindText(kind: B.MediaKind, text: string) {
    match kind
    case Video => text == "video"
    case Audio => text == "audio"
    case Snapshot => text == "snapshot"
    case EventImage => text == "event-image"
  }

  predicate CodecText(codec: B.Codec, text: string) {
    match codec
    case H264 => text == "h264"
    case H265 => text == "h265"
    case Unknown => text == "unknown"
    case Aac => text == "aac"
    case Jpeg => text == "jpeg"
  }

  /** The row shows this chunk: its time, device and formats, and its very bytes. */
  predicate Shows(digest: bytes -> string, row: B.MediaRow, m: B.Media) {
    && row.offsetMs == m.offsetMs && row.device == m.device && KindText(m.kind, row.kind) && CodecText(m.codec, row.codec)
    && Carries(digest, row, m.data)
  }

  /**
   * There is an export exactly while the evidence is not gone, and it shows exactly the
   * records and chunks the session then holds, each body recoverable byte for byte.
   */
  lemma {:induction false} ExportShows(digest: bytes -> string, s: B.State, first: B.Readings, serials: seq<string>, second: B.Readings)
    ensures var archive := B.Exported(digest, s, first, serials, second); var s' := B.ExportStep(s, first, serials, second);
      && (archive.None? <==> B.Expire(s, first).phase.Cleared? || B.Expire(s, first).phase.Expired?)
      && (archive.Some? ==>
            && archive.value.records == s'.records && |archive.value.media| == |s'.media| && archive.value.mediaBytes == s'.bytes
            && forall i | 0 <= i < |s'.media| :: Shows(digest, archive.value.media[i], s'.media[i]))
  {
    hide B.ExportStep, B.Expire, Base64.Encode, Base64.DecodeStrict;
    var s' := B.ExportStep(s, first, serials, second);
    forall i | 0 <= i < |s'.media| ensures Shows(digest, B.Row(digest, s'.media[i]), s'.media[i]) {
      Base64.DecodeStrictEncode(s'.media[i].data);
    }
    hide Shows, B.Row;
  }

  /** Two accepted archives with the same checksums carry the same bodies: no body can be exchanged unnoticed. */
  lemma {:induction false} TamperEvident(digest: bytes -> string, a: B.Archive, b: B.Archive, before: seq<bytes>, after: seq<bytes>)
    requires Collisionless(digest) && Sealed(digest, a, before) && Sealed(digest, b, after) && |a.media| == |b.media|
    requires forall i | 0 <= i < |a.media| :: a.media[i].sha256 == b.media[i].sha256
    ensures before == after
  {
    hide Known, Ordered, Base64.DecodeStrict;
  }
}

module EvidenceSeal {
  import opened Basics
  import Base64
  import E = EventImageCapture
  import opened EvidenceExport
  import BundleSeal

  predicate Carries(digest: bytes -> string, row: E.SampleRow, body: bytes) {
    Base64.DecodeStrict(row.bodyBase64) == Some(body) && row.length == |body| && row.sha256 == digest(body) && |body| <= 2097152
  }

  predicate IsHexText(text: string) {
    |text| == 64 && forall i | 0 <= i < 64 :: text[i] in "0123456789abcdef"
  }

  /** A receipt the export tool takes: a minute of the half hour, closed vocabularies and real tokens. */
  predicate Genuine(r: E.Receipt) {
    && 0 <= r.minute < 30 && 400 <= r.failure.status <= 599 && 1 <= r.failure.attempts <= 5
    && (r.context.model.Some? ==> E.SafeModel(r.context.model.value))
    && (r.context.deviceType.Some? ==> 0 <= r.context.deviceType.value <= 65535)
    && forall k | k in r.references ::
         (k == "camera" || k == "station" || k == "recording" || k == "picture") && IsHexText(r.references[k])
  }

  ghost predicate Sealed(digest: bytes -> string, a: E.Archive, bodies: seq<bytes>) {
    && (a.schemaVersion == 1 || a.schemaVersion == 2)
    && |a.samples| <= 4 && (a.schemaVersion == 1 ==> |a.samples| >= 1)
    && (a.schemaVersion == 2 ==>
          && a.referenceSalt.Some? && IsHexText(a.referenceSalt.value) && a.downloadFailures.Some?
          && 1 <= |a.downloadFailures.value| <= 16
          && forall i | 0 <= i < |a.downloadFailures.value| :: Genuine(a.downloadFailures.value[i]))
    && |bodies| == |a.samples| && (forall i | 0 <= i < |bodies| :: Carries(digest, a.samples[i], bodies[i]))
    && BundleSeal.Sum(bodies) <= 6291456
  }

  lemma {:induction false} HexTextIs(text: string)
    ensures IsHexText(text) <==> E.HexText(text)
  {}

  lemma {:induction false} GenuineIff(r: E.Receipt)
    ensures Genuine(r) <==> ReceiptAccepted(r)
  {
    forall text: string ensures IsHexText(text) <==> E.HexText(text) { HexTextIs(text); }
    hide IsHexText, E.HexText, E.SafeModel;
  }

  lemma {:induction false} RowCarries(digest: bytes -> string, row: E.SampleRow)
    ensures SampleAccepted(digest, row) <==> exists body :: Carries(digest, row, body)
    ensures forall body | Carries(digest, row, body) :: RowBytes(row) == |body|
  {
    hide Base64.DecodeStrict;
    if SampleAccepted(digest, row) { assert Carries(digest, row, Base64.DecodeStrict(row.bodyBase64).value); }
  }

  lemma {:induction false} SumIs(digest: bytes -> string, rows: seq<E.SampleRow>, bodies: seq<bytes>)
    requires |rows| == |bodies| && forall i | 0 <= i < |rows| :: Carries(digest, rows[i], bodies[i])
    ensures TotalBytes(rows) == BundleSeal.Sum(bodies)
    decreases |rows|
  {
    hide Carries;
    if rows != [] {
      RowCarries(digest, rows[|rows| - 1]);
      SumIs(digest, rows[..|rows| - 1], bodies[..|rows| - 1]);
    }
  }

  lemma {:induction false} BodiesOf(digest: bytes -> string, rows: seq<E.SampleRow>) returns (bodies: seq<bytes>)
    requires forall i | 0 <= i < |rows| :: SampleAccepted(digest, rows[i])
    ensures |bodies| == |rows| && forall i | 0 <= i < |rows| :: Carries(digest, rows[i], bodies[i])
    decreases |rows|
  {
    hide SampleAccepted, Carries;
    if rows == [] {
      bodies := [];
    } else {
      RowCarries(digest, rows[|rows| - 1]);
      var body :| Carries(digest, rows[|rows| - 1], body);
      bodies := BodiesOf(digest, rows[..|rows| - 1]);
      bodies := bodies + [body];
    }
  }

  lemma {:induction false} FailuresIff(a: E.Archive)
    ensures FailuresAccepted(a) <==>
      && a.referenceSalt.Some? && IsHexText(a.referenceSalt.value) && a.downloadFailures.Some?
      && 1 <= |a.downloadFailures.value| <= 16
      && forall i | 0 <= i < |a.downloadFailures.value| :: Genuine(a.downloadFailures.value[i])
  {
    if a.referenceSalt.Some? { HexTextIs(a.referenceSalt.value); }
    forall r: E.Receipt ensures Genuine(r) <==> ReceiptAccepted(r) { GenuineIff(r); }
    hide IsHexText, E.HexText, Genuine, ReceiptAccepted;
  }

  /** The export tool accepts an archive exactly when it carries some bodies whole, and genuine receipts, within every limit. */
  lemma {:induction false} SealedIff(digest: bytes -> string, a: E.Archive)
    ensures Accepted(digest, a) <==> exists bodies :: Sealed(digest, a, bodies)
  {
    hide SampleAccepted, Carries, TotalBytes, BundleSeal.Sum, Genuine, FailuresAccepted, IsHexText;
    FailuresIff(a);
    forall i | 0 <= i < |a.samples|
      ensures SampleAccepted(digest, a.samples[i]) <==> exists body :: Carries(digest, a.samples[i], body)
    {
      RowCarries(digest, a.samples[i]);
    }
    if Accepted(digest, a) {
      var bodies := BodiesOf(digest, a.samples);
      SumIs(digest, a.samples, bodies);
      assert Sealed(digest, a, bodies);
    }
    if exists bodies :: Sealed(digest, a, bodies) {
      var bodies :| Sealed(digest, a, bodies);
      SumIs(digest, a.samples, bodies);
    }
  }

  /** The row shows this sample: its family and minute, and its very bytes. */
  predicate Shows(digest: bytes -> string, row: E.SampleRow, sample: E.Sample) {
    && row.family == sample.family && row.minute == sample.minute && row.length == |sample.body| && row.sha256 == sample.sha256
    && Base64.DecodeStrict(row.bodyBase64) == Some(sample.body)
  }

  /**
   * There is an export exactly while the session is active and holds something; it has
   * version 2 with the salt exactly when there are receipts, and shows exactly what is held.
   */
  lemma {:induction false} ExportShows(crypto: E.Crypto, s: E.State, now: E.Clock)
    ensures var archive := E.Exported(s, now); var s' := E.Expire(s, now);
      && (archive.Some? <==> s'.phase.Active? && (s'.samples != [] || s'.receipts != []))
      && (archive.Some? ==>
            && archive.value.schemaVersion == (if s'.receipts == [] then 1 else 2)
            && archive.value.referenceSalt == (if s'.receipts == [] then None else Some(E.Hex(s'.salt)))
            && archive.value.downloadFailures == (if s'.receipts == [] then None else Some(s'.receipts))
            && |archive.value.samples| == |s'.samples|
            && forall i | 0 <= i < |s'.samples| :: Shows(crypto.digest, archive.value.samples[i], s'.samples[i]))
  {
    hide E.Expire, E.Hex, Base64.Encode, Base64.DecodeStrict;
    var s' := E.Expire(s, now);
    forall i | 0 <= i < |s'.samples| ensures Shows(crypto.digest, E.Row(s'.samples[i]), s'.samples[i]) {
      Base64.DecodeStrictEncode(s'.samples[i].body);
    }
    hide Shows, E.Row;
  }

  /** Two accepted archives with the same checksums carry the same bodies. */
  lemma {:induction false} TamperEvident(digest: bytes -> string, a: E.Archive, b: E.Archive, before: seq<bytes>, after: seq<bytes>)
    requires BundleSeal.Collisionless(digest) && Sealed(digest, a, before) && Sealed(digest, b, after) && |a.samples| == |b.samples|
    requires forall i | 0 <= i < |a.samples| :: a.samples[i].sha256 == b.samples[i].sha256
    ensures before == after
  {
    hide Genuine, IsHexText, Base64.DecodeStrict;
  }
}
