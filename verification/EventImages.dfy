/** One session of failed event-image evidence: bounded samples and failure receipts, and its archive. */
module EventImageCapture {
  import opened Basics
  import Base64

  const CAPTURE_WINDOW: real := 1800000.0
  const EXPORT_WINDOW: real := 3600000.0
  const BODY_LIMIT := 2 * 1024 * 1024
  const TOTAL_LIMIT := 6 * 1024 * 1024
  const MAXIMUM_SAMPLES := 4
  const MAXIMUM_RECEIPTS := 16
  const MAXIMUM_REFERENCE := 2048

  /** SHA-256 in hexadecimal, and the salted HMAC of a domain and a value. */
  datatype Crypto = Crypto(digest: bytes -> string, mac: (bytes, string, string) -> bytes) {
    ghost predicate Lawful() {
      forall salt: bytes, domain: string, value: string :: |mac(salt, domain, value)| == 32
    }
  }

  datatype Topology = Direct | Attached {
    function Name(): string { if Direct? then "direct" else "attached" }
  }

  /** The context a caller passes: any text and any number. */
  datatype Claim = Claim(model: Option<string>, deviceType: Option<int>, topology: Option<Topology>)

  /** The context that is kept; it is also the family of a sample. */
  datatype Context = Context(model: Option<string>, deviceType: Option<int>, topology: Option<Topology>)

  datatype Hop = InitialHop | Redirect {
    function Name(): string { if InitialHop? then "initial" else "redirect" }
  }

  datatype Host = EufyUs | EufyEu | EufyIe | ObjectStore | UnknownHost {
    function Name(): string {
      match this
      case EufyUs => "eufy-us" case EufyEu => "eufy-eu" case EufyIe => "eufy-ie"
      case ObjectStore => "object-store" case UnknownHost => "unknown"
    }
  }

  datatype Failure = Failure(status: int, attempts: int, hop: Hop, initialHost: Host, finalHost: Host)

  /** Present reference tokens by domain. */
  type References = map<string, string>

  /** The private values a receipt is matched by. */
  datatype Values = Values(camera: Option<string>, station: Option<string>, recording: Option<string>, picture: Option<string>)

  datatype Sample = Sample(family: Context, body: bytes, sha256: string, minute: int)

  datatype Receipt = Receipt(context: Context, failure: Failure, minute: int, references: References)

  datatype Phase = Active | Expired | Cleared

  datatype Clock = Clock(monotonic: real, wall: real)

  /** The readings of one call: by the expiry test, by the capture window, and for the time stamp. */
  datatype Readings = Readings(expiry: Clock, window: Clock, stamp: Clock) {
    predicate Single() { expiry == window == stamp }
  }

  datatype State = State(
    salt: bytes,
    started: Clock,
    samples: seq<Sample>,
    receipts: seq<Receipt>,
    bytes: nat,
    dropped: nat,
    skippedOversize: nat,
    phase: Phase)

  datatype Step =
    | Capture(clock: Readings, body: bytes, claim: Claim)
    | CaptureFailure(clock: Readings, error: Option<Failure>, claim: Claim, values: Values)
    | Export(now: Clock)
    | TimerFires
    | Close

  /** The later of the two clocks' opinions. */
  function Elapsed(s: State, c: Clock): real {
    var monotonic, wall := c.monotonic - s.started.monotonic, c.wall - s.started.wall;
    if monotonic >= wall then monotonic else wall
  }

  function Minute(s: State, c: Clock): int {
    var minute := (Elapsed(s, c) / 60000.0).Floor;
    if minute < 0 then 0 else minute
  }

  function EndWith(s: State, phase: Phase): State {
    s.(salt := seq(|s.salt|, _ => 0), samples := [], receipts := [], bytes := 0, phase := phase)
  }

  function Expire(s: State, c: Clock): State {
    if s.phase == Active && Elapsed(s, c) >= EXPORT_WINDOW then EndWith(s, Expired) else s
  }

  predicate Accepting(s: State, window: Clock) { s.phase == Active && Elapsed(s, window) < CAPTURE_WINDOW }

  predicate ModelSymbol(c: char) { '0' <= c <= '9' || 'A' <= c <= 'Z' || c == '-' }

  /** `T` and three to twelve digits, capitals or hyphens. */
  predicate SafeModel(model: string) {
    4 <= |model| <= 13 && model[0] == 'T' && forall i | 1 <= i < |model| :: ModelSymbol(model[i])
  }

  function Kept(claim: Claim): Context {
    Context(
      if claim.model.Some? && SafeModel(claim.model.value) then claim.model else None,
      if claim.deviceType.Some? && 0 <= claim.deviceType.value <= 65535 then claim.deviceType else None,
      claim.topology)
  }

  predicate Retained(s: State, sha256: string) { exists i :: 0 <= i < |s.samples| && s.samples[i].sha256 == sha256 }

  predicate HasFamily(s: State, family: Context) { exists i :: 0 <= i < |s.samples| && s.samples[i].family == family }

  function CaptureStep(crypto: Crypto, s: State, clock: Readings, body: bytes, claim: Claim): State {
    var s' := Expire(s, clock.expiry);
    if !Accepting(s', clock.window) then s'
    else if |body| > BODY_LIMIT then s'.(skippedOversize := s'.skippedOversize + 1)
    else
      var family, sha256 := Kept(claim), crypto.digest(body);
      if Retained(s', sha256) then s'
      else if HasFamily(s', family) || |s'.samples| >= MAXIMUM_SAMPLES || s'.bytes + |body| > TOTAL_LIMIT then
        s'.(dropped := s'.dropped + 1)
      else
        s'.(samples := s'.samples + [Sample(family, body, sha256, Minute(s', clock.stamp))], bytes := s'.bytes + |body|)
  }

  function HexSymbol(n: nat): char
    requires n < 16
  {
    if n < 10 then (48 + n) as char else (97 + n - 10) as char
  }

  function Hex(b: bytes): string {
    if b == [] then "" else [HexSymbol(b[0] / 16), HexSymbol(b[0] % 16)] + Hex(b[1..])
  }

  /** One reference token, when the value is text of an admissible length. */
  function WithToken(crypto: Crypto, salt: bytes, refs: References, domain: string, value: Option<string>): References {
    if value.Some? && 0 < |value.value| <= MAXIMUM_REFERENCE then refs[domain := Hex(crypto.mac(salt, domain, value.value))] else refs
  }

  function ReferencesOf(crypto: Crypto, salt: bytes, v: Values): References {
    var camera := WithToken(crypto, salt, map[], "camera", v.camera);
    var station := WithToken(crypto, salt, camera, "station", v.station);
    var recording := WithToken(crypto, salt, station, "recording", v.recording);
    WithToken(crypto, salt, recording, "picture", v.picture)
  }

  predicate Receipted(s: State, failure: Failure, refs: References) {
    exists i :: 0 <= i < |s.receipts| && s.receipts[i].failure == failure && s.receipts[i].references == refs
  }

  predicate InRange(f: Failure) { 400 <= f.status <= 599 && 1 <= f.attempts <= 5 }

  /** `error` is the failure of a typed HTTP error, or nothing for any other error. */
  function FailureStep(crypto: Crypto, s: State, clock: Readings, error: Option<Failure>, claim: Claim, values: Values): State {
    var s' := Expire(s, clock.expiry);
    if !Accepting(s', clock.window) || error.None? || !InRange(error.value) then s'
    else
      var refs := ReferencesOf(crypto, s'.salt, values);
      if Receipted(s', error.value, refs) then s'
      else if |s'.receipts| >= MAXIMUM_RECEIPTS then s'.(dropped := s'.dropped + 1)
      else s'.(receipts := s'.receipts + [Receipt(Kept(claim), error.value, Minute(s', clock.stamp), refs)])
  }

  function Apply(crypto: Crypto, s: State, step: Step): State {
    match step
    case Capture(clock, body, claim) => CaptureStep(crypto, s, clock, body, claim)
    case CaptureFailure(clock, error, claim, values) => FailureStep(crypto, s, clock, error, claim, values)
    case Export(now) => Expire(s, now)
    case TimerFires => EndWith(s, Expired)
    case Close => EndWith(s, Cleared)
  }

  function Initial(salt: bytes, started: Clock): State {
    State(salt, started, [], [], 0, 0, 0, Active)
  }

  function Run(crypto: Crypto, s: State, steps: seq<Step>): State {
    if steps == [] then s else Apply(crypto, Run(crypto, s, steps[..|steps| - 1]), steps[|steps| - 1])
  }

  // ------------------------------------------------------------------ the archive

  datatype SampleRow = SampleRow(bodyBase64: string, sha256: string, length: int, family: Context, minute: int)

  /** Absent members are `None`. */
  datatype Archive = Archive(schemaVersion: int, referenceSalt: Option<string>, downloadFailures: Option<seq<Receipt>>, samples: seq<SampleRow>)

  function Row(sample: Sample): SampleRow {
    SampleRow(Base64.Encode(sample.body), sample.sha256, |sample.body|, sample.family, sample.minute)
  }

  function Rows(samples: seq<Sample>): (rows: seq<SampleRow>)
    ensures |rows| == |samples| && forall i | 0 <= i < |samples| :: rows[i] == Row(samples[i])
  {
    seq(|samples|, i requires 0 <= i < |samples| => Row(samples[i]))
  }

  function Packed(s: State): Archive {
    var failed := s.receipts != [];
    Archive(if failed then 2 else 1, if failed then Some(Hex(s.salt)) else None,
            if failed then Some(s.receipts) else None, Rows(s.samples))
  }

  function Exported(s: State, now: Clock): Option<Archive> {
    var s' := Expire(s, now);
    if s'.phase != Active || (s'.samples == [] && s'.receipts == []) then None else Some(Packed(s'))
  }

  // -------------------------------------------------------------------- invariants

  function Total(samples: seq<Sample>): nat {
    if samples == [] then 0 else Total(samples[..|samples| - 1]) + |samples[|samples| - 1].body|
  }

  /** At most four bounded bodies of different families and different contents. */
  ghost predicate SamplesOk(crypto: Crypto, samples: seq<Sample>, total: nat) {
    && |samples| <= MAXIMUM_SAMPLES && total == Total(samples) <= TOTAL_LIMIT
    && (forall i | 0 <= i < |samples| :: |samples[i].body| <= BODY_LIMIT && samples[i].sha256 == crypto.digest(samples[i].body))
    && forall i, j | 0 <= i < j < |samples| :: samples[i].family != samples[j].family && samples[i].sha256 != samples[j].sha256
  }

  /** At most sixteen different receipts, each with admissible fields and real tokens. */
  ghost predicate ReceiptsOk(receipts: seq<Receipt>) {
    && |receipts| <= MAXIMUM_RECEIPTS
    && (forall i | 0 <= i < |receipts| :: ReceiptOk(receipts[i]))
    && forall i, j | 0 <= i < j < |receipts| ::
         receipts[i].failure != receipts[j].failure || receipts[i].references != receipts[j].references
  }

  ghost predicate ReceiptOk(r: Receipt) {
    InRange(r.failure) && r.minute >= 0 && ContextOk(r.context) && TokensOk(r.references)
  }

  ghost predicate ContextOk(c: Context) {
    && (c.model.Some? ==> SafeModel(c.model.value))
    && (c.deviceType.Some? ==> 0 <= c.deviceType.value <= 65535)
  }

  const DOMAINS: set<string> := {"camera", "station", "recording", "picture"}

  predicate HexText(text: string) {
    |text| == 64 && forall i | 0 <= i < 64 :: '0' <= text[i] <= '9' || 'a' <= text[i] <= 'f'
  }

  ghost predicate TokensOk(refs: References) {
    forall k | k in refs :: k in DOMAINS && HexText(refs[k])
  }

  ghost predicate Inv(crypto: Crypto, s: State) {
    && SamplesOk(crypto, s.samples, s.bytes) && ReceiptsOk(s.receipts) && |s.salt| == 32
    && (s.phase != Active ==> s.samples == [] && s.receipts == [])
  }

  lemma {:induction false} HexSymbols(b: bytes)
    ensures |Hex(b)| == 2 * |b|
    ensures forall i | 0 <= i < |Hex(b)| :: '0' <= Hex(b)[i] <= '9' || 'a' <= Hex(b)[i] <= 'f'
    decreases |b|
  {
    if b != [] { HexSymbols(b[1..]); }
  }

  lemma {:induction false} TokenKeeps(crypto: Crypto, salt: bytes, refs: References, domain: string, value: Option<string>)
    requires crypto.Lawful() && TokensOk(refs) && domain in DOMAINS
    ensures TokensOk(WithToken(crypto, salt, refs, domain, value))
  {
    if value.Some? { HexSymbols(crypto.mac(salt, domain, value.value)); }
  }

  lemma {:induction false} TokensAreOk(crypto: Crypto, salt: bytes, v: Values)
    requires crypto.Lawful()
    ensures TokensOk(ReferencesOf(crypto, salt, v))
  {
    hide TokensOk, WithToken;
    NoTokens();
    var camera := WithToken(crypto, salt, map[], "camera", v.camera);
    TokenKeeps(crypto, salt, map[], "camera", v.camera);
    var station := WithToken(crypto, salt, camera, "station", v.station);
    TokenKeeps(crypto, salt, camera, "station", v.station);
    var recording := WithToken(crypto, salt, station, "recording", v.recording);
    TokenKeeps(crypto, salt, station, "recording", v.recording);
    TokenKeeps(crypto, salt, recording, "picture", v.picture);
  }

  lemma {:induction false} NoTokens()
    ensures TokensOk(map[])
  {}

  lemma {:induction false} ExpireKeeps(crypto: Crypto, s: State, c: Clock)
    requires Inv(crypto, s)
    ensures Inv(crypto, Expire(s, c))
  {}

  lemma {:induction false} SampleKeeps(crypto: Crypto, s: State, sample: Sample)
    requires SamplesOk(crypto, s.samples, s.bytes) && |s.samples| < MAXIMUM_SAMPLES && s.bytes + |sample.body| <= TOTAL_LIMIT
    requires |sample.body| <= BODY_LIMIT && sample.sha256 == crypto.digest(sample.body)
    requires !Retained(s, sample.sha256) && !HasFamily(s, sample.family)
    ensures SamplesOk(crypto, s.samples + [sample], s.bytes + |sample.body|)
  {
    assert (s.samples + [sample])[..|s.samples|] == s.samples;
  }

  lemma {:induction false} ReceiptKeeps(s: State, r: Receipt)
    requires ReceiptsOk(s.receipts) && |s.receipts| < MAXIMUM_RECEIPTS && ReceiptOk(r) && !Receipted(s, r.failure, r.references)
    ensures ReceiptsOk(s.receipts + [r])
  {}

  lemma {:induction false} CaptureKeeps(crypto: Crypto, s: State, clock: Readings, body: bytes, claim: Claim)
    requires Inv(crypto, s)
    ensures Inv(crypto, CaptureStep(crypto, s, clock, body, claim))
  {
    hide Retained, HasFamily, Expire, Kept, Minute, ReceiptsOk;
    ExpireKeeps(crypto, s, clock.expiry);
    var s' := Expire(s, clock.expiry);
    var sample := Sample(Kept(claim), body, crypto.digest(body), Minute(s', clock.stamp));
    if |s'.samples| < MAXIMUM_SAMPLES && s'.bytes + |body| <= TOTAL_LIMIT && |body| <= BODY_LIMIT
       && !Retained(s', sample.sha256) && !HasFamily(s', sample.family) {
      SampleKeeps(crypto, s', sample);
    }
  }

  lemma {:induction false} FailureKeeps(crypto: Crypto, s: State, clock: Readings, error: Option<Failure>, claim: Claim, values: Values)
    requires crypto.Lawful() && Inv(crypto, s)
    ensures Inv(crypto, FailureStep(crypto, s, clock, error, claim, values))
  {
    hide SamplesOk, Receipted, Expire, Kept, Elapsed, ReferencesOf, TokensOk, ContextOk;
    ExpireKeeps(crypto, s, clock.expiry);
    KeptIsOk(claim);
    var s' := Expire(s, clock.expiry);
    var refs := ReferencesOf(crypto, s'.salt, values);
    TokensAreOk(crypto, s'.salt, values);
    if error.Some? && InRange(error.value) && |s'.receipts| < MAXIMUM_RECEIPTS && !Receipted(s', error.value, refs) {
      ReceiptKeeps(s', Receipt(Kept(claim), error.value, Minute(s', clock.stamp), refs));
    }
  }

  lemma {:induction false} KeptIsOk(claim: Claim)
    ensures ContextOk(Kept(claim))
  {}

  lemma {:induction false} StepInv(crypto: Crypto, s: State, step: Step)
    requires crypto.Lawful() && Inv(crypto, s)
    ensures Inv(crypto, Apply(crypto, s, step))
  {
    match step {
      case Capture(clock, body, claim) =>
        hide Inv, CaptureStep;
        CaptureKeeps(crypto, s, clock, body, claim);
      case CaptureFailure(clock, error, claim, values) =>
        hide Inv, FailureStep;
        FailureKeeps(crypto, s, clock, error, claim, values);
      case Export(now) => ExpireKeeps(crypto, s, now);
      case TimerFires =>
      case Close =>
    }
  }

  lemma {:induction false} RunInv(crypto: Crypto, salt: bytes, started: Clock, steps: seq<Step>)
    requires crypto.Lawful() && |salt| == 32
    ensures Inv(crypto, Run(crypto, Initial(salt, started), steps))
    decreases |steps|
  {
    if steps != [] {
      hide Inv, Apply;
      RunInv(crypto, salt, started, steps[..|steps| - 1]);
      StepInv(crypto, Run(crypto, Initial(salt, started), steps[..|steps| - 1]), steps[|steps| - 1]);
    } else {
      InitialInv(crypto, salt, started);
    }
  }

  lemma {:induction false} InitialInv(crypto: Crypto, salt: bytes, started: Clock)
    requires |salt| == 32
    ensures Inv(crypto, Initial(salt, started))
  {}
}

/** The owner's check of exported evidence. */
module EvidenceExport {
  import opened Basics
  import Base64
  import opened EventImageCapture

  datatype Error = InvalidArchive | InvalidFailures | FailedIntegrity | SizeExceeded

  const HOSTS: set<string> := {"eufy-us", "eufy-eu", "eufy-ie", "object-store", "unknown"}
  const HOPS: set<string> := {"initial", "redirect"}
  const TOPOLOGIES: set<string> := {"direct", "attached"}

  // ---------------------------------------------------------- what is acceptable

  predicate ReceiptAccepted(r: Receipt) {
    && 0 <= r.minute <= 29
    && (r.context.model.Some? ==> SafeModel(r.context.model.value))
    && (r.context.deviceType.Some? ==> 0 <= r.context.deviceType.value <= 65535)
    && (r.context.topology.Some? ==> r.context.topology.value.Name() in TOPOLOGIES)
    && 400 <= r.failure.status <= 599 && 1 <= r.failure.attempts <= 5
    && r.failure.hop.Name() in HOPS && r.failure.initialHost.Name() in HOSTS && r.failure.finalHost.Name() in HOSTS
    && forall k | k in r.references :: k in DOMAINS && HexText(r.references[k])
  }

  ghost predicate FailuresAccepted(a: Archive) {
    && a.referenceSalt.Some? && a.downloadFailures.Some? && HexText(a.referenceSalt.value)
    && 1 <= |a.downloadFailures.value| <= 16
    && forall i | 0 <= i < |a.downloadFailures.value| :: ReceiptAccepted(a.downloadFailures.value[i])
  }

  ghost predicate SampleAccepted(digest: bytes -> string, row: SampleRow) {
    var data := Base64.DecodeStrict(row.bodyBase64);
    data.Some? && |data.value| <= 2 * 1024 * 1024 && row.length == |data.value| && row.sha256 == digest(data.value)
  }

  function RowBytes(row: SampleRow): nat {
    var data := Base64.DecodeStrict(row.bodyBase64);
    if data.None? then 0 else |data.value|
  }

  function TotalBytes(rows: seq<SampleRow>): nat {
    if rows == [] then 0 else TotalBytes(rows[..|rows| - 1]) + RowBytes(rows[|rows| - 1])
  }

  /** Everything the check demands. */
  ghost predicate Accepted(digest: bytes -> string, a: Archive) {
    && a.schemaVersion in {1, 2}
    && (if a.schemaVersion == 1 then 1 else 0) <= |a.samples| <= 4
    && (a.schemaVersion == 2 ==> FailuresAccepted(a))
    && (forall i | 0 <= i < |a.samples| :: SampleAccepted(digest, a.samples[i]))
    && TotalBytes(a.samples) <= 6 * 1024 * 1024
  }

  // --------------------------------------------------------------- the validator

  method ValidateDownloadFailures(a: Archive) returns (ok: bool)
    ensures ok <==> FailuresAccepted(a)
  {
    if a.referenceSalt.None? || a.downloadFailures.None? || !HexText(a.referenceSalt.value) { return false; }
    var failures := a.downloadFailures.value;
    if !(1 <= |failures| <= 16) { return false; }
    for n := 0 to |failures|
      invariant forall i | 0 <= i < n :: ReceiptAccepted(failures[i])
    {
      if !ReceiptAccepted(failures[n]) { return false; }
    }
    return true;
  }

  /** One sample's body: its encoding, its limit and its integrity. */
  method ValidateSample(digest: bytes -> string, row: SampleRow) returns (size: Option<nat>)
    ensures size == if SampleAccepted(digest, row) then Some(RowBytes(row)) else None
  {
    var data := Base64.DecodeStrict(row.bodyBase64);
    if data.None? { return None; }
    if |data.value| > 2 * 1024 * 1024 || row.length != |data.value| || row.sha256 != digest(data.value) { return None; }
    return Some(|data.value|);
  }

  /** The check accepts exactly the acceptable archives. */
  method ValidateArchive(digest: bytes -> string, a: Archive) returns (error: Option<Error>)
    ensures error.None? <==> Accepted(digest, a)
  {
    hide SampleAccepted, RowBytes, FailuresAccepted;
    if a.schemaVersion !in {1, 2} { return Some(InvalidArchive); }
    if !((if a.schemaVersion == 1 then 1 else 0) <= |a.samples| <= 4) { return Some(InvalidArchive); }
    if a.schemaVersion == 2 {
      var ok := ValidateDownloadFailures(a);
      if !ok { return Some(InvalidFailures); }
    }
    var total: nat := 0;
    for n := 0 to |a.samples|
      invariant total == TotalBytes(a.samples[..n])
      invariant forall i | 0 <= i < n :: SampleAccepted(digest, a.samples[i])
    {
      assert a.samples[..n + 1][..n] == a.samples[..n];
      var size := ValidateSample(digest, a.samples[n]);
      if size.None? { return Some(FailedIntegrity); }
      total := total + size.value;
    }
    assert a.samples[..|a.samples|] == a.samples;
    if total > 6 * 1024 * 1024 { return Some(SizeExceeded); }
    return None;
  }

  // ------------------------------------------------------- exports are acceptable

  lemma {:induction false} RowPasses(crypto: Crypto, sample: Sample)
    requires |sample.body| <= BODY_LIMIT && sample.sha256 == crypto.digest(sample.body)
    ensures SampleAccepted(crypto.digest, Row(sample)) && RowBytes(Row(sample)) == |sample.body|
  {
    Base64.DecodeStrictEncode(sample.body);
    hide Base64.Encode, Base64.DecodeStrict;
  }

  lemma {:induction false} RowsTotal(crypto: Crypto, samples: seq<Sample>, rows: seq<SampleRow>)
    requires |rows| == |samples| && forall i | 0 <= i < |rows| :: rows[i] == Row(samples[i])
    requires forall i | 0 <= i < |samples| :: |samples[i].body| <= BODY_LIMIT && samples[i].sha256 == crypto.digest(samples[i].body)
    ensures TotalBytes(rows) == Total(samples)
    decreases |rows|
  {
    if rows != [] {
      RowsTotal(crypto, samples[..|samples| - 1], rows[..|rows| - 1]);
      RowPasses(crypto, samples[|samples| - 1]);
      hide Row, RowBytes;
    }
  }

  /** No receipt carries a minute the capture window does not have. */
  ghost predicate WithinWindow(receipts: seq<Receipt>) {
    forall i | 0 <= i < |receipts| :: receipts[i].minute <= 29
  }

  lemma {:induction false} ReceiptPasses(r: Receipt)
    requires ReceiptOk(r)
    ensures ReceiptAccepted(r) <==> r.minute <= 29
  {}

  lemma {:induction false} PackedAcceptedIff(crypto: Crypto, s: State)
    requires Inv(crypto, s) && (s.samples != [] || s.receipts != [])
    ensures Accepted(crypto.digest, Packed(s)) <==> WithinWindow(s.receipts)
  {
    hide SampleAccepted, ReceiptAccepted, ReceiptOk, Row, HexText, Hex;
    var a := Packed(s);
    RowsTotal(crypto, s.samples, a.samples);
    forall i | 0 <= i < |a.samples| ensures SampleAccepted(crypto.digest, a.samples[i]) { RowPasses(crypto, s.samples[i]); }
    forall i | 0 <= i < |s.receipts| ensures ReceiptAccepted(s.receipts[i]) <==> s.receipts[i].minute <= 29 { ReceiptPasses(s.receipts[i]); }
    SaltIsHex(s.salt);
  }

  lemma {:induction false} SaltIsHex(salt: bytes)
    requires |salt| == 32
    ensures HexText(Hex(salt))
  {
    HexSymbols(salt);
  }

  /** Whatever a session went through, the validator accepts its export if and only if no receipt's minute exceeds 29. */
  lemma {:induction false} AcceptedByMinutes(crypto: Crypto, salt: bytes, started: Clock, steps: seq<Step>, now: Clock)
    requires crypto.Lawful() && |salt| == 32
    requires Exported(Run(crypto, Initial(salt, started), steps), now).Some?
    ensures var s := Run(crypto, Initial(salt, started), steps);
      Accepted(crypto.digest, Exported(s, now).value) <==> WithinWindow(s.receipts)
  {
    hide Inv, Run, Packed, Accepted;
    var s := Run(crypto, Initial(salt, started), steps);
    RunInv(crypto, salt, started, steps);
    ExpireKeeps(crypto, s, now);
    PackedAcceptedIff(crypto, Expire(s, now));
  }

  /** One reading serves the window test and the time stamp. */
  predicate OneReading(step: Step) {
    match step
    case Capture(clock, _, _) => clock.Single()
    case CaptureFailure(clock, _, _, _) => clock.Single()
    case _ => true
  }

  lemma {:induction false} MinuteInWindow(s: State, c: Clock)
    requires Elapsed(s, c) < CAPTURE_WINDOW
    ensures Minute(s, c) <= 29
  {
    var e := Elapsed(s, c) / 60000.0;
    assert e < 30.0;
    assert (e.Floor as real) <= e;
  }

  lemma {:induction false} StepWithin(crypto: Crypto, s: State, step: Step)
    requires WithinWindow(s.receipts) && (OneReading(step) || StampsInWindow(crypto, s, step))
    ensures WithinWindow(Apply(crypto, s, step).receipts)
  {
    hide Retained, HasFamily, Receipted, ReferencesOf, Elapsed, Minute, Kept;
    if step.CaptureFailure? && KeepsReceipt(crypto, s, step) {
      var s' := Expire(s, step.clock.expiry);
      StampedFrom(s, s', step.clock.stamp);
      MinuteIff(s, step.clock.stamp);
      if OneReading(step) { MinuteInWindow(s', step.clock.stamp); }
    }
  }

  lemma {:induction false} RunWithin(crypto: Crypto, salt: bytes, started: Clock, steps: seq<Step>)
    requires forall i | 0 <= i < |steps| :: OneReading(steps[i])
    ensures WithinWindow(Run(crypto, Initial(salt, started), steps).receipts)
    decreases |steps|
  {
    if steps != [] {
      hide Apply;
      RunWithin(crypto, salt, started, steps[..|steps| - 1]);
      StepWithin(crypto, Run(crypto, Initial(salt, started), steps[..|steps| - 1]), steps[|steps| - 1]);
    }
  }

  /** With one clock reading in each call, the validator accepts every export of every run. */
  lemma {:induction false} ExportAccepted(crypto: Crypto, salt: bytes, started: Clock, steps: seq<Step>, now: Clock)
    requires crypto.Lawful() && |salt| == 32 && forall i | 0 <= i < |steps| :: OneReading(steps[i])
    requires Exported(Run(crypto, Initial(salt, started), steps), now).Some?
    ensures Accepted(crypto.digest, Exported(Run(crypto, Initial(salt, started), steps), now).value)
  {
    hide Run, Exported, Accepted;
    RunWithin(crypto, salt, started, steps);
    AcceptedByMinutes(crypto, salt, started, steps, now);
  }

  // ------------------------------------------- acceptance by the calls' own readings

  lemma {:induction false} MinuteIff(s: State, c: Clock)
    ensures Minute(s, c) <= 29 <==> Elapsed(s, c) < CAPTURE_WINDOW
  {
    var e := Elapsed(s, c) / 60000.0;
    assert e * 60000.0 == Elapsed(s, c);
    assert (e.Floor as real) <= e < (e.Floor as real) + 1.0;
  }

  /** The call kept a receipt. */
  predicate KeepsReceipt(crypto: Crypto, s: State, step: Step) {
    step.CaptureFailure? && |Apply(crypto, s, step).receipts| > |s.receipts|
  }

  /** A receipt the call kept was stamped inside the capture window. */
  predicate StampsInWindow(crypto: Crypto, s: State, step: Step) {
    KeepsReceipt(crypto, s, step) ==> Elapsed(s, step.clock.stamp) < CAPTURE_WINDOW
  }

  ghost predicate AllInWindow(crypto: Crypto, s0: State, steps: seq<Step>) {
    forall i | 0 <= i < |steps| :: StampsInWindow(crypto, Run(crypto, s0, steps[..i]), steps[i])
  }

  lemma {:induction false} StepWithinIff(crypto: Crypto, s: State, step: Step)
    requires Apply(crypto, s, step).phase == Active
    ensures s.phase == Active
    ensures WithinWindow(Apply(crypto, s, step).receipts) <==> WithinWindow(s.receipts) && StampsInWindow(crypto, s, step)
  {
    hide Retained, HasFamily, Receipted, ReferencesOf, Kept, Minute, Elapsed;
    if step.CaptureFailure? {
      var s' := Apply(crypto, s, step);
      if |s'.receipts| > |s.receipts| {
        MinuteIff(s, step.clock.stamp);
        StampedFrom(s, Expire(s, step.clock.expiry), step.clock.stamp);
        assert s'.receipts[|s.receipts|].minute == Minute(s, step.clock.stamp);
        assert s'.receipts[..|s.receipts|] == s.receipts;
        WithinOne(s.receipts, s'.receipts);
      }
    }
  }

  lemma {:induction false} StampedFrom(s: State, s': State, c: Clock)
    requires s'.started == s.started
    ensures Minute(s', c) == Minute(s, c)
  {}

  lemma {:induction false} WithinOne(a: seq<Receipt>, b: seq<Receipt>)
    requires |b| == |a| + 1 && b[..|a|] == a
    ensures WithinWindow(b) <==> WithinWindow(a) && b[|a|].minute <= 29
  {
    assert forall i | 0 <= i < |a| :: b[i] == a[i];
  }

  lemma {:induction false} InWindowSplits(crypto: Crypto, s0: State, steps: seq<Step>)
    requires steps != []
    ensures var init := steps[..|steps| - 1];
      AllInWindow(crypto, s0, steps) <==>
        AllInWindow(crypto, s0, init) && StampsInWindow(crypto, Run(crypto, s0, init), steps[|steps| - 1])
  {
    hide StampsInWindow, Run;
    var n := |steps| - 1;
    var init := steps[..n];
    forall i | 0 <= i < n ensures init[..i] == steps[..i] && init[i] == steps[i] {}
    if AllInWindow(crypto, s0, steps) {
      forall i | 0 <= i < n ensures StampsInWindow(crypto, Run(crypto, s0, init[..i]), init[i]) {
        assert StampsInWindow(crypto, Run(crypto, s0, steps[..i]), steps[i]);
      }
    }
    if AllInWindow(crypto, s0, init) && StampsInWindow(crypto, Run(crypto, s0, init), steps[n]) {
      forall i | 0 <= i < |steps| ensures StampsInWindow(crypto, Run(crypto, s0, steps[..i]), steps[i]) {
        if i < n { assert StampsInWindow(crypto, Run(crypto, s0, init[..i]), init[i]); }
      }
    }
  }

  lemma {:induction false} RunWithinIff(crypto: Crypto, s0: State, steps: seq<Step>)
    requires Run(crypto, s0, steps).phase == Active
    ensures WithinWindow(Run(crypto, s0, steps).receipts) <==> WithinWindow(s0.receipts) && AllInWindow(crypto, s0, steps)
    decreases |steps|
  {
    if steps != [] {
      hide Apply, WithinWindow, StampsInWindow, AllInWindow;
      var init := steps[..|steps| - 1];
      StepWithinIff(crypto, Run(crypto, s0, init), steps[|steps| - 1]);
      RunWithinIff(crypto, s0, init);
      InWindowSplits(crypto, s0, steps);
    }
  }

  /** The validator accepts an export exactly when every call that kept a receipt stamped it within thirty minutes. */
  lemma {:induction false} ExportAcceptedIff(crypto: Crypto, salt: bytes, started: Clock, steps: seq<Step>, now: Clock)
    requires crypto.Lawful() && |salt| == 32
    requires Exported(Run(crypto, Initial(salt, started), steps), now).Some?
    ensures Accepted(crypto.digest, Exported(Run(crypto, Initial(salt, started), steps), now).value) <==>
      AllInWindow(crypto, Initial(salt, started), steps)
  {
    hide Run, Packed, Accepted, AllInWindow;
    AcceptedByMinutes(crypto, salt, started, steps, now);
    RunWithinIff(crypto, Initial(salt, started), steps);
  }

  /** A stamp read after the window closed, in a call that began inside it, makes a receipt the validator refuses. */
  lemma {:induction false} LateStampIsRefused(crypto: Crypto, salt: bytes)
    requires crypto.Lawful() && |salt| == 32
    ensures var start, last, past := Clock(0.0, 0.0), Clock(1799999.0, 1799999.0), Clock(1800001.0, 1800001.0);
      var late := CaptureFailure(Readings(last, last, past), Some(Failure(404, 1, InitialHop, EufyUs, EufyUs)),
                                 Claim(None, None, None), Values(None, None, None, None));
      var s := Run(crypto, Initial(salt, start), [late]);
      Exported(s, past).Some? && !Accepted(crypto.digest, Exported(s, past).value)
  {
    var start, last, past := Clock(0.0, 0.0), Clock(1799999.0, 1799999.0), Clock(1800001.0, 1800001.0);
    var error := Failure(404, 1, InitialHop, EufyUs, EufyUs);
    var late := CaptureFailure(Readings(last, last, past), Some(error), Claim(None, None, None), Values(None, None, None, None));
    var s0 := Initial(salt, start);
    assert [late][..0] == [];
    assert Run(crypto, s0, [late]) == Apply(crypto, s0, late);
    var s := Apply(crypto, s0, late);
    assert Minute(s0, past) == 30;
    assert s.receipts == [Receipt(Context(None, None, None), error, 30, map[])];
    assert s.receipts[0].minute == 30 && !WithinWindow(s.receipts);
    AcceptedByMinutes(crypto, salt, start, [late], past);
  }
}

/** The evidence session as it is updated in place. */
module EventImageSession {
  import opened Basics
  import E = EventImageCapture
  import V = EvidenceExport

  /** What one call keeps: the session invariant, and the window when its stamp lies in it. */
  lemma {:induction false} StepKeeps(crypto: E.Crypto, s: E.State, step: E.Step)
    requires crypto.Lawful() && E.Inv(crypto, s)
    ensures E.Inv(crypto, E.Apply(crypto, s, step))
    ensures V.WithinWindow(s.receipts) && (V.OneReading(step) || V.StampsInWindow(crypto, s, step)) ==>
      V.WithinWindow(E.Apply(crypto, s, step).receipts)
  {
    hide E.Inv, E.Apply, V.WithinWindow, V.OneReading, V.StampsInWindow;
    E.StepInv(crypto, s, step);
    if V.WithinWindow(s.receipts) && (V.OneReading(step) || V.StampsInWindow(crypto, s, step)) { V.StepWithin(crypto, s, step); }
  }

  class EventImageCapture {
    const crypto: E.Crypto
    const started: E.Clock
    var salt: bytes
    var samples: seq<E.Sample>
    var receipts: seq<E.Receipt>
    var bytes': nat
    var dropped: nat
    var skippedOversize: nat
    var phase: E.Phase

    ghost function State(): E.State
      reads this
    {
      E.State(salt, started, samples, receipts, bytes', dropped, skippedOversize, phase)
    }

    /** Samples and receipts are bounded, distinct and well formed, and gone once the session ended. */
    ghost predicate Valid()
      reads this
    {
      crypto.Lawful() && E.Inv(crypto, State())
    }

    /** No receipt was stamped outside the capture window. */
    ghost predicate WithinWindow()
      reads this
    {
      V.WithinWindow(receipts)
    }

    constructor (crypto: E.Crypto, salt: bytes, started: E.Clock)
      requires crypto.Lawful() && |salt| == 32
      ensures Valid() && WithinWindow() && State() == E.Initial(salt, started) && this.crypto == crypto
    {
      this.crypto, this.salt, this.started := crypto, salt, started;
      samples, receipts, bytes', dropped, skippedOversize, phase := [], [], 0, 0, 0, E.Active;
    }

    method End(phase: E.Phase)
      requires Valid()
      modifies `salt, `samples, `receipts, `bytes', `phase
      ensures Valid() && WithinWindow() && State() == E.EndWith(old(State()), phase)
    {
      samples, receipts := [], [];
      salt := seq(|salt|, _ => 0);
      bytes' := 0;
      this.phase := phase;
    }

    method Expire(now: E.Clock)
      requires Valid()
      modifies `salt, `samples, `receipts, `bytes', `phase
      ensures Valid() && State() == E.Expire(old(State()), now)
      ensures old(WithinWindow()) ==> WithinWindow()
    {
      hide E.Inv, V.WithinWindow;
      var elapsed := Elapsed(now);
      if phase == E.Active && elapsed >= E.EXPORT_WINDOW { End(E.Expired); }
    }

    method Elapsed(now: E.Clock) returns (elapsed: real)
      ensures elapsed == E.Elapsed(State(), now)
    {
      elapsed := now.monotonic - started.monotonic;
      if now.wall - started.wall > elapsed { elapsed := now.wall - started.wall; }
    }

    method Accepting(clock: E.Readings) returns (accepting: bool)
      requires Valid()
      modifies `salt, `samples, `receipts, `bytes', `phase
      ensures Valid() && State() == E.Expire(old(State()), clock.expiry) && accepting == E.Accepting(State(), clock.window)
      ensures old(WithinWindow()) ==> WithinWindow()
    {
      hide E.Inv, V.WithinWindow;
      Expire(clock.expiry);
      if phase != E.Active { return false; }
      var elapsed := Elapsed(clock.window);
      accepting := elapsed < E.CAPTURE_WINDOW;
    }

    method MinuteOf(now: E.Clock) returns (minute: int)
      ensures minute == E.Minute(State(), now)
    {
      var elapsed := Elapsed(now);
      minute := (elapsed / 60000.0).Floor;
      if minute < 0 { minute := 0; }
    }

    /** Look for a retained body with this digest, and for one of this family. */
    method Search(sha256: string, family: E.Context) returns (retained: bool, taken: bool)
      ensures retained == E.Retained(State(), sha256) && taken == E.HasFamily(State(), family)
    {
      retained, taken := false, false;
      for n := 0 to |samples|
        invariant retained <==> exists i :: 0 <= i < n && samples[i].sha256 == sha256
        invariant taken <==> exists i :: 0 <= i < n && samples[i].family == family
      {
        if samples[n].sha256 == sha256 { retained := true; }
        if samples[n].family == family { taken := true; }
      }
    }

    method Capture(clock: E.Readings, body: bytes, claim: E.Claim)
      requires Valid()
      modifies `salt, `samples, `receipts, `bytes', `phase, `dropped, `skippedOversize
      ensures Valid() && State() == E.Apply(crypto, old(State()), E.Capture(clock, body, claim))
      ensures old(WithinWindow()) ==> WithinWindow()
    {
      hide E.Inv, V.WithinWindow, E.Retained, E.HasFamily, E.Expire, E.Minute;
      StepKeeps(crypto, State(), E.Capture(clock, body, claim));
      var accepting := Accepting(clock);
      if !accepting { return; }
      if |body| > E.BODY_LIMIT {
        skippedOversize := skippedOversize + 1;
        return;
      }
      var family := E.Kept(claim);
      var sha256 := crypto.digest(body);
      var retained, taken := Search(sha256, family);
      if retained { return; }
      if taken || |samples| >= E.MAXIMUM_SAMPLES || bytes' + |body| > E.TOTAL_LIMIT {
        dropped := dropped + 1;
        return;
      }
      var minute := MinuteOf(clock.stamp);
      samples := samples + [E.Sample(family, body, sha256, minute)];
      bytes' := bytes' + |body|;
    }

    method SearchReceipts(failure: E.Failure, references: E.References) returns (found: bool)
      ensures found == E.Receipted(State(), failure, references)
    {
      found := false;
      for n := 0 to |receipts|
        invariant found <==> exists i :: 0 <= i < n && receipts[i].failure == failure && receipts[i].references == references
      {
        if receipts[n].failure == failure && receipts[n].references == references { found := true; }
      }
    }

    method CaptureDownloadFailure(clock: E.Readings, error: Option<E.Failure>, claim: E.Claim, values: E.Values)
      requires Valid()
      modifies `salt, `samples, `receipts, `bytes', `phase, `dropped
      ensures Valid() && State() == E.Apply(crypto, old(State()), E.CaptureFailure(clock, error, claim, values))
      ensures old(WithinWindow()) && (clock.Single() || E.Elapsed(old(State()), clock.stamp) < E.CAPTURE_WINDOW) ==> WithinWindow()
    {
      hide E.Inv, V.WithinWindow, E.Elapsed, E.Receipted, E.ReferencesOf, E.Expire, E.Minute, E.Kept;
      StepKeeps(crypto, State(), E.CaptureFailure(clock, error, claim, values));
      var accepting := Accepting(clock);
      if !accepting || error.None? { return; }
      var failure := error.value;
      if failure.status < 400 || failure.status > 599 || failure.attempts < 1 || failure.attempts > 5 { return; }
      var references := E.ReferencesOf(crypto, salt, values);
      var found := SearchReceipts(failure, references);
      if found { return; }
      if |receipts| >= E.MAXIMUM_RECEIPTS {
        dropped := dropped + 1;
        return;
      }
      var minute := MinuteOf(clock.stamp);
      receipts := receipts + [E.Receipt(E.Kept(claim), failure, minute, references)];
    }

    /** Nothing once the session ended or while it is empty, and otherwise what the owner's check accepts within the window. */
    method Archive(now: E.Clock) returns (archive: Option<E.Archive>)
      requires Valid()
      modifies `salt, `samples, `receipts, `bytes', `phase
      ensures Valid() && State() == E.Apply(crypto, old(State()), E.Export(now))
      ensures archive == E.Exported(old(State()), now)
      ensures archive.Some? ==> (V.Accepted(crypto.digest, archive.value) <==> WithinWindow())
      ensures old(WithinWindow()) ==> WithinWindow()
    {
      hide E.Inv, V.WithinWindow, V.Accepted, E.Packed, E.Expire;
      Expire(now);
      if phase != E.Active || (|samples| == 0 && |receipts| == 0) { return None; }
      V.PackedAcceptedIff(crypto, State());
      var packed := Pack();
      archive := Some(packed);
    }

    method Pack() returns (archive: E.Archive)
      ensures archive == E.Packed(State())
    {
      hide E.Hex;
      var rows: seq<E.SampleRow> := [];
      for i := 0 to |samples|
        invariant |rows| == i && forall j | 0 <= j < i :: rows[j] == E.Row(samples[j])
      {
        rows := rows + [E.Row(samples[i])];
      }
      assert rows == E.Rows(samples);
      if |receipts| > 0 {
        archive := E.Archive(2, Some(E.Hex(salt)), Some(receipts), rows);
      } else {
        archive := E.Archive(1, None, None, rows);
      }
    }

    method Close()
      requires Valid()
      modifies `salt, `samples, `receipts, `bytes', `phase
      ensures Valid() && State() == E.Apply(crypto, old(State()), E.Close)
    {
      End(E.Cleared);
    }
  }
}
