/** What a failed-image session keeps of each call, and what its reference tokens prove. */
module EvidenceAnswers {
  import opened Basics
  import opened EventImageCapture

  // ------------------------------------------------------------ reference tokens

  function ValueOf(v: Values, domain: string): Option<string> {
    if domain == "camera" then v.camera
    else if domain == "station" then v.station
    else if domain == "recording" then v.recording
    else if domain == "picture" then v.picture
    else None
  }

  predicate Referable(value: Option<string>) { value.Some? && 1 <= |value.value| <= 2048 }

  lemma {:induction false} TokenIs(crypto: Crypto, salt: bytes, refs: References, domain: string, value: Option<string>)
    ensures var refs' := WithToken(crypto, salt, refs, domain, value);
      && (forall k | k != domain :: k in refs' <==> k in refs)
      && (forall k | k != domain && k in refs :: refs'[k] == refs[k])
      && (Referable(value) ==> domain in refs' && refs'[domain] == Hex(crypto.mac(salt, domain, value.value)))
      && (!Referable(value) ==> refs' == refs)
  {}

  /** Exactly the values of admissible length have a token: the keyed hash of the domain and that very value. */
  lemma {:induction false} ReferencesAre(crypto: Crypto, salt: bytes, v: Values, domain: string)
    ensures domain in ReferencesOf(crypto, salt, v) <==> Referable(ValueOf(v, domain))
    ensures Referable(ValueOf(v, domain)) ==>
      ReferencesOf(crypto, salt, v)[domain] == Hex(crypto.mac(salt, domain, ValueOf(v, domain).value))
  {
    hide WithToken, Hex;
    var camera := WithToken(crypto, salt, map[], "camera", v.camera);
    var station := WithToken(crypto, salt, camera, "station", v.station);
    var recording := WithToken(crypto, salt, station, "recording", v.recording);
    TokenIs(crypto, salt, map[], "camera", v.camera);
    TokenIs(crypto, salt, camera, "station", v.station);
    TokenIs(crypto, salt, station, "recording", v.recording);
    TokenIs(crypto, salt, recording, "picture", v.picture);
  }

  const DIGITS: string := "0123456789abcdef"

  lemma {:induction false} HexDigits(n: nat)
    requires n < 16
    ensures HexSymbol(n) == DIGITS[n]
  {}

  lemma {:induction false} HexAt(b: bytes, i: nat)
    requires i < |b|
    ensures |Hex(b)| == 2 * |b| && Hex(b)[2 * i] == DIGITS[b[i] / 16] && Hex(b)[2 * i + 1] == DIGITS[b[i] % 16]
    decreases |b|
  {
    HexSymbols(b);
    HexDigits(b[0] / 16);
    HexDigits(b[0] % 16);
    if i > 0 {
      HexAt(b[1..], i - 1);
      assert Hex(b)[2..] == Hex(b[1..]);
      assert Hex(b)[2 * i] == Hex(b)[2..][2 * (i - 1)] && Hex(b)[2 * i + 1] == Hex(b)[2..][2 * (i - 1) + 1];
    }
  }

  lemma {:induction false} DigitsDiffer(m: nat, n: nat)
    requires m < 16 && n < 16 && DIGITS[m] == DIGITS[n]
    ensures m == n
  {}

  /** Hexadecimal text tells byte strings apart. */
  lemma {:induction false} HexInjective(a: bytes, b: bytes)
    requires Hex(a) == Hex(b)
    ensures a == b
  {
    hide Hex;
    HexSymbols(a);
    HexSymbols(b);
    forall i | 0 <= i < |a| ensures a[i] == b[i] {
      HexAt(a, i);
      HexAt(b, i);
      DigitsDiffer(a[i] / 16, b[i] / 16);
      DigitsDiffer(a[i] % 16, b[i] % 16);
    }
  }

  /** The keyed hash tells values of one domain apart, as HMAC-SHA-256 is assumed to. */
  ghost predicate Collisionless(crypto: Crypto, salt: bytes, domain: string) {
    forall a: string, b: string :: crypto.mac(salt, domain, a) == crypto.mac(salt, domain, b) ==> a == b
  }

  /** Two receipts of a session have the same token of a domain exactly when they are about the same value. */
  lemma {:induction false} SameTokenIff(crypto: Crypto, salt: bytes, a: Values, b: Values, domain: string)
    requires Collisionless(crypto, salt, domain)
    requires domain in ReferencesOf(crypto, salt, a) && domain in ReferencesOf(crypto, salt, b)
    ensures ReferencesOf(crypto, salt, a)[domain] == ReferencesOf(crypto, salt, b)[domain] <==> ValueOf(a, domain) == ValueOf(b, domain)
  {
    hide ReferencesOf, Hex;
    ReferencesAre(crypto, salt, a, domain);
    ReferencesAre(crypto, salt, b, domain);
    var x, y := crypto.mac(salt, domain, ValueOf(a, domain).value), crypto.mac(salt, domain, ValueOf(b, domain).value);
    if Hex(x) == Hex(y) { HexInjective(x, y); }
  }

  // ------------------------------------------------------------- what is kept

  /** Neither clock is `limit` milliseconds past the start. */
  predicate Before(s: State, c: Clock, limit: real) {
    c.monotonic - s.started.monotonic < limit && c.wall - s.started.wall < limit
  }

  lemma {:induction false} ElapsedIff(s: State, c: Clock, limit: real)
    ensures Elapsed(s, c) < limit <==> Before(s, c, limit)
  {}

  /** The whole minutes of the later clock, none before the start. */
  lemma {:induction false} MinuteIs(s: State, c: Clock, minute: int)
    ensures Minute(s, c) == minute <==>
      minute >= 0 && Before(s, c, (minute + 1) as real * 60000.0) && (minute > 0 ==> !Before(s, c, minute as real * 60000.0))
  {
    var e := Elapsed(s, c);
    ElapsedIff(s, c, (minute + 1) as real * 60000.0);
    ElapsedIff(s, c, minute as real * 60000.0);
    var floor := (e / 60000.0).Floor;
    assert floor as real <= e / 60000.0 < floor as real + 1.0;
    assert e == e / 60000.0 * 60000.0;
    hide Elapsed, Before;
  }

  /** The session takes evidence: it is active within its first half hour, and not expired by the first reading. */
  predicate Open(s: State, clock: Readings) {
    s.phase.Active? && Before(s, clock.expiry, 3600000.0) && Before(s, clock.window, 1800000.0)
  }

  /** The hour is over: everything is erased, the salt with zeros. Otherwise nothing happens. */
  lemma {:induction false} ExpiryErases(s: State, c: Clock)
    ensures Expire(s, c) ==
      if s.phase.Active? && !Before(s, c, 3600000.0)
      then State(seq(|s.salt|, _ => 0), s.started, [], [], 0, s.dropped, s.skippedOversize, Expired) else s
  {
    ElapsedIff(s, c, 3600000.0);
    hide Elapsed, Before;
  }

  lemma {:induction false} OpenIff(s: State, clock: Readings)
    ensures Open(s, clock) <==> Accepting(Expire(s, clock.expiry), clock.window)
    ensures Open(s, clock) ==> Expire(s, clock.expiry) == s
  {
    ExpiryErases(s, clock.expiry);
    ElapsedIff(s, clock.window, 1800000.0);
    hide Elapsed, Before;
  }

  /** `T` and three to twelve digits, capitals or hyphens. */
  predicate ModelName(model: string) {
    4 <= |model| <= 13 && model[0] == 'T'
    && forall i | 1 <= i < |model| :: '0' <= model[i] <= '9' || 'A' <= model[i] <= 'Z' || model[i] == '-'
  }

  /** What is kept of a claim: each part when it is admissible. */
  lemma {:induction false} KeptIs(claim: Claim)
    ensures var c := Kept(claim);
      && c.topology == claim.topology
      && (c.model == claim.model || c.model == None) && (c.deviceType == claim.deviceType || c.deviceType == None)
      && (c.model != None <==> claim.model != None && ModelName(claim.model.value))
      && (c.deviceType != None <==> claim.deviceType != None && 0 <= claim.deviceType.value <= 65535)
  {}

  /**
   * A body is kept exactly in an open session when it is no longer than two mebibytes, new,
   * the first of its family and within four bodies of six mebibytes together; each other
   * case is ignored or counted as the code does.
   */
  lemma {:induction false} BodyKeptIff(crypto: Crypto, s: State, clock: Readings, body: bytes, claim: Claim)
    ensures var s' := Apply(crypto, s, Capture(clock, body, claim));
      var known := exists i :: 0 <= i < |s.samples| && s.samples[i].sha256 == crypto.digest(body);
      var taken := (exists i :: 0 <= i < |s.samples| && s.samples[i].family == Kept(claim))
                   || |s.samples| >= 4 || s.bytes + |body| > 6291456;
      s' == if !Open(s, clock) then Expire(s, clock.expiry)
            else if |body| > 2097152 then s.(skippedOversize := s.skippedOversize + 1)
            else if known then s
            else if taken then s.(dropped := s.dropped + 1)
            else s.(samples := s.samples + [Sample(Kept(claim), body, crypto.digest(body), Minute(s, clock.stamp))], bytes := s.bytes + |body|)
  {
    OpenIff(s, clock);
    hide Accepting, Expire, Open, Kept, Minute;
  }

  /** A receipt is kept exactly in an open session, for a typed error in range, once, and up to sixteen. */
  lemma {:induction false} ReceiptKeptIff(crypto: Crypto, s: State, clock: Readings, error: Option<Failure>, claim: Claim, values: Values)
    ensures var s' := Apply(crypto, s, CaptureFailure(clock, error, claim, values));
      var typed := error.Some? && 400 <= error.value.status <= 599 && 1 <= error.value.attempts <= 5;
      var refs := ReferencesOf(crypto, s.salt, values);
      var known := typed && exists i :: 0 <= i < |s.receipts| && s.receipts[i].failure == error.value && s.receipts[i].references == refs;
      s' == if !Open(s, clock) then Expire(s, clock.expiry)
            else if !typed || known then s
            else if |s.receipts| >= 16 then s.(dropped := s.dropped + 1)
            else s.(receipts := s.receipts + [Receipt(Kept(claim), error.value, Minute(s, clock.stamp), refs)])
  {
    OpenIff(s, clock);
    hide Accepting, Expire, Open, Kept, Minute, ReferencesOf;
  }

  // ------------------------------------------------------- where evidence comes from

  predicate SampleFrom(crypto: Crypto, sample: Sample, step: Step) {
    step.Capture? && sample.body == step.body && sample.sha256 == crypto.digest(step.body) && sample.family == Kept(step.claim)
  }

  predicate ReceiptFrom(crypto: Crypto, salt: bytes, r: Receipt, step: Step) {
    && step.CaptureFailure? && step.error == Some(r.failure) && r.context == Kept(step.claim)
    && r.references == ReferencesOf(crypto, salt, step.values)
  }

  ghost predicate SampleTraced(crypto: Crypto, sample: Sample, steps: seq<Step>) {
    exists i :: 0 <= i < |steps| && SampleFrom(crypto, sample, steps[i])
  }

  ghost predicate ReceiptTraced(crypto: Crypto, salt: bytes, r: Receipt, steps: seq<Step>) {
    exists i :: 0 <= i < |steps| && ReceiptFrom(crypto, salt, r, steps[i])
  }

  /** Every piece of evidence is that of some call of the run, under the session's own salt. */
  ghost predicate Traced(crypto: Crypto, salt: bytes, s: State, steps: seq<Step>) {
    && (s.phase.Active? ==> s.salt == salt)
    && (s.phase.Active? || (s.samples == [] && s.receipts == []))
    && (forall i | 0 <= i < |s.samples| :: SampleTraced(crypto, s.samples[i], steps))
    && (forall i | 0 <= i < |s.receipts| :: ReceiptTraced(crypto, salt, s.receipts[i], steps))
  }

  lemma {:induction false} TracedLater(crypto: Crypto, salt: bytes, steps: seq<Step>, step: Step)
    ensures forall sample: Sample :: SampleTraced(crypto, sample, steps) || SampleFrom(crypto, sample, step) ==>
      SampleTraced(crypto, sample, steps + [step])
    ensures forall r: Receipt :: ReceiptTraced(crypto, salt, r, steps) || ReceiptFrom(crypto, salt, r, step) ==>
      ReceiptTraced(crypto, salt, r, steps + [step])
  {
    hide SampleFrom, ReceiptFrom;
    var all := steps + [step];
    assert all[|steps|] == step;
    assert forall i | 0 <= i < |steps| :: all[i] == steps[i];
    forall sample: Sample | SampleTraced(crypto, sample, steps) || SampleFrom(crypto, sample, step)
      ensures SampleTraced(crypto, sample, all)
    {
      if SampleTraced(crypto, sample, steps) {
        var i :| 0 <= i < |steps| && SampleFrom(crypto, sample, steps[i]);
        assert SampleFrom(crypto, sample, all[i]);
      }
    }
    forall r: Receipt | ReceiptTraced(crypto, salt, r, steps) || ReceiptFrom(crypto, salt, r, step)
      ensures ReceiptTraced(crypto, salt, r, all)
    {
      if ReceiptTraced(crypto, salt, r, steps) {
        var i :| 0 <= i < |steps| && ReceiptFrom(crypto, salt, r, steps[i]);
        assert ReceiptFrom(crypto, salt, r, all[i]);
      }
    }
  }

  lemma {:induction false} Later(crypto: Crypto, salt: bytes, s: State, s': State, steps: seq<Step>, step: Step)
    requires Traced(crypto, salt, s, steps)
    requires s'.phase.Active? ==> s == s'.(dropped := s.dropped, skippedOversize := s.skippedOversize)
    requires !s'.phase.Active? ==> s'.samples == [] && s'.receipts == []
    ensures Traced(crypto, salt, s', steps + [step])
  {
    hide SampleTraced, ReceiptTraced;
    TracedLater(crypto, salt, steps, step);
  }

  lemma {:induction false} Added(crypto: Crypto, salt: bytes, s: State, s': State, steps: seq<Step>, step: Step)
    requires Traced(crypto, salt, s, steps) && s.phase.Active? && s'.phase.Active? && s'.salt == s.salt
    requires
      || (|s'.samples| == |s.samples| + 1 && s'.samples[..|s.samples|] == s.samples && s'.receipts == s.receipts
          && SampleFrom(crypto, s'.samples[|s.samples|], step))
      || (|s'.receipts| == |s.receipts| + 1 && s'.receipts[..|s.receipts|] == s.receipts && s'.samples == s.samples
          && ReceiptFrom(crypto, salt, s'.receipts[|s.receipts|], step))
    ensures Traced(crypto, salt, s', steps + [step])
  {
    hide SampleTraced, ReceiptTraced, SampleFrom, ReceiptFrom;
    TracedLater(crypto, salt, steps, step);
    forall i | 0 <= i < |s'.samples| ensures SampleTraced(crypto, s'.samples[i], steps + [step]) {
      if i < |s.samples| { assert s'.samples[i] == s.samples[i]; }
    }
    forall i | 0 <= i < |s'.receipts| ensures ReceiptTraced(crypto, salt, s'.receipts[i], steps + [step]) {
      if i < |s.receipts| { assert s'.receipts[i] == s.receipts[i]; }
    }
  }

  lemma {:induction false} StepTraced(crypto: Crypto, salt: bytes, s: State, steps: seq<Step>, step: Step)
    requires Traced(crypto, salt, s, steps)
    ensures Traced(crypto, salt, Apply(crypto, s, step), steps + [step])
  {
    hide Traced, CaptureStep, FailureStep, Expire, Kept, ReferencesOf, Minute, Open;
    var s' := Apply(crypto, s, step);
    TracedPhase(crypto, salt, s, steps);
    match step {
      case Capture(clock, body, claim) =>
        BodyKeptIff(crypto, s, clock, body, claim);
        OpenIff(s, clock);
        ExpiryErases(s, clock.expiry);
        if Open(s, clock) { OpenActive(s, clock); }
        if s'.samples != s.samples && s'.phase.Active? { Added(crypto, salt, s, s', steps, step); }
        else { Later(crypto, salt, s, s', steps, step); }
      case CaptureFailure(clock, error, claim, values) =>
        ReceiptKeptIff(crypto, s, clock, error, claim, values);
        ExpiryErases(s, clock.expiry);
        if Open(s, clock) { OpenActive(s, clock); }
        if s'.receipts != s.receipts && s'.phase.Active? { Added(crypto, salt, s, s', steps, step); }
        else { Later(crypto, salt, s, s', steps, step); }
      case Export(now) =>
        ExpiryErases(s, now);
        Later(crypto, salt, s, s', steps, step);
      case _ => Later(crypto, salt, s, s', steps, step);
    }
  }

  lemma {:induction false} OpenActive(s: State, clock: Readings)
    requires Open(s, clock)
    ensures s.phase.Active?
  {}

  lemma {:induction false} TracedPhase(crypto: Crypto, salt: bytes, s: State, steps: seq<Step>)
    requires Traced(crypto, salt, s, steps)
    ensures if s.phase.Active? then s.salt == salt else s.samples == [] && s.receipts == []
  {}

  /** Over every run, whatever is retained is evidence of some call, with the references of its values under the session's salt. */
  lemma {:induction false} RunTraced(crypto: Crypto, salt: bytes, started: Clock, steps: seq<Step>)
    ensures Traced(crypto, salt, Run(crypto, Initial(salt, started), steps), steps)
    decreases |steps|
  {
    hide Apply, Traced;
    if steps == [] {
      NothingTraced(crypto, salt, started);
    } else {
      var before := steps[..|steps| - 1];
      RunTraced(crypto, salt, started, before);
      StepTraced(crypto, salt, Run(crypto, Initial(salt, started), before), before, steps[|steps| - 1]);
      assert before + [steps[|steps| - 1]] == steps;
    }
  }

  lemma {:induction false} NothingTraced(crypto: Crypto, salt: bytes, started: Clock)
    ensures Traced(crypto, salt, Initial(salt, started), [])
  {}
}
