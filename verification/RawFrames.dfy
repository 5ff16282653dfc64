/**
 * The on-disk format of one raw-history segment: length-prefixed frames, each
 * authenticated on its own, and the offline decoder that reads them back.
 */
module RawFrames {
  import opened Basics

  /** Largest frame payload the decoder accepts. */
  const MAX_FRAME: nat := 16 * 1024 * 1024

  const NONCE_BYTES: nat := 12
  const TAG_BYTES: nat := 16

  /** One observation with the session sequence number stored beside it. */
  datatype Entry = Entry(sequence: nat, body: bytes)

  datatype Sealed = Sealed(tag: bytes, text: bytes)

  /**
   * The environment of the format. `render` is the JSON rendering (None when it
   * throws), `nonce` the random nonce drawn for a sequence number, and
   * `seal`/`open` the authenticated cipher under the journal's key.
   */
  datatype Codec = Codec(
    render: Entry -> Option<bytes>,
    parse: bytes -> Option<Entry>,
    nonce: nat -> bytes,
    seal: (bytes, bytes) -> Sealed,
    open: (bytes, Sealed) -> Option<bytes>)
  {
    /** What is assumed of JSON and of AES-256-GCM (NIST SP 800-38D): lengths and inversion. */
    ghost predicate Lawful() {
      && (forall e :: render(e).Some? ==> parse(render(e).value) == Some(e))
      && (forall n :: |nonce(n)| == NONCE_BYTES)
      && (forall n, p :: |seal(n, p).tag| == TAG_BYTES && |seal(n, p).text| == |p| && open(n, seal(n, p)) == Some(p))
    }

    predicate Renders(e: Entry) { render(e).Some? }

    /** Length of the queued buffer for an entry. */
    function Length(e: Entry): nat {
      if Renders(e) then |render(e).value| else 0
    }

    /** The value stored in the frame's length prefix. */
    function FrameSize(e: Entry): nat {
      NONCE_BYTES + TAG_BYTES + Length(e)
    }

    /** A rendered entry whose size fits the 32-bit prefix; `writeUInt32BE` throws otherwise. */
    predicate Framable(e: Entry) {
      Renders(e) && FrameSize(e) < 0x1_0000_0000
    }

    /** The writer's bytes for one framable entry: size, nonce, tag, ciphertext. */
    function Frame(e: Entry): bytes {
      if !Framable(e) then [] else
        var nonce := nonce(e.sequence);
        var box := seal(nonce, render(e).value);
        WriteU32(FrameSize(e)) + nonce + box.tag + box.text
    }

    /** An entry whose frame the offline decoder is willing to read. */
    predicate Readable(e: Entry) {
      Renders(e) && FrameSize(e) <= MAX_FRAME
    }

    predicate AllReadable(es: seq<Entry>) {
      forall i | 0 <= i < |es| :: Readable(es[i])
    }

    function Frames(es: seq<Entry>): bytes {
      Join(Images(es))
    }

    function Images(es: seq<Entry>): seq<bytes> {
      seq(|es|, i requires 0 <= i < |es| => Frame(es[i]))
    }
  }

  datatype DecodeError = InvalidFrame | Unauthentic | Unparsable

  datatype Decoded = Decoded(records: seq<Entry>, incompleteTail: bool)

  /** What one complete frame payload yields. */
  function OpenFrame(c: Codec, payload: bytes): Result<Entry, DecodeError>
    requires |payload| >= NONCE_BYTES + TAG_BYTES
  {
    match c.open(payload[..12], Sealed(payload[12..28], payload[28..]))
    case None => Err(Unauthentic)
    case Some(plain) =>
      match c.parse(plain)
      case None => Err(Unparsable)
      case Some(e) => Ok(e)
  }

  /** Reference reading of a segment, one frame at a time. */
  function Decode(c: Codec, b: bytes): Result<Decoded, DecodeError>
    decreases |b|
  {
    if b == [] then Ok(Decoded([], false))
    else if |b| < 4 then Ok(Decoded([], true))
    else
      var size := ReadU32(b);
      if size < 28 || size > MAX_FRAME then Err(InvalidFrame)
      else if |b| - 4 < size then Ok(Decoded([], true))
      else
        match OpenFrame(c, b[4..4 + size])
        case Err(error) => Err(error)
        case Ok(e) => Prepend(e, Decode(c, b[4 + size..]))
  }

  function Prepend(e: Entry, r: Result<Decoded, DecodeError>): Result<Decoded, DecodeError> {
    match r
    case Err(error) => Err(error)
    case Ok(d) => Ok(Decoded([e] + d.records, d.incompleteTail))
  }

  function PrependAll(es: seq<Entry>, r: Result<Decoded, DecodeError>): Result<Decoded, DecodeError> {
    match r
    case Err(error) => Err(error)
    case Ok(d) => Ok(Decoded(es + d.records, d.incompleteTail))
  }

  /** The decoder's loop: an offset moving over the segment, stopping at the first fault. */
  method DecodeRawSegment(c: Codec, b: bytes) returns (r: Result<Decoded, DecodeError>)
    ensures r == Decode(c, b)
  {
    var records: seq<Entry> := [];
    var offset := 0;
    assert b[0..] == b;
    PrependNothing(Decode(c, b));
    while offset < |b|
      invariant 0 <= offset <= |b|
      invariant Decode(c, b) == PrependAll(records, Decode(c, b[offset..]))
    {
      var rest := b[offset..];
      if |rest| < 4 {
        assert records + [] == records;
        return Ok(Decoded(records, true));
      }
      var size := ReadU32(rest);
      if size < 28 || size > MAX_FRAME { return Err(InvalidFrame); }
      if |rest| - 4 < size {
        assert records + [] == records;
        return Ok(Decoded(records, true));
      }
      var outcome := OpenFrame(c, rest[4..4 + size]);
      if outcome.Err? { return Err(outcome.error); }
      offset := offset + 4 + size;
      assert b[offset..] == rest[4 + size..];
      PrependStep(records, outcome.value, Decode(c, b[offset..]));
      records := records + [outcome.value];
    }
    assert b[offset..] == [];
    assert records + [] == records;
    return Ok(Decoded(records, false));
  }

  lemma {:induction false} FrameLength(c: Codec, e: Entry)
    requires c.Lawful() && c.Framable(e)
    ensures |c.Frame(e)| == 4 + c.FrameSize(e)
  {
    var n := c.nonce(e.sequence);
    var box := c.seal(n, c.render(e).value);
    assert |box.tag| == TAG_BYTES && |box.text| == c.Length(e);
  }

  /** One frame followed by anything decodes to its entry followed by whatever the rest gives. */
  lemma {:induction false} DecodeFrame(c: Codec, e: Entry, rest: bytes)
    requires c.Lawful() && c.Readable(e)
    ensures Decode(c, c.Frame(e) + rest) == Prepend(e, Decode(c, rest))
  {
    FrameLength(c, e);
    var size := c.FrameSize(e);
    var n := c.nonce(e.sequence);
    var plain := c.render(e).value;
    var box := c.seal(n, plain);
    assert |n| == 12 && |box.tag| == 16 && |box.text| == |plain| && c.open(n, box) == Some(plain);
    var b := c.Frame(e) + rest;
    assert b[..4] == WriteU32(size);
    ReadWriteU32(size, b);
    var payload := b[4..4 + size];
    assert payload == n + box.tag + box.text;
    assert payload[..12] == n && payload[12..28] == box.tag && payload[28..] == box.text;
    assert b[4 + size..] == rest;
  }

  /** A strict nonempty prefix of one frame is reported as an incomplete tail. */
  lemma {:induction false} DecodeCut(c: Codec, e: Entry, n: nat)
    requires c.Lawful() && c.Readable(e) && 0 < n < |c.Frame(e)|
    ensures Decode(c, c.Frame(e)[..n]) == Ok(Decoded([], true))
  {
    FrameLength(c, e);
    if n >= 4 {
      var b := c.Frame(e)[..n];
      assert b[..4] == WriteU32(c.FrameSize(e));
      ReadWriteU32(c.FrameSize(e), b);
    }
  }

  lemma {:induction false} PrependNothing(r: Result<Decoded, DecodeError>)
    ensures PrependAll([], r) == r
  {
    if r.Ok? { assert [] + r.value.records == r.value.records; }
  }

  lemma {:induction false} PrependStep(es: seq<Entry>, e: Entry, r: Result<Decoded, DecodeError>)
    ensures PrependAll(es, Prepend(e, r)) == PrependAll(es + [e], r)
    ensures Prepend(e, PrependAll(es, r)) == PrependAll([e] + es, r)
  {
    if r.Ok? {
      assert es + ([e] + r.value.records) == (es + [e]) + r.value.records;
      assert [e] + (es + r.value.records) == ([e] + es) + r.value.records;
    }
  }

  lemma {:induction false} FramesAppend(c: Codec, es: seq<Entry>, e: Entry)
    ensures c.Frames(es + [e]) == c.Frames(es) + c.Frame(e)
  {
    var parts := c.Images(es + [e]);
    assert parts[..|es|] == c.Images(es);
    assert parts[..|es| + 1] == parts;
    JoinSplit(parts, |es|);
  }

  lemma {:induction false} DecodeFrames(c: Codec, es: seq<Entry>, rest: bytes)
    requires c.Lawful() && c.AllReadable(es)
    ensures Decode(c, c.Frames(es) + rest) == PrependAll(es, Decode(c, rest))
    decreases |es|
  {
    if es == [] {
      assert c.Frames(es) + rest == rest;
      PrependNothing(Decode(c, rest));
    } else {
      var init, last := es[..|es| - 1], es[|es| - 1];
      assert es == init + [last];
      FramesAppend(c, init, last);
      Regroup(c.Frames(init), c.Frame(last), rest);
      DecodeFrames(c, init, c.Frame(last) + rest);
      DecodeFrame(c, last, rest);
      PrependStep(init, last, Decode(c, rest));
    }
  }

  lemma {:induction false} Regroup(a: bytes, b: bytes, c: bytes)
    ensures (a + b) + c == a + (b + c)
  {}

  /** The cut after `k` whole frames lands inside frame `k`, if anywhere. */
  lemma {:induction false} FramesSplit(c: Codec, es: seq<Entry>, k: nat)
    requires k < |es|
    ensures c.Frames(es[..k + 1]) == c.Frames(es[..k]) + c.Frame(es[k])
    ensures c.Frames(es[..k + 1]) <= c.Frames(es)
  {
    var parts := c.Images(es);
    assert parts[..k] == c.Images(es[..k]);
    assert parts[..k + 1] == c.Images(es[..k + 1]);
    JoinSplit(parts, k);
  }

  /**
   * Crash tolerance. Cutting a run of frames anywhere, `k` being the number of
   * frames that still fit, the decoder returns exactly those `k` records and
   * reports an incomplete tail exactly when the cut is not on a frame boundary.
   */
  lemma {:induction false} DecodePrefix(c: Codec, es: seq<Entry>, n: nat, k: nat)
    requires c.Lawful() && c.AllReadable(es)
    requires n <= |c.Frames(es)|
    requires k <= |es| && |c.Frames(es[..k])| <= n
    requires k < |es| ==> n < |c.Frames(es[..k + 1])|
    ensures Decode(c, c.Frames(es)[..n]) == Ok(Decoded(es[..k], n != |c.Frames(es[..k])|))
  {
    var base := c.Frames(es[..k]);
    assert es[..|es|] == es;
    assert es[..k] + [] == es[..k];
    if k < |es| {
      FramesSplit(c, es, k);
      var frame, m := c.Frame(es[k]), n - |base|;
      CutAppend(base, frame, c.Frames(es), n);
      DecodeFrames(c, es[..k], frame[..m]);
      if m > 0 { DecodeCut(c, es[k], m); }
    } else {
      assert c.Frames(es)[..n] == base + [];
      DecodeFrames(c, es[..k], []);
    }
  }

  lemma {:induction false} CutAppend(base: bytes, frame: bytes, all: bytes, n: nat)
    requires base + frame <= all && |base| <= n <= |base| + |frame|
    ensures all[..n] == base + frame[..n - |base|]
  {
    assert all[..n] == (base + frame)[..n];
  }

  /** Every cut length has such a `k`. */
  lemma {:induction false} FramesWithin(c: Codec, es: seq<Entry>, n: nat) returns (k: nat)
    requires n <= |c.Frames(es)|
    ensures k <= |es| && |c.Frames(es[..k])| <= n
    ensures k < |es| ==> n < |c.Frames(es[..k + 1])|
  {
    k := |es|;
    assert es[..k] == es;
    while |c.Frames(es[..k])| > n
      invariant 0 <= k <= |es|
      invariant k < |es| ==> n < |c.Frames(es[..k + 1])|
      decreases k
    {
      k := k - 1;
    }
  }

  lemma {:induction false} OversizedFrame(c: Codec, e: Entry, b: bytes)
    requires c.Lawful() && c.Framable(e) && !c.Readable(e) && |b| >= 4 && b[..4] == c.Frame(e)[..4]
    ensures Decode(c, b) == Err(InvalidFrame)
  {
    FrameLength(c, e);
    ReadWriteU32(c.FrameSize(e), b);
  }

  /**
   * The writer bounds frames by its segment size, and admission bounds records by
   * the queue, but neither by the decoder's 16 MiB: a frame the writer accepted can
   * be read back exactly when it is within that bound too.
   */
  lemma {:induction false} ReadBackIff(c: Codec, e: Entry, rest: bytes)
    requires c.Lawful() && c.Framable(e)
    ensures Decode(c, c.Frame(e) + rest).Ok? <==> c.FrameSize(e) <= MAX_FRAME && Decode(c, rest).Ok?
  {
    FrameLength(c, e);
    if c.Readable(e) {
      DecodeFrame(c, e, rest);
    } else {
      var b := c.Frame(e) + rest;
      assert b[..4] == c.Frame(e)[..4];
      OversizedFrame(c, e, b);
    }
  }

  lemma {:induction false} FramesReadIff(c: Codec, es: seq<Entry>, rest: bytes)
    requires c.Lawful() && forall i | 0 <= i < |es| :: c.Framable(es[i])
    ensures Decode(c, c.Frames(es) + rest).Ok? <==> c.AllReadable(es) && Decode(c, rest).Ok?
    decreases |es|
  {
    hide Decode;
    if es == [] {
      assert c.Frames(es) + rest == rest;
    } else {
      var init, last := es[..|es| - 1], es[|es| - 1];
      assert es == init + [last];
      FramesAppend(c, init, last);
      Regroup(c.Frames(init), c.Frame(last), rest);
      FramesReadIff(c, init, c.Frame(last) + rest);
      ReadBackIff(c, last, rest);
    }
  }

  /**
   * A cut run of frames decodes without an error exactly when every frame whose
   * length prefix lies wholly before the cut is within the decoder's bound.
   */
  lemma {:induction false} PrefixReadIff(c: Codec, es: seq<Entry>, n: nat, k: nat)
    requires c.Lawful() && forall i | 0 <= i < |es| :: c.Framable(es[i])
    requires n <= |c.Frames(es)| && k <= |es| && |c.Frames(es[..k])| <= n
    requires k < |es| ==> n < |c.Frames(es[..k + 1])|
    ensures Decode(c, c.Frames(es)[..n]).Ok? <==>
      c.AllReadable(es[..k]) && (k < |es| && |c.Frames(es[..k])| + 4 <= n ==> c.Readable(es[k]))
  {
    hide Decode;
    var base := c.Frames(es[..k]);
    if k < |es| {
      FramesSplit(c, es, k);
      CutAppend(base, c.Frame(es[k]), c.Frames(es), n);
      FramesReadIff(c, es[..k], c.Frame(es[k])[..n - |base|]);
      CutReadIff(c, es[k], n - |base|);
    } else {
      assert es[..|es|] == es;
      assert c.Frames(es)[..n] == base + [];
      FramesReadIff(c, es[..k], []);
      CutReadsNothing(c);
    }
  }

  lemma {:induction false} CutReadsNothing(c: Codec)
    ensures Decode(c, []).Ok?
  {}

  lemma {:induction false} CutReadIff(c: Codec, e: Entry, m: nat)
    requires c.Lawful() && c.Framable(e) && m < |c.Frame(e)|
    ensures Decode(c, c.Frame(e)[..m]).Ok? <==> (m >= 4 ==> c.Readable(e))
  {
    if m > 0 && c.Readable(e) { DecodeCut(c, e, m); }
    else if m >= 4 { OversizedFrame(c, e, c.Frame(e)[..m]); }
  }
}
