/**
 * The decoder against the format itself: a segment is whole authentic frames and then
 * nothing, part of a frame, or the first fault.
 */
module RawDecode {
  import opened Basics
  import opened RawFrames

  /** The payload is nonce, tag and ciphertext, opens under the key, and its text parses as `e`. */
  predicate Opens(c: Codec, payload: bytes, e: Entry) {
    28 <= |payload| <= 16777216 && Plain(c, payload).Some? && c.parse(Plain(c, payload).value) == Some(e)
  }

  function Plain(c: Codec, payload: bytes): Option<bytes>
    requires |payload| >= 28
  {
    c.open(payload[..12], Sealed(payload[12..28], payload[28..]))
  }

  /** A payload behind its four-byte length. */
  function Prefixed(payload: bytes): bytes
    requires |payload| < 0x1_0000_0000
  {
    WriteU32(|payload|) + payload
  }

  ghost predicate AllOpen(c: Codec, payloads: seq<bytes>, es: seq<Entry>) {
    |payloads| == |es| && forall i | 0 <= i < |es| :: Opens(c, payloads[i], es[i])
  }

  function Laid(payloads: seq<bytes>): bytes
    requires forall i | 0 <= i < |payloads| :: |payloads[i]| < 0x1_0000_0000
  {
    if payloads == [] then [] else Prefixed(payloads[0]) + Laid(payloads[1..])
  }

  /** Less than a frame: not even a length, or a good length without its whole payload. */
  predicate Partial(rest: bytes) {
    0 < |rest| && (|rest| < 4 || (28 <= ReadU32(rest) <= 16777216 && |rest| < 4 + ReadU32(rest)))
  }

  /** The fault at the start of what is left. */
  predicate Fault(c: Codec, rest: bytes, error: DecodeError) {
    |rest| >= 4 && match error
      case InvalidFrame => ReadU32(rest) < 28 || ReadU32(rest) > 16777216
      case Unauthentic => Complete(rest) && Plain(c, PayloadOf(rest)) == None
      case Unparsable => Complete(rest) && Plain(c, PayloadOf(rest)) != None && c.parse(Plain(c, PayloadOf(rest)).value) == None
  }

  predicate Complete(rest: bytes) {
    |rest| >= 4 && 28 <= ReadU32(rest) <= 16777216 && |rest| >= 4 + ReadU32(rest)
  }

  function PayloadOf(rest: bytes): (payload: bytes)
    requires Complete(rest)
    ensures |payload| == ReadU32(rest)
  {
    rest[4..4 + ReadU32(rest)]
  }

  ghost predicate IsSegment(c: Codec, b: bytes, payloads: seq<bytes>, es: seq<Entry>, rest: bytes) {
    AllOpen(c, payloads, es) && b == Laid(payloads) + rest
  }

  lemma {:induction false} SplitU32(b: bytes)
    requires |b| >= 4
    ensures ReadU32(b) < 0x1_0000_0000 && WriteU32(ReadU32(b)) == b[..4]
  {
    var high, middle := (b[0] as int) * 256 + b[1], ((b[0] as int) * 256 + b[1]) * 256 + b[2];
    LastByte(middle, b[3]);
    LastByte(high, b[2]);
    LastByte(b[0], b[1]);
  }

  lemma {:induction false} LastByte(high: nat, low: byte)
    ensures (high * 256 + low) / 256 == high && (high * 256 + low) % 256 == low
  {}

  /** One authentic frame in front of `rest` is read as its entry. */
  lemma {:induction false} ReadOne(c: Codec, payload: bytes, e: Entry, rest: bytes)
    requires Opens(c, payload, e)
    ensures Decode(c, Prefixed(payload) + rest) == Prepend(e, Decode(c, rest))
  {
    var b := Prefixed(payload) + rest;
    assert b[..4] == WriteU32(|payload|);
    ReadWriteU32(|payload|, b);
    assert b[4..4 + |payload|] == payload && b[4 + |payload|..] == rest;
  }

  lemma {:induction false} ReadAll(c: Codec, payloads: seq<bytes>, es: seq<Entry>, rest: bytes)
    requires AllOpen(c, payloads, es)
    ensures Decode(c, Laid(payloads) + rest) == PrependAll(es, Decode(c, rest))
    decreases |es|
  {
    hide Decode;
    if es == [] {
      assert Laid(payloads) + rest == rest;
      PrependNothing(Decode(c, rest));
    } else {
      Regroup(Prefixed(payloads[0]), Laid(payloads[1..]), rest);
      ReadOne(c, payloads[0], es[0], Laid(payloads[1..]) + rest);
      ReadAll(c, payloads[1..], es[1..], rest);
      PrependStep(es[1..], es[0], Decode(c, rest));
      assert [es[0]] + es[1..] == es;
    }
  }

  /** What the decoder does with what is left after the last good frame. */
  lemma {:induction false} ReadRest(c: Codec, rest: bytes)
    ensures rest == [] ==> Decode(c, rest) == Ok(Decoded([], false))
    ensures Partial(rest) ==> Decode(c, rest) == Ok(Decoded([], true))
    ensures forall error :: Fault(c, rest, error) ==> Decode(c, rest) == Err(error)
  {}

  /** Every segment is good frames and a rest that is empty, partial or faulty. */
  lemma {:induction false} SegmentOf(c: Codec, b: bytes) returns (payloads: seq<bytes>, es: seq<Entry>, rest: bytes)
    ensures IsSegment(c, b, payloads, es, rest)
    ensures rest == [] || Partial(rest) || exists error :: Fault(c, rest, error)
    decreases |b|
  {
    if Complete(b) && Plain(c, PayloadOf(b)) != None && c.parse(Plain(c, PayloadOf(b)).value) != None {
      var payload := PayloadOf(b);
      var e := c.parse(Plain(c, payload).value).value;
      payloads, es, rest := SegmentOf(c, b[4 + |payload|..]);
      ConsSegment(c, b, payload, e, payloads, es, rest);
      payloads, es := [payload] + payloads, [e] + es;
    } else {
      payloads, es, rest := [], [], b;
      Otherwise(c, b);
    }
  }

  lemma {:induction false} Otherwise(c: Codec, b: bytes)
    requires !(Complete(b) && Plain(c, PayloadOf(b)) != None && c.parse(Plain(c, PayloadOf(b)).value) != None)
    ensures b == [] || Partial(b) || exists error :: Fault(c, b, error)
  {
    if |b| >= 4 && !Partial(b) {
      assert Fault(c, b, InvalidFrame) || Fault(c, b, Unauthentic) || Fault(c, b, Unparsable);
    }
  }

  lemma {:induction false} ConsSegment(c: Codec, b: bytes, payload: bytes, e: Entry, payloads: seq<bytes>, es: seq<Entry>, rest: bytes)
    requires Complete(b) && payload == PayloadOf(b) && Opens(c, payload, e)
    requires IsSegment(c, b[4 + |payload|..], payloads, es, rest)
    ensures IsSegment(c, b, [payload] + payloads, [e] + es, rest)
  {
    SplitU32(b);
    assert ([payload] + payloads)[1..] == payloads;
    assert b == b[..4] + payload + b[4 + |payload|..];
    Regroup(Prefixed(payload), Laid(payloads), rest);
  }

  ghost predicate IsWhole(c: Codec, b: bytes, es: seq<Entry>) {
    exists payloads :: IsSegment(c, b, payloads, es, [])
  }

  ghost predicate IsCut(c: Codec, b: bytes, es: seq<Entry>) {
    exists payloads, rest :: IsSegment(c, b, payloads, es, rest) && Partial(rest)
  }

  ghost predicate IsFaulty(c: Codec, b: bytes, error: DecodeError) {
    exists payloads, es, rest :: IsSegment(c, b, payloads, es, rest) && Fault(c, rest, error)
  }

  /**
   * The decoder returns records without an incomplete tail exactly on whole authentic
   * frames, with one exactly when part of a frame follows them, and each error exactly
   * when that fault is the first thing after them.
   */
  lemma {:induction false} DecodeIff(c: Codec, b: bytes, es: seq<Entry>, error: DecodeError)
    ensures Decode(c, b) == Ok(Decoded(es, false)) <==> IsWhole(c, b, es)
    ensures Decode(c, b) == Ok(Decoded(es, true)) <==> IsCut(c, b, es)
    ensures Decode(c, b) == Err(error) <==> IsFaulty(c, b, error)
  {
    hide Decode, Partial, Fault, Opens;
    var payloads, es', rest := SegmentOf(c, b);
    SegmentDecodes(c, b, payloads, es', rest);
    if IsWhole(c, b, es) {
      var whole :| IsSegment(c, b, whole, es, []);
      SegmentDecodes(c, b, whole, es, []);
    }
    if IsCut(c, b, es) {
      var whole, part :| IsSegment(c, b, whole, es, part) && Partial(part);
      SegmentDecodes(c, b, whole, es, part);
    }
    if IsFaulty(c, b, error) {
      var whole, before, left :| IsSegment(c, b, whole, before, left) && Fault(c, left, error);
      SegmentDecodes(c, b, whole, before, left);
    }
    assert es' + [] == es';
  }

  lemma {:induction false} SegmentDecodes(c: Codec, b: bytes, payloads: seq<bytes>, es: seq<Entry>, rest: bytes)
    requires IsSegment(c, b, payloads, es, rest)
    ensures Decode(c, b) == PrependAll(es, Decode(c, rest))
    ensures rest == [] ==> Decode(c, b) == Ok(Decoded(es, false))
    ensures Partial(rest) ==> Decode(c, b) == Ok(Decoded(es, true))
    ensures forall error :: Fault(c, rest, error) ==> Decode(c, b) == Err(error)
  {
    hide Decode, Partial, Fault, Opens;
    ReadAll(c, payloads, es, rest);
    ReadRest(c, rest);
    assert es + [] == es;
  }
}
