/** UTF-8 (RFC 3629 section 3): the encoder, and a decoder that refuses whatever is not well formed. */
module Utf8 {
  import opened Basics

  function EncodeChar(c: char): (b: bytes)
    ensures 1 <= |b| <= 4
    ensures |b| == 1 <==> c as int < 0x80
  {
    var n := c as int;
    if n < 0x80 then [n]
    else if n < 0x800 then [0xC0 + n / 64, 0x80 + n % 64]
    else if n < 0x1_0000 then [0xE0 + n / 4096, 0x80 + n / 64 % 64, 0x80 + n % 64]
    else [0xF0 + n / 262144, 0x80 + n / 4096 % 64, 0x80 + n / 64 % 64, 0x80 + n % 64]
  }

  function Encode(s: string): bytes {
    if s == "" then [] else EncodeChar(s[0]) + Encode(s[1..])
  }

  predicate Continues(b: byte) { 0x80 <= b < 0xC0 }

  predicate IsScalar(n: int) { 0 <= n < 0xD800 || 0xE000 <= n < 0x11_0000 }

  datatype Decoded = Decoded(c: char, size: nat) | Malformed

  /** The first character: shortest form only, no surrogates, nothing missing. */
  function DecodeChar(b: bytes): (d: Decoded)
    requires b != []
    ensures d.Decoded? ==> 1 <= d.size <= |b|
  {
    if b[0] < 0x80 then Decoded(b[0] as char, 1)
    else if 0xC0 <= b[0] < 0xE0 && |b| >= 2 && Continues(b[1]) then
      var n: int := (b[0] as int - 0xC0) * 64 + (b[1] as int - 0x80);
      if n >= 0x80 then Decoded(n as char, 2) else Malformed
    else if 0xE0 <= b[0] < 0xF0 && |b| >= 3 && Continues(b[1]) && Continues(b[2]) then
      var n: int := (b[0] as int - 0xE0) * 4096 + (b[1] as int - 0x80) * 64 + (b[2] as int - 0x80);
      if n >= 0x800 && IsScalar(n) then Decoded(n as char, 3) else Malformed
    else if 0xF0 <= b[0] < 0xF8 && |b| >= 4 && Continues(b[1]) && Continues(b[2]) && Continues(b[3]) then
      var n: int :=
        (b[0] as int - 0xF0) * 262144 + (b[1] as int - 0x80) * 4096 + (b[2] as int - 0x80) * 64 + (b[3] as int - 0x80);
      if n >= 0x1_0000 && IsScalar(n) then Decoded(n as char, 4) else Malformed
    else Malformed
  }

  function Decode(b: bytes): Option<string>
    decreases |b|
  {
    if b == [] then Some("")
    else
      var first := DecodeChar(b);
      if first.Malformed? then None
      else
        var rest := Decode(b[first.size..]);
        if rest.None? then None else Some([first.c] + rest.value)
  }

  lemma {:induction false} DecodeEncodedChar(c: char, rest: bytes)
    ensures DecodeChar(EncodeChar(c) + rest) == Decoded(c, |EncodeChar(c)|)
  {
    var n := c as int;
    assert n / 4096 == n / 64 / 64 && n / 262144 == n / 64 / 64 / 64;
    assert n == n / 64 * 64 + n % 64;
    assert n / 64 == n / 4096 * 64 + n / 64 % 64 && n / 4096 == n / 262144 * 64 + n / 4096 % 64;
  }

  /** Part of a character's bytes is no character. */
  lemma {:induction false} DecodePartialChar(c: char, k: nat)
    requires 0 < k < |EncodeChar(c)|
    ensures DecodeChar(EncodeChar(c)[..k]).Malformed?
  {}

  lemma {:induction false} EncodeConcat(a: string, b: string)
    ensures Encode(a + b) == Encode(a) + Encode(b)
  {
    if a == "" {
      assert a + b == b;
    } else {
      assert (a + b)[1..] == a[1..] + b;
      EncodeConcat(a[1..], b);
    }
  }

  lemma {:induction false} EncodePush(a: string, c: char)
    ensures Encode(a + [c]) == Encode(a) + EncodeChar(c)
  {
    EncodeConcat(a, [c]);
    assert [c][1..] == "";
  }

  /** Text followed by part of a character decodes exactly when the part is empty. */
  lemma {:induction false} DecodeEncoded(s: string, c: char, k: nat)
    requires k < |EncodeChar(c)|
    ensures Decode(Encode(s) + EncodeChar(c)[..k]) == if k == 0 then Some(s) else None
    decreases |s|
  {
    var part := EncodeChar(c)[..k];
    if s == "" {
      assert Encode(s) + part == part;
      if k > 0 { DecodePartialChar(c, k); }
    } else {
      var rest := Encode(s[1..]) + part;
      assert Encode(s) + part == EncodeChar(s[0]) + rest;
      DecodeEncodedChar(s[0], rest);
      assert (EncodeChar(s[0]) + rest)[|EncodeChar(s[0])|..] == rest;
      DecodeEncoded(s[1..], c, k);
      assert [s[0]] + s[1..] == s;
    }
  }

  lemma {:induction false} Sextet(high: nat, low: nat)
    requires low < 64
    ensures (high * 64 + low) / 64 == high && (high * 64 + low) % 64 == low
  {}

  lemma {:induction false} Powers(n: nat)
    ensures n / 4096 == n / 64 / 64 && n / 262144 == n / 64 / 64 / 64
  {}

  /** Whatever is read as a character is that character's own encoding. */
  lemma {:induction false} DecodedIsEncoded(b: bytes)
    requires b != [] && DecodeChar(b).Decoded?
    ensures EncodeChar(DecodeChar(b).c) == b[..DecodeChar(b).size]
  {
    if b[0] >= 0xF0 { DecodedFour(b); }
    else if b[0] >= 0xE0 { DecodedThree(b); }
    else if b[0] >= 0x80 { Sextet(b[0] - 0xC0, b[1] - 0x80); }
  }

  lemma {:induction false} DecodedThree(b: bytes)
    requires b != [] && 0xE0 <= b[0] < 0xF0 && DecodeChar(b).Decoded?
    ensures EncodeChar(DecodeChar(b).c) == b[..DecodeChar(b).size]
  {
    var second: int := (b[0] as int - 0xE0) * 64 + (b[1] - 0x80);
    Sextet(b[0] - 0xE0, b[1] - 0x80);
    Sextet(second, b[2] - 0x80);
    Powers(second * 64 + (b[2] - 0x80));
  }

  lemma {:induction false} DecodedFour(b: bytes)
    requires b != [] && b[0] >= 0xF0 && DecodeChar(b).Decoded?
    ensures EncodeChar(DecodeChar(b).c) == b[..DecodeChar(b).size]
  {
    var second: int := (b[0] as int - 0xF0) * 64 + (b[1] - 0x80);
    var third: int := second * 64 + (b[2] - 0x80);
    Sextet(b[0] - 0xF0, b[1] - 0x80);
    Sextet(second, b[2] - 0x80);
    Sextet(third, b[3] - 0x80);
    Powers(third * 64 + (b[3] - 0x80));
  }

  /** The decoder accepts exactly what the encoder writes, and then returns that text. */
  lemma {:induction false} DecodeIff(b: bytes, s: string)
    ensures Decode(b) == Some(s) <==> Encode(s) == b
    decreases |b|
  {
    hide DecodeChar, EncodeChar;
    if Decode(b) == Some(s) && b != [] {
      DecodedIsEncoded(b);
      var size := DecodeChar(b).size;
      DecodeIff(b[size..], s[1..]);
      assert b == b[..size] + b[size..];
    }
    if Encode(s) == b {
      DecodeEncoded(s, 'a', 0);
      assert Encode(s) + EncodeChar('a')[..0] == Encode(s);
    }
  }

  /** A newline byte occurs in a character's encoding only for the newline itself. */
  lemma {:induction false} NoNewlineInside(c: char, k: nat)
    requires k <= |EncodeChar(c)| && (c != '\n' || k == 0)
    ensures forall i | 0 <= i < k :: EncodeChar(c)[i] != 10
  {}

  /** `q` characters lie wholly before byte `c`. */
  ghost predicate WholeChars(s: string, c: nat, q: nat) {
    && q <= |s| && |Encode(s[..q])| <= c && (q < |s| ==> c < |Encode(s[..q + 1])|)
  }

  lemma {:induction false} EncodeNothing()
    ensures Encode("") == []
  {}

  lemma {:induction false} CutText(s: string, c: nat) returns (q: nat)
    requires c <= |Encode(s)|
    ensures WholeChars(s, c, q) && (c == |Encode(s)| ==> q == |s|)
    ensures q == |s| ==> Encode(s)[..c] == Encode(s[..q])
    ensures q < |s| ==> c - |Encode(s[..q])| < |EncodeChar(s[q])|
    ensures q < |s| ==> Encode(s)[..c] == Encode(s[..q]) + EncodeChar(s[q])[..c - |Encode(s[..q])|]
    decreases |s|
  {
    hide Encode, EncodeChar;
    if c == |Encode(s)| {
      q := |s|;
      assert s[..q] == s && Encode(s)[..c] == Encode(s);
    } else {
      EncodeNothing();
      var init, last := s[..|s| - 1], s[|s| - 1];
      EncodePush(init, last);
      assert s == init + [last];
      if c < |Encode(init)| {
        q := CutText(init, c);
        assert Encode(s)[..c] == Encode(init)[..c];
        assert init[..q] == s[..q] && (q < |init| ==> init[..q + 1] == s[..q + 1]);
        assert q < |init| by { assert init[..|init|] == init; }
      } else {
        q := |s| - 1;
        assert s[..q + 1] == s;
        assert Encode(s)[..c] == Encode(init) + EncodeChar(last)[..c - |Encode(init)|];
      }
    }
  }
}
