/** Base64 as RFC 4648 section 4 defines it, and a decoder that ignores trailing bits. */
module Base64 {
  import opened Basics

  function Symbol(n: nat): (c: char)
    requires n < 64
  {
    if n < 26 then (65 + n) as char
    else if n < 52 then (97 + n - 26) as char
    else if n < 62 then (48 + n - 52) as char
    else if n == 62 then '+' else '/'
  }

  predicate IsSymbol(c: char) {
    'A' <= c <= 'Z' || 'a' <= c <= 'z' || '0' <= c <= '9' || c == '+' || c == '/'
  }

  function Value(c: char): (n: nat)
    requires IsSymbol(c)
    ensures n < 64 && Symbol(n) == c
  {
    if 'A' <= c <= 'Z' then c as int - 65
    else if 'a' <= c <= 'z' then c as int - 97 + 26
    else if '0' <= c <= '9' then c as int - 48 + 52
    else if c == '+' then 62 else 63
  }

  /** The symbols without padding. */
  function Unpadded(b: bytes): string {
    if b == [] then ""
    else if |b| == 1 then [Symbol(b[0] / 4), Symbol(b[0] % 4 * 16)]
    else if |b| == 2 then [Symbol(b[0] / 4), Symbol(b[0] % 4 * 16 + b[1] / 16), Symbol(b[1] % 16 * 4)]
    else [Symbol(b[0] / 4), Symbol(b[0] % 4 * 16 + b[1] / 16), Symbol(b[1] % 16 * 4 + b[2] / 64), Symbol(b[2] % 64)]
         + Unpadded(b[3..])
  }

  function Padding(n: nat): string {
    if n % 3 == 0 then "" else if n % 3 == 1 then "==" else "="
  }

  /** `toString("base64")`. */
  function Encode(b: bytes): string {
    Unpadded(b) + Padding(|b|)
  }

  /** `Buffer.from(text, "base64")` on unpadded symbols. */
  function Decode(text: string): bytes
    requires forall i | 0 <= i < |text| :: IsSymbol(text[i])
  {
    if |text| <= 1 then []
    else
      var p, q := Value(text[0]), Value(text[1]);
      if |text| == 2 then [p * 4 + q / 16]
      else
        var r := Value(text[2]);
        if |text| == 3 then [p * 4 + q / 16, q % 16 * 16 + r / 4]
        else [p * 4 + q / 16, q % 16 * 16 + r / 4, r % 4 * 64 + Value(text[3])] + Decode(text[4..])
  }

  lemma {:induction false} ValueOfSymbol(n: nat)
    requires n < 64
    ensures IsSymbol(Symbol(n)) && Value(Symbol(n)) == n
  {}

  ghost predicate Symbols(text: string) {
    forall i | 0 <= i < |text| :: IsSymbol(text[i])
  }

  lemma {:induction false} UnpaddedSymbols(b: bytes)
    ensures Symbols(Unpadded(b)) && |Unpadded(b)| == (|b| * 4 + 2) / 3 && (b != [] ==> Unpadded(b) != "")
    decreases |b|
  {
    SymbolsAreSymbols();
    if |b| >= 3 { UnpaddedSymbols(b[3..]); }
  }

  lemma {:induction false} SymbolsAreSymbols()
    ensures forall n | 0 <= n < 64 :: IsSymbol(Symbol(n))
  {}

  lemma {:induction false} EncodedLength(b: bytes)
    ensures |Encode(b)| == (|b| + 2) / 3 * 4
  {
    hide Unpadded, Padding;
    UnpaddedSymbols(b);
    PaddedLength(|b| / 3, |b| % 3);
  }

  lemma {:induction false} PaddedLength(groups: nat, left: nat)
    requires left < 3
    ensures var n := 3 * groups + left; (n * 4 + 2) / 3 + |Padding(n)| == (n + 2) / 3 * 4
  {
    var n := 3 * groups + left;
    Third(n, groups, left);
    if left == 0 {
      Third(n * 4 + 2, 4 * groups, 2);
      Third(n + 2, groups, 2);
    } else if left == 1 {
      Third(n * 4 + 2, 4 * groups + 2, 0);
      Third(n + 2, groups + 1, 0);
    } else {
      Third(n * 4 + 2, 4 * groups + 3, 1);
      Third(n + 2, groups + 1, 1);
    }
  }

  lemma {:induction false} Third(n: nat, q: nat, r: nat)
    requires r < 3 && n == 3 * q + r
    ensures n / 3 == q && n % 3 == r
  {}

  /** Splitting up to three bytes into six-bit groups and putting them together again. */
  lemma {:induction false} SextetsRegroup(a: byte, b: byte, c: byte)
    ensures var p, q, r, s := a / 4, a % 4 * 16 + b / 16, b % 16 * 4 + c / 64, c % 64;
      && p < 64 && q < 64 && r < 64 && s < 64
      && p * 4 + q / 16 == a && q % 16 * 16 + r / 4 == b && r % 4 * 64 + s == c
  {}

  /** Every byte string is recovered from its symbols. */
  lemma {:induction false} DecodeUnpadded(b: bytes)
    ensures Symbols(Unpadded(b)) && Decode(Unpadded(b)) == b
    decreases |b|
  {
    hide Symbol, Value, IsSymbol, Decode;
    UnpaddedSymbols(b);
    if |b| < 3 {
      DecodeShort(b);
    } else {
      SextetsRegroup(b[0], b[1], b[2]);
      ValueOfSymbol(b[0] / 4);
      ValueOfSymbol(b[0] % 4 * 16 + b[1] / 16);
      ValueOfSymbol(b[1] % 16 * 4 + b[2] / 64);
      ValueOfSymbol(b[2] % 64);
      DecodeUnpadded(b[3..]);
      DecodeGroup(Unpadded(b), b);
    }
  }

  /** The last group, of at most two bytes. */
  lemma {:induction false} DecodeShort(b: bytes)
    requires |b| < 3 && Symbols(Unpadded(b))
    ensures Decode(Unpadded(b)) == b
  {
    hide Symbol, Value, IsSymbol;
    if b != [] {
      var second: byte := if |b| > 1 then b[1] else 0;
      SextetsRegroup(b[0], second, 0);
      ValueOfSymbol(b[0] / 4);
      ValueOfSymbol(b[0] % 4 * 16 + second / 16);
      ValueOfSymbol(second % 16 * 4);
      assert b == if |b| == 1 then [b[0]] else [b[0], second];
    }
  }

  lemma {:induction false} DecodeGroup(text: string, b: bytes)
    requires Symbols(text) && |text| >= 4 && |b| >= 3
    requires Value(text[0]) == b[0] / 4 && Value(text[1]) == b[0] % 4 * 16 + b[1] / 16
    requires Value(text[2]) == b[1] % 16 * 4 + b[2] / 64 && Value(text[3]) == b[2] % 64
    requires Decode(text[4..]) == b[3..]
    ensures Decode(text) == b
  {
    hide Symbol, Value, IsSymbol;
    SextetsRegroup(b[0], b[1], b[2]);
    assert b == [b[0], b[1], b[2]] + b[3..];
  }

  /** How many equals signs end the text, counting at most two. */
  function EqualsSigns(text: string): nat {
    if text == "" || text[|text| - 1] != '=' then 0
    else if |text| == 1 || text[|text| - 2] != '=' then 1
    else 2
  }

  /** `b64decode` with validation: whole groups of four symbols, padded at the end only. */
  function DecodeStrict(text: string): Option<bytes> {
    var body := text[..|text| - EqualsSigns(text)];
    if |text| % 4 == 0 && forall i | 0 <= i < |body| :: IsSymbol(body[i]) then Some(Decode(body)) else None
  }

  /** At most two equals signs after a symbol are counted exactly. */
  lemma {:induction false} CountsPadding(body: string, padding: string)
    requires padding in {"", "=", "=="} && Symbols(body) && (body == "" ==> padding == "")
    ensures EqualsSigns(body + padding) == |padding|
  {
    hide IsSymbol;
    EqualsIsNoSymbol();
    var text := body + padding;
    if body != "" { assert text[|body| - 1] == body[|body| - 1] != '='; }
  }

  lemma {:induction false} DecodeStrictEncode(b: bytes)
    ensures DecodeStrict(Encode(b)) == Some(b)
  {
    hide Unpadded, Decode, IsSymbol, EqualsSigns, Padding;
    var body, padding := Unpadded(b), Padding(|b|);
    UnpaddedSymbols(b);
    DecodeUnpadded(b);
    EncodedLength(b);
    PaddingIsEquals(|b|);
    if b == [] { NoSymbols(); }
    CountsPadding(body, padding);
    assert (body + padding)[..|body + padding| - |padding|] == body;
  }

  lemma {:induction false} PaddingIsEquals(n: nat)
    ensures Padding(n) in {"", "=", "=="} && (n == 0 ==> Padding(n) == "")
  {}

  lemma {:induction false} NoSymbols()
    ensures Unpadded([]) == ""
  {}

  lemma {:induction false} EqualsIsNoSymbol()
    ensures !IsSymbol('=')
  {}
}

/** The text envelope of the RTC channel: block-cipher output in base64, read back in any accepted spelling. */
module RtcCipher {
  import opened Basics
  import opened Base64

  const MAXIMUM_PLAINTEXT := 65536
  const MAXIMUM_CIPHERTEXT := 90000

  /** The padded block cipher under one fixed secret. */
  datatype Cipher = Cipher(seal: bytes -> bytes, unseal: bytes -> Option<bytes>) {
    ghost predicate Lawful() {
      forall m: bytes :: unseal(seal(m)) == Some(m) && |seal(m)| == |m| / 16 * 16 + 16
    }
  }

  datatype Failure = InvalidMessage

  function Encrypt(cipher: Cipher, m: bytes): Result<string, Failure> {
    if |m| > MAXIMUM_PLAINTEXT then Err(InvalidMessage) else Ok(Encode(cipher.seal(m)))
  }

  function Standard(c: char): char {
    if c == '-' then '+' else if c == '_' then '/' else c
  }

  /** URL-safe symbols replaced by the standard ones. */
  function Translated(text: string): (t: string)
    ensures |t| == |text| && forall i | 0 <= i < |text| :: t[i] == Standard(text[i])
  {
    seq(|text|, i requires 0 <= i < |text| => Standard(text[i]))
  }

  function StripPadding(text: string): string {
    if text != "" && text[|text| - 1] == '=' then StripPadding(text[..|text| - 1]) else text
  }

  /** One or more symbols of either alphabet, then at most two equals signs. */
  predicate WellFormed(text: string) {
    var body := StripPadding(text);
    body != "" && |text| - |body| <= 2 && forall i | 0 <= i < |body| :: IsSymbol(Standard(body[i]))
  }

  /** The bytes of an accepted ciphertext, before the cipher opens them. */
  function Accepted(text: string): Option<bytes> {
    if |text| > MAXIMUM_CIPHERTEXT || !WellFormed(text) then None
    else
      StripTranslated(text);
      var normalized := StripPadding(Translated(text));
      var b := Decode(normalized);
      var canonical := Encode(b);
      if b == [] || |b| % 16 != 0 || StripPadding(canonical) != normalized
         || (text[|text| - 1] == '=' && Translated(text) != canonical) then None
      else Some(b)
  }

  function Decrypt(cipher: Cipher, text: string): Result<bytes, Failure> {
    var b := Accepted(text);
    if b.None? then Err(InvalidMessage)
    else
      var m := cipher.unseal(b.value);
      if m.None? then Err(InvalidMessage) else Ok(m.value)
  }

  lemma {:induction false} StripTranslated(text: string)
    ensures StripPadding(Translated(text)) == Translated(StripPadding(text))
  {
    if text != "" && text[|text| - 1] == '=' {
      assert Translated(text)[..|text| - 1] == Translated(text[..|text| - 1]);
      StripTranslated(text[..|text| - 1]);
    }
  }

  lemma {:induction false} StripSuffix(text: string, padding: string)
    requires text == "" || text[|text| - 1] != '='
    requires forall i | 0 <= i < |padding| :: padding[i] == '='
    ensures StripPadding(text + padding) == text
    decreases |padding|
  {
    if padding == "" {
      assert text + padding == text;
    } else {
      assert (text + padding)[..|text + padding| - 1] == text + padding[..|padding| - 1];
      StripSuffix(text, padding[..|padding| - 1]);
    }
  }

  lemma {:induction false} StripEncoded(b: bytes)
    ensures StripPadding(Encode(b)) == Unpadded(b) && StripPadding(Unpadded(b)) == Unpadded(b)
  {
    UnpaddedSymbols(b);
    if b != [] { assert IsSymbol(Unpadded(b)[|Unpadded(b)| - 1]); }
    StripSuffix(Unpadded(b), Padding(|b|));
  }

  lemma {:induction false} StripKeepsBody(text: string)
    ensures StripPadding(text) <= text
    ensures text == "" || text[|text| - 1] != '=' ==> StripPadding(text) == text
  {
    if text != "" && text[|text| - 1] == '=' { StripKeepsBody(text[..|text| - 1]); }
  }

  /** In either alphabet, padded exactly or not at all. */
  ghost predicate Spells(text: string, b: bytes) {
    Translated(text) == Encode(b) || Translated(text) == Unpadded(b)
  }

  lemma {:induction false} AcceptedSpells(text: string)
    ensures var b := Accepted(text);
      b.Some? ==> Spells(text, b.value) && b.value != [] && |b.value| % 16 == 0 && |text| <= MAXIMUM_CIPHERTEXT
  {
    var b := Accepted(text);
    if b.Some? {
      StripTranslated(text);
      StripEncoded(b.value);
      StripKeepsBody(text);
    }
  }

  lemma {:induction false} SpellingStrips(text: string, b: bytes)
    requires Spells(text, b) && b != []
    ensures WellFormed(text) && StripPadding(Translated(text)) == Unpadded(b)
    ensures text[|text| - 1] == '=' ==> Translated(text) == Encode(b)
  {
    hide Unpadded, Padding;
    StripTranslated(text);
    StripEncoded(b);
    StripKeepsBody(text);
    UnpaddedSymbols(b);
    var body := StripPadding(text);
    assert Translated(body) == Unpadded(b);
    forall i | 0 <= i < |body| ensures IsSymbol(Standard(body[i])) {
      assert Translated(body)[i] == Unpadded(b)[i];
    }
    PaddingLength(|b|);
    assert |text| - |body| <= 2;
    if text[|text| - 1] == '=' {
      assert Translated(text)[|text| - 1] == '=';
      assert IsSymbol(Unpadded(b)[|Unpadded(b)| - 1]);
    }
  }

  lemma {:induction false} PaddingLength(n: nat)
    ensures |Padding(n)| <= 2
  {}

  lemma {:induction false} SpellsAccepted(text: string, b: bytes)
    requires Spells(text, b) && b != [] && |b| % 16 == 0 && |text| <= MAXIMUM_CIPHERTEXT
    ensures Accepted(text) == Some(b)
  {
    hide Spells, WellFormed, StripPadding, Decode, Encode, Translated, Unpadded;
    SpellingStrips(text, b);
    StripTranslated(text);
    StripEncoded(b);
    DecodeUnpadded(b);
  }

  /**
   * Acceptance, exactly: a ciphertext within the length limit yields the bytes `b` if
   * and only if it spells the one canonical encoding of `b`, in either alphabet and
   * with its exact padding or none, and `b` is one or more whole cipher blocks.
   */
  lemma {:induction false} AcceptedIff(text: string, b: bytes)
    ensures Accepted(text) == Some(b) <==>
      Spells(text, b) && b != [] && |b| % 16 == 0 && |text| <= 90000
  {
    AcceptedSpells(text);
    if Spells(text, b) && b != [] && |b| % 16 == 0 && |text| <= MAXIMUM_CIPHERTEXT { SpellsAccepted(text, b); }
  }

  /** No text spells two byte strings. */
  lemma {:induction false} SpellingIsUnique(text: string, a: bytes, b: bytes)
    requires Spells(text, a) && Spells(text, b)
    ensures a == b
  {
    StripEncoded(a);
    StripEncoded(b);
    DecodeUnpadded(a);
    DecodeUnpadded(b);
  }

  /** A ciphertext this side wrote is read back, in every spelling of it. */
  lemma {:induction false} DecryptInverts(cipher: Cipher, m: bytes, text: string)
    requires cipher.Lawful() && |m| <= 65536
    ensures var sent := Encrypt(cipher, m);
      && sent.Ok? && |sent.value| <= 87404 && Decrypt(cipher, sent.value) == Ok(m)
      && (Translated(text) == sent.value || Translated(text) == StripPadding(sent.value) ==> Decrypt(cipher, text) == Ok(m))
  {
    hide Accepted, StripPadding, Translated, Unpadded;
    hide Encode, Spells, IsSymbol;
    var b := cipher.seal(m);
    var sent := Encode(b);
    WholeBlocks(|m|, |b|);
    EncodedLength(b);
    UnpaddedSymbols(b);
    EncodedIsStandard(b);
    StripEncoded(b);
    StripTranslated(sent);
    SpellsWhen(sent, b);
    SpellsAccepted(sent, b);
    if Translated(text) == sent || Translated(text) == StripPadding(sent) {
      TranslatedLength(text);
      SpellsWhen(text, b);
      SpellsAccepted(text, b);
    }
  }

  lemma {:induction false} SpellsWhen(text: string, b: bytes)
    requires Translated(text) == Encode(b) || Translated(text) == Unpadded(b)
    ensures Spells(text, b)
  {}

  /** The sealed length: whole blocks, one more than the message fills. */
  lemma {:induction false} WholeBlocks(plain: nat, sealed: nat)
    requires plain <= MAXIMUM_PLAINTEXT && sealed == plain / 16 * 16 + 16
    ensures 0 < sealed <= 65552 && sealed % 16 == 0 && (sealed + 2) / 3 * 4 <= 87404 && (sealed * 4 + 2) / 3 <= 87404
  {}


  /** Nothing longer is encrypted. */
  lemma {:induction false} EncryptIff(cipher: Cipher, m: bytes)
    ensures Encrypt(cipher, m).Ok? <==> |m| <= 65536
  {}

  lemma {:induction false} TranslatedLength(text: string)
    ensures |Translated(text)| == |text|
  {}

  lemma {:induction false} EncodedIsStandard(b: bytes)
    ensures Translated(Encode(b)) == Encode(b)
  {
    UnpaddedSymbols(b);
    var text := Encode(b);
    forall i | 0 <= i < |text| ensures Standard(text[i]) == text[i] {
      if i < |Unpadded(b)| { assert IsSymbol(Unpadded(b)[i]); }
    }
  }
}
