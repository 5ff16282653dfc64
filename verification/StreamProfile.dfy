/**
 * The stream-profile request body: a scanner for a flat JSON map of strings, over
 * UTF-16 code units, against a grammar that prints every spelling of such a map.
 */
module StreamProfile {
  import opened Basics

  type unit = x: int | 0 <= x < 0x1_0000

  type Text = seq<unit>

  const QUOTE: unit := 34
  const COMMA: unit := 44
  const COLON: unit := 58
  const BACKSLASH: unit := 92
  const LETTER_U: unit := 117
  const OPEN: unit := 123
  const CLOSE: unit := 125

  const MAXIMUM_SIZE := 16384

  function Units(text: string): Text {
    seq(|text|, i requires 0 <= i < |text| => if text[i] as int < 0x1_0000 then text[i] as int as unit else 0)
  }

  datatype Profile = Native | Compatible {
    function Name(): Text { if Native? then Units("native") else Units("compatible") }
  }

  datatype Failure = InvalidStreamProfile

  // ------------------------------------------------------------------- scanning

  /** `\s`, which is also what `trim` removes. */
  predicate IsSpace(u: unit) {
    || 9 <= u <= 13 || u in {32, 0xa0, 0x1680} || 0x2000 <= u <= 0x200a
    || u in {0x2028, 0x2029, 0x202f, 0x205f, 0x3000, 0xfeff}
  }

  /** The white space and line terminators of ECMA-262, sections 12.2 and 12.3. */
  const WHITE: set<int> :=
    {0x9, 0xa, 0xb, 0xc, 0xd, 0x20, 0xa0, 0x1680, 0x2000, 0x2001, 0x2002, 0x2003, 0x2004, 0x2005, 0x2006, 0x2007, 0x2008,
     0x2009, 0x200a, 0x2028, 0x2029, 0x202f, 0x205f, 0x3000, 0xfeff}

  lemma {:induction false} SpacesAre(u: unit)
    ensures IsSpace(u) <==> u in WHITE
  {}

  function SkipSpace(s: Text): (r: Text)
    ensures |r| <= |s|
  {
    if s != [] && IsSpace(s[0]) then SkipSpace(s[1..]) else s
  }

  function TrimEnd(s: Text): Text {
    if s != [] && IsSpace(s[|s| - 1]) then TrimEnd(s[..|s| - 1]) else s
  }

  function Trim(s: Text): Text { TrimEnd(SkipSpace(s)) }

  /** The character a two-character escape stands for. */
  function Unescaped(u: unit): Option<unit> {
    if u in {QUOTE, BACKSLASH, 47} then Some(u)
    else if u == 98 then Some(8)
    else if u == 102 then Some(12)
    else if u == 110 then Some(10)
    else if u == 114 then Some(13)
    else if u == 116 then Some(9)
    else None
  }

  function HexDigit(u: unit): (d: Option<unit>)
    ensures d.Some? ==> d.value < 16
  {
    if 48 <= u <= 57 then Some(u - 48)
    else if 65 <= u <= 70 then Some(u - 55)
    else if 97 <= u <= 102 then Some(u - 87)
    else None
  }

  predicate IsHex(digits: Text) {
    |digits| == 4 && forall i | 0 <= i < 4 :: HexDigit(digits[i]).Some?
  }

  function HexValue(digits: Text): unit
    requires IsHex(digits)
  {
    ((HexDigit(digits[0]).value * 16 + HexDigit(digits[1]).value) * 16 + HexDigit(digits[2]).value) * 16 + HexDigit(digits[3]).value
  }

  datatype Scan<V> = Found(value: V, rest: Text) | Missing

  /** One character of a string literal, plain or escaped. */
  function ScanPiece(s: Text): (r: Scan<unit>)
    ensures r.Found? ==> |r.rest| < |s|
  {
    if s == [] || s[0] == QUOTE || s[0] < 32 then Missing
    else if s[0] != BACKSLASH then Found(s[0], s[1..])
    else if |s| >= 2 && Unescaped(s[1]).Some? then Found(Unescaped(s[1]).value, s[2..])
    else if |s| >= 6 && s[1] == LETTER_U && IsHex(s[2..6]) then Found(HexValue(s[2..6]), s[6..])
    else Missing
  }

  /** The rest of a string literal and its decoded value. */
  function ScanChars(s: Text): (r: Scan<Text>)
    ensures r.Found? ==> |r.rest| < |s|
    decreases |s|
  {
    if s != [] && s[0] == QUOTE then Found([], s[1..])
    else
      var piece := ScanPiece(s);
      if piece.Missing? then Missing
      else
        var more := ScanChars(piece.rest);
        if more.Missing? then Missing else Found([piece.value] + more.value, more.rest)
  }

  function ScanString(s: Text): (r: Scan<Text>)
    ensures r.Found? ==> |r.rest| < |s|
  {
    if s != [] && s[0] == QUOTE then ScanChars(s[1..]) else Missing
  }

  /** One member with the space around its parts. */
  function ScanItem(s: Text): (r: Scan<(Text, Text)>)
    ensures r.Found? ==> |r.rest| < |s|
  {
    var key := ScanString(SkipSpace(s));
    if key.Missing? then Missing
    else
      var colon := SkipSpace(key.rest);
      if colon == [] || colon[0] != COLON then Missing
      else
        var value := ScanString(SkipSpace(colon[1..]));
        if value.Missing? then Missing else Found((key.value, value.value), SkipSpace(value.rest))
  }

  function ScanItems(s: Text, fields: map<Text, Text>): Result<map<Text, Text>, Failure>
    decreases |s|
  {
    var item := ScanItem(s);
    if item.Missing? || item.value.0 in fields then Err(InvalidStreamProfile)
    else
      var fields' := fields[item.value.0 := item.value.1];
      if item.rest == [] then Ok(fields')
      else if item.rest[0] != COMMA || |item.rest| == 1 then Err(InvalidStreamProfile)
      else ScanItems(item.rest[1..], fields')
  }

  /** The loop of the scanner, which moves an offset through the body. */
  method ScanFields(body: Text) returns (r: Result<map<Text, Text>, Failure>)
    ensures r == ScanItems(body, map[])
  {
    hide ScanItem;
    var fields: map<Text, Text> := map[];
    var offset := 0;
    assert body[offset..] == body;
    while true
      invariant 0 <= offset <= |body| && ScanItems(body, map[]) == ScanItems(body[offset..], fields)
      decreases |body| - offset
    {
      var match' := ScanItem(body[offset..]);
      if match'.Missing? { return Err(InvalidStreamProfile); }
      var (key, value) := match'.value;
      if key in fields { return Err(InvalidStreamProfile); }
      fields := fields[key := value];
      ItemRestIsSuffix(body[offset..]);
      assert body[offset..][|body| - offset - |match'.rest|..] == body[|body| - |match'.rest|..];
      offset := |body| - |match'.rest|;
      if offset == |body| { return Ok(fields); }
      if body[offset] != COMMA || offset + 1 == |body| { return Err(InvalidStreamProfile); }
      assert body[offset..][1..] == body[offset + 1..];
      offset := offset + 1;
    }
  }

  /** `readStreamProfile` after the body is collected; no profile means the default one. */
  function ReadStreamProfile(size: nat, text: Text): Result<Option<Profile>, Failure> {
    if size > MAXIMUM_SIZE then Err(InvalidStreamProfile)
    else if size == 0 then Ok(None)
    else
      var trimmed := Trim(text);
      if trimmed == [] || trimmed[0] != OPEN || trimmed[|trimmed| - 1] != CLOSE then Err(InvalidStreamProfile)
      else
        var body := trimmed[1..|trimmed| - 1];
        if Trim(body) == [] then Ok(None)
        else
          var fields := ScanItems(body, map[]);
          if fields.Err? || |fields.value| != 1 || Units("profile") !in fields.value then Err(InvalidStreamProfile)
          else if fields.value[Units("profile")] == Native.Name() then Ok(Some(Native))
          else if fields.value[Units("profile")] == Compatible.Name() then Ok(Some(Compatible))
          else Err(InvalidStreamProfile)
  }

  // -------------------------------------------------------------------- grammar

  /** One character of a literal and how it is spelled (RFC 8259 section 7). */
  datatype Piece = Plain(u: unit) | Short(letter: unit) | Hex(digits: Text) {
    predicate Valid() {
      match this
      case Plain(u) => u >= 32 && u != QUOTE && u != BACKSLASH
      case Short(letter) => Unescaped(letter).Some?
      case Hex(digits) => IsHex(digits)
    }

    function Print(): Text {
      match this
      case Plain(u) => [u]
      case Short(letter) => [BACKSLASH, letter]
      case Hex(digits) => [BACKSLASH, LETTER_U] + digits
    }

    function Meaning(): unit
      requires Valid()
    {
      match this
      case Plain(u) => u
      case Short(letter) => Unescaped(letter).value
      case Hex(digits) => HexValue(digits)
    }
  }

  /** The eight short escapes of RFC 8259 section 7: the letter after the backslash, and its meaning. */
  const ESCAPES: map<char, unit> :=
    map['\"' := 0x22, '\\' := 0x5c, '/' := 0x2f, 'b' := 0x8, 'f' := 0xc, 'n' := 0xa, 'r' := 0xd, 't' := 0x9]

  const LOWER: string := "0123456789abcdef"
  const UPPER: string := "0123456789ABCDEF"

  /** `u` is the digit of value `n`, in either letter case. */
  predicate IsDigitOf(u: unit, n: int) {
    0 <= n < 16 && (u == LOWER[n] as int || u == UPPER[n] as int)
  }

  lemma {:induction false} ShortMeans(letter: unit)
    ensures Unescaped(letter).Some? <==> exists c :: c in ESCAPES && c as int == letter
    ensures forall c | c in ESCAPES && c as int == letter :: Unescaped(letter) == Some(ESCAPES[c])
  {
    if Unescaped(letter).Some? { assert letter as char in ESCAPES; }
  }

  lemma {:induction false} DigitMeans(u: unit, n: int)
    ensures IsDigitOf(u, n) <==> HexDigit(u).Some? && HexDigit(u).value == n
  {
    if HexDigit(u).Some? {
      assert u == LOWER[HexDigit(u).value] as int || u == UPPER[HexDigit(u).value] as int;
    }
  }

  lemma {:induction false} DivideTwice(u: int)
    ensures u / 16 / 16 == u / 256 && u / 16 / 16 / 16 == u / 4096
  {}

  lemma {:induction false} Append16(high: int, low: int, u: int)
    requires 0 <= low < 16
    ensures high * 16 + low == u <==> high == u / 16 && low == u % 16
  {}

  /** Four hexadecimal digits mean exactly the unit whose digits, by division, they are. */
  lemma {:induction false} HexMeans(digits: Text, u: unit)
    requires |digits| == 4
    ensures IsHex(digits) && HexValue(digits) == u <==>
      IsDigitOf(digits[0], u / 4096) && IsDigitOf(digits[1], u / 256 % 16)
      && IsDigitOf(digits[2], u / 16 % 16) && IsDigitOf(digits[3], u % 16)
  {
    hide HexDigit, IsDigitOf;
    DigitMeans(digits[0], u / 4096);
    DigitMeans(digits[1], u / 256 % 16);
    DigitMeans(digits[2], u / 16 % 16);
    DigitMeans(digits[3], u % 16);
    if IsHex(digits) {
      var a, b, c, d := HexDigit(digits[0]).value, HexDigit(digits[1]).value, HexDigit(digits[2]).value, HexDigit(digits[3]).value;
      Append16((a * 16 + b) * 16 + c, d, u);
      Append16(a * 16 + b, c, u / 16);
      Append16(a, b, u / 16 / 16);
      DivideTwice(u);
    }
  }

  type Literal = seq<Piece>

  predicate ValidLiteral(l: Literal) { forall i | 0 <= i < |l| :: l[i].Valid() }

  /** The characters of a literal and its closing quote. */
  function PrintRest(l: Literal): Text {
    if l == [] then [QUOTE] else l[0].Print() + PrintRest(l[1..])
  }

  function Meaning(l: Literal): Text
    requires ValidLiteral(l)
  {
    if l == [] then [] else [l[0].Meaning()] + Meaning(l[1..])
  }

  predicate Space(s: Text) { forall i | 0 <= i < |s| :: IsSpace(s[i]) }

  datatype Member = Member(before: Text, key: Literal, afterKey: Text, beforeValue: Text, value: Literal, after: Text) {
    predicate Valid() {
      ValidLiteral(key) && ValidLiteral(value) && Space(before) && Space(afterKey) && Space(beforeValue) && Space(after)
    }

    /** The member's text followed by `tail`. */
    function Print(tail: Text): Text {
      before + ([QUOTE] + (PrintRest(key) + (afterKey + ([COLON] + (beforeValue + ([QUOTE] + (PrintRest(value) + (after + tail))))))))
    }
  }

  predicate ValidMembers(ms: seq<Member>) { forall i | 0 <= i < |ms| :: ms[i].Valid() }

  /** Members separated by commas. */
  function PrintMembers(ms: seq<Member>): Text {
    if ms == [] then []
    else if |ms| == 1 then ms[0].Print([])
    else ms[0].Print([COMMA] + PrintMembers(ms[1..]))
  }

  /** What the members say, or nothing when two of them spell the same key. */
  function Collect(ms: seq<Member>, fields: map<Text, Text>): Option<map<Text, Text>>
    requires ValidMembers(ms)
  {
    if ms == [] then Some(fields)
    else if Meaning(ms[0].key) in fields then None
    else Collect(ms[1..], fields[Meaning(ms[0].key) := Meaning(ms[0].value)])
  }

  // ------------------------------------------------------ printed text is scanned

  lemma {:induction false} SkipPrinted(space: Text, tail: Text)
    requires Space(space) && (tail == [] || !IsSpace(tail[0]))
    ensures SkipSpace(space + tail) == tail
    decreases |space|
  {
    if space == [] {
      assert space + tail == tail;
    } else {
      assert (space + tail)[1..] == space[1..] + tail;
      SkipPrinted(space[1..], tail);
    }
  }

  lemma {:induction false} ScanPrintedPiece(p: Piece, tail: Text)
    requires p.Valid()
    ensures ScanPiece(p.Print() + tail) == Found(p.Meaning(), tail) && (p.Print() + tail)[0] != QUOTE
  {
    var s := p.Print() + tail;
    match p {
      case Plain(u) => assert s[1..] == tail;
      case Short(letter) => assert s[2..] == tail;
      case Hex(digits) => assert s[2..6] == digits && s[6..] == tail;
    }
  }

  lemma {:induction false} ScanPrintedLiteral(l: Literal, tail: Text)
    requires ValidLiteral(l)
    ensures ScanChars(PrintRest(l) + tail) == Found(Meaning(l), tail)
    decreases |l|
  {
    if l == [] {
      assert (PrintRest(l) + tail)[1..] == tail;
    } else {
      assert PrintRest(l) + tail == l[0].Print() + (PrintRest(l[1..]) + tail);
      ScanPrintedPiece(l[0], PrintRest(l[1..]) + tail);
      ScanPrintedLiteral(l[1..], tail);
    }
  }

  lemma {:induction false} ScanPrintedString(l: Literal, tail: Text)
    requires ValidLiteral(l)
    ensures ScanString([QUOTE] + (PrintRest(l) + tail)) == Found(Meaning(l), tail)
  {
    ScanPrintedLiteral(l, tail);
    assert ([QUOTE] + (PrintRest(l) + tail))[1..] == PrintRest(l) + tail;
  }

  lemma {:induction false} ScanPrintedMember(m: Member, tail: Text)
    requires m.Valid() && (tail == [] || !IsSpace(tail[0]))
    ensures ScanItem(m.Print(tail)) == Found((Meaning(m.key), Meaning(m.value)), tail)
  {
    hide ScanChars, ScanString, PrintRest, SkipSpace;
    var t1 := m.after + tail;
    var t2 := [QUOTE] + (PrintRest(m.value) + t1);
    var t3 := [COLON] + (m.beforeValue + t2);
    var t4 := [QUOTE] + (PrintRest(m.key) + (m.afterKey + t3));
    SkipPrinted(m.before, t4);
    ScanPrintedString(m.key, m.afterKey + t3);
    SkipPrinted(m.afterKey, t3);
    assert t3[1..] == m.beforeValue + t2;
    SkipPrinted(m.beforeValue, t2);
    ScanPrintedString(m.value, t1);
    SkipPrinted(m.after, tail);
  }

  lemma {:induction false} ScanPrintedMembers(ms: seq<Member>, fields: map<Text, Text>)
    requires ms != [] && ValidMembers(ms)
    ensures ScanItems(PrintMembers(ms), fields) ==
      var all := Collect(ms, fields); if all.None? then Err(InvalidStreamProfile) else Ok(all.value)
    decreases |ms|
  {
    hide ScanItem;
    if |ms| == 1 {
      ScanPrintedMember(ms[0], []);
    } else {
      var tail := [COMMA] + PrintMembers(ms[1..]);
      ScanPrintedMember(ms[0], tail);
      MembersNonempty(ms[1..]);
      assert tail[1..] == PrintMembers(ms[1..]);
      if Meaning(ms[0].key) !in fields {
        ScanPrintedMembers(ms[1..], fields[Meaning(ms[0].key) := Meaning(ms[0].value)]);
      }
    }
  }

  lemma {:induction false} MembersNonempty(ms: seq<Member>)
    requires ms != []
    ensures PrintMembers(ms) != []
  {}

  // ------------------------------------------------------- scanned text is printed

  lemma {:induction false} SpaceSkipped(s: Text) returns (space: Text)
    ensures Space(space) && s == space + SkipSpace(s) && (SkipSpace(s) == [] || !IsSpace(SkipSpace(s)[0]))
    decreases |s|
  {
    if s != [] && IsSpace(s[0]) {
      space := SpaceSkipped(s[1..]);
      space := [s[0]] + space;
    } else {
      space := [];
    }
  }

  lemma {:induction false} PieceScanned(s: Text) returns (p: Piece)
    requires ScanPiece(s).Found?
    ensures p.Valid() && s == p.Print() + ScanPiece(s).rest && p.Meaning() == ScanPiece(s).value
  {
    if s[0] != BACKSLASH { p := Plain(s[0]); }
    else if Unescaped(s[1]).Some? { p := Short(s[1]); }
    else { p := Hex(s[2..6]); }
  }

  lemma {:induction false} LiteralScanned(s: Text) returns (l: Literal)
    requires ScanChars(s).Found?
    ensures ValidLiteral(l) && s == PrintRest(l) + ScanChars(s).rest && Meaning(l) == ScanChars(s).value
    decreases |s|
  {
    if s != [] && s[0] == QUOTE {
      l := [];
    } else {
      var p := PieceScanned(s);
      var rest := ScanPiece(s).rest;
      var more := LiteralScanned(rest);
      l := [p] + more;
      assert l[1..] == more;
      assert s == p.Print() + (PrintRest(more) + ScanChars(rest).rest);
    }
  }

  lemma {:induction false} StringScanned(s: Text) returns (l: Literal)
    requires ScanString(s).Found?
    ensures ValidLiteral(l) && s == [QUOTE] + (PrintRest(l) + ScanString(s).rest) && Meaning(l) == ScanString(s).value
  {
    l := LiteralScanned(s[1..]);
  }

  lemma {:induction false} MemberScanned(s: Text) returns (m: Member)
    requires ScanItem(s).Found?
    ensures m.Valid() && s == m.Print(ScanItem(s).rest) && (Meaning(m.key), Meaning(m.value)) == ScanItem(s).value
    ensures var rest := ScanItem(s).rest; rest == [] || !IsSpace(rest[0])
  {
    hide ScanString, SkipSpace, PrintRest;
    var before := SpaceSkipped(s);
    var key := StringScanned(SkipSpace(s));
    var s1 := ScanString(SkipSpace(s)).rest;
    var afterKey := SpaceSkipped(s1);
    var s2 := SkipSpace(s1)[1..];
    assert SkipSpace(s1) == [COLON] + s2;
    var beforeValue := SpaceSkipped(s2);
    var value := StringScanned(SkipSpace(s2));
    var s3 := ScanString(SkipSpace(s2)).rest;
    var after := SpaceSkipped(s3);
    m := Member(before, key, afterKey, beforeValue, value, after);
  }

  /** What is left after a member is the end of the text. */
  lemma {:induction false} ItemRestIsSuffix(s: Text)
    requires ScanItem(s).Found?
    ensures var rest := ScanItem(s).rest; |rest| <= |s| && s[|s| - |rest|..] == rest
  {
    var m := MemberScanned(s);
    PrintEnds(m, ScanItem(s).rest);
  }

  lemma {:induction false} PrintEnds(m: Member, tail: Text)
    ensures |tail| <= |m.Print(tail)| && m.Print(tail)[|m.Print(tail)| - |tail|..] == tail
  {
    hide PrintRest;
  }

  lemma {:induction false} MembersScanned(s: Text, fields: map<Text, Text>) returns (ms: seq<Member>)
    requires ScanItems(s, fields).Ok?
    ensures ms != [] && ValidMembers(ms) && s == PrintMembers(ms) && Collect(ms, fields) == Some(ScanItems(s, fields).value)
    decreases |s|
  {
    hide ScanItem;
    var m := MemberScanned(s);
    var rest := ScanItem(s).rest;
    if rest == [] {
      ms := [m];
    } else {
      var fields' := fields[Meaning(m.key) := Meaning(m.value)];
      var more := MembersScanned(rest[1..], fields');
      ms := [m] + more;
      assert ms[1..] == more && rest == [COMMA] + PrintMembers(more);
    }
  }

  // ---------------------------------------------------------------- main results

  /** A whole request body: an object of string members with space anywhere between its parts. */
  datatype Document = Document(lead: Text, members: seq<Member>, gap: Text, trail: Text) {
    /** Only an object without members has a gap of its own. */
    predicate Valid() {
      Space(lead) && Space(gap) && Space(trail) && ValidMembers(members) && (members != [] ==> gap == [])
    }

    function Print(): Text {
      lead + [OPEN] + (if members == [] then gap else PrintMembers(members)) + [CLOSE] + trail
    }

    /** The object has one member, whose key means `profile` and whose value means `value`. */
    predicate Says(value: Text)
      requires Valid()
    {
      |members| == 1 && Meaning(members[0].key) == Units("profile") && Meaning(members[0].value) == value
    }

    /** What the object selects: nothing when empty, or the value of its single `profile`. */
    function Selects(): Result<Option<Profile>, Failure>
      requires Valid()
    {
      if members == [] then Ok(None)
      else if |members| != 1 || Meaning(members[0].key) != Units("profile") then Err(InvalidStreamProfile)
      else if Meaning(members[0].value) == Native.Name() then Ok(Some(Native))
      else if Meaning(members[0].value) == Compatible.Name() then Ok(Some(Compatible))
      else Err(InvalidStreamProfile)
    }
  }

  lemma {:induction false} TrimEndPrinted(s: Text, space: Text)
    requires Space(space) && (s == [] || !IsSpace(s[|s| - 1]))
    ensures TrimEnd(s + space) == s
    decreases |space|
  {
    if space == [] {
      assert s + space == s;
    } else {
      assert (s + space)[..|s + space| - 1] == s + space[..|space| - 1];
      TrimEndPrinted(s, space[..|space| - 1]);
    }
  }

  lemma {:induction false} TrimPrinted(lead: Text, s: Text, trail: Text)
    requires Space(lead) && Space(trail) && s != [] && !IsSpace(s[0]) && !IsSpace(s[|s| - 1])
    ensures Trim(lead + s + trail) == s
  {
    assert lead + s + trail == lead + (s + trail);
    SkipPrinted(lead, s + trail);
    TrimEndPrinted(s, trail);
  }

  lemma {:induction false} TrimScanned(text: Text) returns (lead: Text, trail: Text)
    ensures Space(lead) && Space(trail) && text == lead + Trim(text) + trail
  {
    lead := SpaceSkipped(text);
    trail := EndTrimmed(SkipSpace(text));
    assert lead + (Trim(text) + trail) == lead + Trim(text) + trail;
  }

  lemma {:induction false} EndTrimmed(s: Text) returns (trail: Text)
    ensures Space(trail) && s == TrimEnd(s) + trail
    decreases |s|
  {
    if s != [] && IsSpace(s[|s| - 1]) {
      trail := EndTrimmed(s[..|s| - 1]);
      trail := trail + [s[|s| - 1]];
    } else {
      trail := [];
    }
  }

  lemma {:induction false} BlankIff(s: Text)
    ensures Trim(s) == [] <==> Space(s)
  {
    if Space(s) {
      assert s + [] == s;
      SkipPrinted(s, []);
    } else if Trim(s) == [] {
      var lead, trail := TrimScanned(s);
      assert false;
    }
  }

  lemma {:induction false} CollectCounts(ms: seq<Member>, fields: map<Text, Text>)
    requires ValidMembers(ms) && Collect(ms, fields).Some?
    ensures |Collect(ms, fields).value| == |fields| + |ms|
    ensures forall k | k in fields :: k in Collect(ms, fields).value && Collect(ms, fields).value[k] == fields[k]
    decreases |ms|
  {
    if ms != [] {
      var key, value := Meaning(ms[0].key), Meaning(ms[0].value);
      assert fields[key := value].Keys == fields.Keys + {key};
      assert |fields[key := value]| == |fields| + 1;
      CollectCounts(ms[1..], fields[key := value]);
    }
  }

  lemma {:induction false} MembersVisible(ms: seq<Member>)
    requires ms != []
    ensures !Space(PrintMembers(ms))
  {
    var i := |ms[0].before|;
    assert PrintMembers(ms)[i] == QUOTE;
  }

  /** The decoded fields decide the same as the grammar: one member, whose key is `profile`. */
  lemma {:induction false} SelectsFields(d: Document)
    requires d.Valid() && d.members != []
    ensures var fields := Collect(d.members, map[]);
      d.Selects() ==
        if fields.None? || |fields.value| != 1 || Units("profile") !in fields.value then Err(InvalidStreamProfile)
        else if fields.value[Units("profile")] == Native.Name() then Ok(Some(Native))
        else if fields.value[Units("profile")] == Compatible.Name() then Ok(Some(Compatible))
        else Err(InvalidStreamProfile)
  {
    var fields := Collect(d.members, map[]);
    if fields.Some? { CollectCounts(d.members, map[]); }
    if |d.members| == 1 {
      var key := Meaning(d.members[0].key);
      assert d.members[1..] == [];
      assert fields == Some(map[key := Meaning(d.members[0].value)]);
    }
  }

  /** Every spelling of an object of strings is read as what it says. */
  lemma {:induction false} PrintedIsRead(d: Document, size: nat)
    requires d.Valid() && 0 < size <= MAXIMUM_SIZE
    ensures ReadStreamProfile(size, d.Print()) == d.Selects()
  {
    hide ScanItems, PrintMembers, Collect, Trim;
    var body := if d.members == [] then d.gap else PrintMembers(d.members);
    var object' := [OPEN] + body + [CLOSE];
    assert d.Print() == d.lead + object' + d.trail;
    TrimPrinted(d.lead, object', d.trail);
    assert object'[1..|object'| - 1] == body;
    BlankIff(body);
    if d.members != [] {
      MembersVisible(d.members);
      ScanPrintedMembers(d.members, map[]);
      SelectsFields(d);
    }
  }

  /** Whatever is read without failure is a spelling of an object of strings. */
  lemma {:induction false} ReadIsPrinted(size: nat, text: Text) returns (d: Document)
    requires size > 0 && ReadStreamProfile(size, text).Ok?
    ensures d.Valid() && d.Print() == text && d.Selects() == ReadStreamProfile(size, text)
  {
    hide ScanItems, PrintMembers, Collect, Trim;
    var lead, trail := TrimScanned(text);
    var trimmed := Trim(text);
    var body := trimmed[1..|trimmed| - 1];
    assert trimmed == [OPEN] + body + [CLOSE] by { assert |trimmed| >= 2; }
    BlankIff(body);
    if Trim(body) == [] {
      d := Document(lead, [], body, trail);
    } else {
      var ms := MembersScanned(body, map[]);
      d := Document(lead, ms, [], trail);
      SelectsFields(d);
    }
    assert d.Print() == lead + trimmed + trail;
  }

  /** The text spells an object with one string member, whose key means `profile` and whose value means `value`. */
  ghost predicate Spells(text: Text, value: Text) {
    exists d: Document :: d.Valid() && d.Print() == text && d.Says(value)
  }

  /** The text spells an object without members. */
  ghost predicate SpellsNothing(text: Text) {
    exists d: Document :: d.Valid() && d.Print() == text && d.members == []
  }

  lemma {:induction false} ReadIff(size: nat, text: Text, r: Option<Profile>)
    requires size > 0
    ensures ReadStreamProfile(size, text) == Ok(r) <==>
      size <= 16384 && exists d: Document :: d.Valid() && d.Print() == text && d.Selects() == Ok(r)
  {
    hide ReadStreamProfile;
    if ReadStreamProfile(size, text) == Ok(r) {
      var d := ReadIsPrinted(size, text);
      WithinSize(size, text);
      assert d.Selects() == Ok(r);
    }
    if size <= 16384 && exists d: Document :: d.Valid() && d.Print() == text && d.Selects() == Ok(r) {
      var d: Document :| d.Valid() && d.Print() == text && d.Selects() == Ok(r);
      PrintedIsRead(d, size);
    }
  }

  lemma {:induction false} WithinSize(size: nat, text: Text)
    requires ReadStreamProfile(size, text).Ok?
    ensures size <= 16384
  {}

  lemma {:induction false} NamesDiffer()
    ensures Units("native") != Units("compatible")
  {}

  /** What a document selects, in the words of the request. */
  lemma {:induction false} SelectsSays(d: Document)
    requires d.Valid()
    ensures d.Selects() == Ok(Some(Native)) <==> d.Says(Units("native"))
    ensures d.Selects() == Ok(Some(Compatible)) <==> d.Says(Units("compatible"))
    ensures d.Selects() == Ok(None) <==> d.members == []
  {
    hide Units, Meaning;
    NamesDiffer();
  }

  /**
   * A nonempty body within the size limit selects the native profile exactly when it
   * spells `{"profile": "native"}`, the compatible one exactly when it spells
   * `{"profile": "compatible"}`, and the default exactly when it spells `{}`.
   */
  lemma {:induction false} SelectedIff(size: nat, text: Text)
    requires size > 0
    ensures ReadStreamProfile(size, text) == Ok(Some(Native)) <==> size <= 16384 && Spells(text, Units("native"))
    ensures ReadStreamProfile(size, text) == Ok(Some(Compatible)) <==> size <= 16384 && Spells(text, Units("compatible"))
    ensures ReadStreamProfile(size, text) == Ok(None) <==> size <= 16384 && SpellsNothing(text)
  {
    hide ReadStreamProfile, Units, Meaning;
    ReadIff(size, text, Some(Native));
    ReadIff(size, text, Some(Compatible));
    ReadIff(size, text, None);
    forall d: Document | d.Valid()
      ensures d.Selects() == Ok(Some(Native)) <==> d.Says(Units("native"))
      ensures d.Selects() == Ok(Some(Compatible)) <==> d.Says(Units("compatible"))
      ensures d.Selects() == Ok(None) <==> d.members == []
    {
      SelectsSays(d);
    }
  }

  /** A repeated key is refused however its two spellings differ. */
  lemma {:induction false} DuplicatesRefused(d: Document, size: nat, i: nat, j: nat)
    requires d.Valid() && 0 < size <= MAXIMUM_SIZE && i < j < |d.members|
    requires Meaning(d.members[i].key) == Meaning(d.members[j].key)
    ensures ReadStreamProfile(size, d.Print()).Err?
  {
    PrintedIsRead(d, size);
  }
}
