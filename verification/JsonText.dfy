/**
 * JSON texts as RFC 8259 defines them, read by recursive descent, and which of the bodies
 * that the stream-profile scanner accepts are such texts.
 */
module JsonText {
  import opened Basics
  import opened StreamProfile

  // ------------------------------------------------------------- RFC 8259, section 2

  /** The white space of section 2, four characters. */
  predicate JsonSpace(u: unit) { u == 9 || u == 10 || u == 13 || u == 32 }

  function SkipJson(s: Text): (r: Text)
    ensures |r| <= |s|
  {
    if s != [] && JsonSpace(s[0]) then SkipJson(s[1..]) else s
  }

  predicate Digit(u: unit) { 48 <= u <= 57 }

  function SkipDigits(s: Text): (r: Text)
    ensures |r| <= |s|
  {
    if s != [] && Digit(s[0]) then SkipDigits(s[1..]) else s
  }

  /** One or more digits. */
  function Digits(s: Text): (r: Option<Text>)
    ensures r.Some? ==> |r.value| < |s|
  {
    if s != [] && Digit(s[0]) then Some(SkipDigits(s)) else None
  }

  /** Section 6: a sign, an integer part without leading zeros, a fraction and an exponent. */
  function Number(s: Text): (r: Option<Text>)
    ensures r.Some? ==> |r.value| < |s|
  {
    var unsigned := if s != [] && s[0] == 45 then s[1..] else s;
    var whole := if unsigned != [] && unsigned[0] == 48 then Some(unsigned[1..]) else Digits(unsigned);
    if whole.None? then None
    else
      var fraction := if whole.value != [] && whole.value[0] == 46 then Digits(whole.value[1..]) else whole;
      if fraction.None? then None
      else if fraction.value != [] && (fraction.value[0] == 101 || fraction.value[0] == 69) then
        var exponent := fraction.value[1..];
        Digits(if exponent != [] && (exponent[0] == 43 || exponent[0] == 45) then exponent[1..] else exponent)
      else fraction
  }

  /** Section 3: one of the three literal names. */
  function Name(s: Text, name: Text): (r: Option<Text>)
    requires name != []
    ensures r.Some? ==> |r.value| < |s|
  {
    if name <= s then Some(s[|name|..]) else None
  }

  const OPEN_ARRAY: unit := 91
  const CLOSE_ARRAY: unit := 93

  /** A value at the start of `s`, and what is left after it. */
  function Value(s: Text): (r: Option<Text>)
    ensures r.Some? ==> |r.value| < |s|
    decreases |s|, 1
  {
    if s == [] then None
    else if s[0] == QUOTE then
      var literal := ScanString(s);
      if literal.Found? then Some(literal.rest) else None
    else if s[0] == OPEN then
      var inside := SkipJson(s[1..]);
      if inside != [] && inside[0] == CLOSE then Some(inside[1..]) else Members(s[1..])
    else if s[0] == OPEN_ARRAY then
      var inside := SkipJson(s[1..]);
      if inside != [] && inside[0] == CLOSE_ARRAY then Some(inside[1..]) else Elements(s[1..])
    else if s[0] == 116 then Name(s, Units("true"))
    else if s[0] == 102 then Name(s, Units("false"))
    else if s[0] == 110 then Name(s, Units("null"))
    else Number(s)
  }

  /** Section 4: members up to and including the closing brace. */
  function Members(s: Text): (r: Option<Text>)
    ensures r.Some? ==> |r.value| < |s|
    decreases |s|, 0
  {
    var key := ScanString(SkipJson(s));
    if key.Missing? then None
    else
      var colon := SkipJson(key.rest);
      if colon == [] || colon[0] != COLON then None
      else
        var value := Value(SkipJson(colon[1..]));
        if value.None? then None
        else
          var end := SkipJson(value.value);
          if end == [] then None
          else if end[0] == CLOSE then Some(end[1..])
          else if end[0] == COMMA then Members(end[1..])
          else None
  }

  /** Section 5: elements up to and including the closing bracket. */
  function Elements(s: Text): (r: Option<Text>)
    ensures r.Some? ==> |r.value| < |s|
    decreases |s|, 2
  {
    var value := Value(SkipJson(s));
    if value.None? then None
    else
      var end := SkipJson(value.value);
      if end == [] then None
      else if end[0] == CLOSE_ARRAY then Some(end[1..])
      else if end[0] == COMMA then Elements(end[1..])
      else None
  }

  predicate IsJson(text: Text) {
    var value := Value(SkipJson(text));
    value.Some? && SkipJson(value.value) == []
  }

  // ---------------------------------------------------- which documents are JSON texts

  predicate AllJson(s: Text) { forall i | 0 <= i < |s| :: JsonSpace(s[i]) }

  predicate MemberJson(m: Member) {
    AllJson(m.before) && AllJson(m.afterKey) && AllJson(m.beforeValue) && AllJson(m.after)
  }

  predicate MembersJson(ms: seq<Member>) { forall i | 0 <= i < |ms| :: MemberJson(ms[i]) }

  /** Every unit outside the literals that is not punctuation is white space of RFC 8259. */
  predicate JsonSpaced(d: Document) {
    AllJson(d.lead) && AllJson(d.gap) && AllJson(d.trail) && MembersJson(d.members)
  }

  /** A text that JSON can neither skip nor go on with. */
  predicate Stuck(s: Text) { s != [] && IsSpace(s[0]) && !JsonSpace(s[0]) }

  /** Skipping printed space: over it when all of it is JSON's, and otherwise into the first that is not. */
  lemma {:induction false} SkipPrintedJson(space: Text, tail: Text)
    requires Space(space) && (tail == [] || !IsSpace(tail[0]))
    ensures AllJson(space) ==> SkipJson(space + tail) == tail
    ensures !AllJson(space) ==> Stuck(SkipJson(space + tail))
    decreases |space|
  {
    if space == [] {
      assert space + tail == tail;
    } else {
      assert (space + tail)[1..] == space[1..] + tail;
      SkipPrintedJson(space[1..], tail);
      assert AllJson(space) <==> JsonSpace(space[0]) && AllJson(space[1..]);
    }
  }

  lemma {:induction false} StuckValue(s: Text)
    requires Stuck(s)
    ensures Value(s) == None && ScanString(s) == Missing
  {}

  /** One printed member in an object: read over when its space is JSON's, and a failure otherwise. */
  lemma {:induction false} ReadMember(m: Member, tail: Text)
    requires m.Valid() && tail != [] && (tail[0] == COMMA || tail[0] == CLOSE)
    ensures Members(m.Print(tail)) ==
      if !MemberJson(m) then None else if tail[0] == CLOSE then Some(tail[1..]) else Members(tail[1..])
  {
    hide ScanString, PrintRest, SkipJson, AllJson, Stuck;
    var t1 := m.after + tail;
    var t2 := [QUOTE] + (PrintRest(m.value) + t1);
    var t3 := [COLON] + (m.beforeValue + t2);
    var t4 := [QUOTE] + (PrintRest(m.key) + (m.afterKey + t3));
    SkipPrintedJson(m.before, t4);
    ScanPrintedString(m.key, m.afterKey + t3);
    SkipPrintedJson(m.afterKey, t3);
    assert t3[1..] == m.beforeValue + t2;
    SkipPrintedJson(m.beforeValue, t2);
    ScanPrintedString(m.value, t1);
    QuotedValue(t2, t1);
    SkipPrintedJson(m.after, tail);
    if !AllJson(m.before) { StuckValue(SkipJson(m.before + t4)); }
    else if !AllJson(m.afterKey) { StuckStart(SkipJson(m.afterKey + t3)); }
    else if !AllJson(m.beforeValue) { StuckValue(SkipJson(m.beforeValue + t2)); }
    else if !AllJson(m.after) { StuckStart(SkipJson(m.after + tail)); }
  }

  lemma {:induction false} StuckStart(s: Text)
    requires Stuck(s)
    ensures s != [] && s[0] != COLON && s[0] != CLOSE && s[0] != COMMA && s[0] != OPEN && s[0] != QUOTE
  {}

  lemma {:induction false} QuotedValue(s: Text, rest: Text)
    requires s != [] && s[0] == QUOTE && ScanString(s).Found? && ScanString(s).rest == rest
    ensures Value(s) == Some(rest)
  {}

  /** The text of a member list in front of `tail`. */
  lemma {:induction false} PrintInFront(ms: seq<Member>, tail: Text)
    requires ms != []
    ensures PrintMembers(ms) + tail ==
      ms[0].Print(if |ms| == 1 then tail else [COMMA] + (PrintMembers(ms[1..]) + tail))
  {
    hide PrintRest;
    if |ms| == 1 {
      PrintAppends(ms[0], [], tail);
      assert [] + tail == tail;
    } else {
      PrintAppends(ms[0], [COMMA] + PrintMembers(ms[1..]), tail);
      assert [COMMA] + PrintMembers(ms[1..]) + tail == [COMMA] + (PrintMembers(ms[1..]) + tail);
    }
  }

  lemma {:induction false} PrintAppends(m: Member, a: Text, b: Text)
    ensures m.Print(a) + b == m.Print(a + b)
  {
    hide PrintRest;
    var a1, b1 := m.after + a, m.after + (a + b);
    assert a1 + b == b1;
    var a2, b2 := PrintRest(m.value) + a1, PrintRest(m.value) + b1;
    assert a2 + b == b2;
    var a3, b3 := m.beforeValue + ([QUOTE] + a2), m.beforeValue + ([QUOTE] + b2);
    assert a3 + b == b3;
    var a4, b4 := m.afterKey + ([COLON] + a3), m.afterKey + ([COLON] + b3);
    assert a4 + b == b4;
    assert PrintRest(m.key) + a4 + b == PrintRest(m.key) + b4;
    assert m.before + ([QUOTE] + (PrintRest(m.key) + a4)) + b == m.before + ([QUOTE] + (PrintRest(m.key) + b4));
  }

  lemma {:induction false} ReadMembers(ms: seq<Member>, tail: Text)
    requires ms != [] && ValidMembers(ms)
    ensures Members(PrintMembers(ms) + ([CLOSE] + tail)) == if MembersJson(ms) then Some(tail) else None
    decreases |ms|
  {
    hide Members, PrintMembers, MemberJson;
    var close := [CLOSE] + tail;
    PrintInFront(ms, close);
    assert close[1..] == tail;
    if |ms| == 1 {
      ReadMember(ms[0], close);
    } else {
      var rest := PrintMembers(ms[1..]) + close;
      assert ([COMMA] + rest)[1..] == rest;
      ReadMember(ms[0], [COMMA] + rest);
      ReadMembers(ms[1..], tail);
      assert MembersJson(ms) <==> MemberJson(ms[0]) && MembersJson(ms[1..]);
    }
  }

  /** The object of a document, in front of its trailing space. */
  lemma {:induction false} ReadObject(d: Document)
    requires d.Valid()
    ensures var body := if d.members == [] then d.gap else PrintMembers(d.members);
      Value([OPEN] + (body + ([CLOSE] + d.trail))) ==
        if AllJson(d.gap) && MembersJson(d.members) then Some(d.trail) else None
  {
    hide Members, PrintMembers, SkipJson, AllJson, MemberJson, Stuck;
    var body := if d.members == [] then d.gap else PrintMembers(d.members);
    var rest := body + ([CLOSE] + d.trail);
    assert ([OPEN] + rest)[1..] == rest && ([CLOSE] + d.trail)[1..] == d.trail;
    if d.members == [] {
      SkipPrintedJson(d.gap, [CLOSE] + d.trail);
      if !AllJson(d.gap) {
        StuckStart(SkipJson(rest));
        StuckMembers(rest);
      }
    } else {
      ReadMembers(d.members, d.trail);
      NoGap();
      FirstIsNoBrace(d.members, [CLOSE] + d.trail);
    }
  }

  lemma {:induction false} NoGap()
    ensures AllJson([])
  {}

  lemma {:induction false} StuckMembers(s: Text)
    requires Stuck(SkipJson(s))
    ensures Members(s) == None
  {
    StuckValue(SkipJson(s));
  }

  /** A member list does not start with a closing brace. */
  lemma {:induction false} FirstIsNoBrace(ms: seq<Member>, tail: Text)
    requires ms != [] && ValidMembers(ms)
    ensures var s := SkipJson(PrintMembers(ms) + tail); s != [] && s[0] != CLOSE
  {
    hide PrintRest, SkipJson, Stuck;
    PrintInFront(ms, tail);
    var m := ms[0];
    var t := if |ms| == 1 then tail else [COMMA] + (PrintMembers(ms[1..]) + tail);
    var quoted := [QUOTE] + (PrintRest(m.key) + (m.afterKey + ([COLON] + (m.beforeValue + ([QUOTE] + (PrintRest(m.value) + (m.after + t)))))));
    assert m.Print(t) == m.before + quoted;
    SkipPrintedJson(m.before, quoted);
    if !AllJson(m.before) { StuckStart(SkipJson(m.before + quoted)); }
  }

  /** A spelling of an object of strings is an RFC 8259 text exactly when its space is RFC 8259's. */
  lemma {:induction false} PrintedIsJsonIff(d: Document)
    requires d.Valid()
    ensures IsJson(d.Print()) <==> JsonSpaced(d)
  {
    hide Value, PrintMembers, SkipJson, AllJson, MembersJson, Stuck;
    var body := if d.members == [] then d.gap else PrintMembers(d.members);
    var object' := [OPEN] + (body + ([CLOSE] + d.trail));
    assert d.Print() == d.lead + object';
    SkipPrintedJson(d.lead, object');
    ReadObject(d);
    assert d.trail + [] == d.trail;
    SkipPrintedJson(d.trail, []);
    if !AllJson(d.lead) { StuckValue(SkipJson(d.Print())); }
    if !AllJson(d.trail) { StuckStart(SkipJson(d.trail)); }
  }

  /**
   * What is accepted beyond RFC 8259, exactly: a body that is read without failure spells
   * one document, and is an RFC 8259 text if and only if that document's white space is.
   */
  lemma {:induction false} AcceptedIsJsonIff(size: nat, text: Text) returns (d: Document)
    requires size > 0 && ReadStreamProfile(size, text).Ok?
    ensures d.Valid() && d.Print() == text && d.Selects() == ReadStreamProfile(size, text)
    ensures IsJson(text) <==> JsonSpaced(d)
  {
    d := ReadIsPrinted(size, text);
    PrintedIsJsonIff(d);
  }

  /** Every RFC 8259 spelling is read, so the scanner only ever accepts more. */
  lemma {:induction false} JsonIsRead(d: Document, size: nat)
    requires d.Valid() && JsonSpaced(d) && 0 < size <= MAXIMUM_SIZE
    ensures IsJson(d.Print()) && ReadStreamProfile(size, d.Print()) == d.Selects()
  {
    PrintedIsJsonIff(d);
    PrintedIsRead(d, size);
  }

  function Plainly(text: Text): (l: Literal)
    ensures |l| == |text| && forall i | 0 <= i < |text| :: l[i] == Plain(text[i])
  {
    seq(|text|, i requires 0 <= i < |text| => Plain(text[i]))
  }

  lemma {:induction false} PlainlyMeans(text: Text)
    requires forall i | 0 <= i < |text| :: Plain(text[i]).Valid()
    ensures ValidLiteral(Plainly(text)) && Meaning(Plainly(text)) == text
    decreases |text|
  {
    if text != [] {
      PlainlyMeans(text[1..]);
      assert Plainly(text)[1..] == Plainly(text[1..]);
      assert text == [text[0]] + text[1..];
    }
  }

  /** `{"profile":"native"}` with a no-break space after the brace. */
  function NoBreakSpaced(): Document {
    Document([], [Member([0xa0], Plainly(Units("profile")), [], [], Plainly(Units("native")), [])], [], [])
  }

  lemma {:induction false} NoBreakSpacedIsValid()
    ensures NoBreakSpaced().Valid() && !AllJson([0xa0])
  {
    hide PrintRest, Plainly, Meaning, ValidLiteral;
    PlainlyMeans(Units("profile"));
    PlainlyMeans(Units("native"));
    assert !JsonSpace([0xa0][0]);
  }

  lemma {:induction false} NoBreakSpacedSelects()
    ensures NoBreakSpaced().Selects() == Ok(Some(Native))
  {
    hide PrintRest;
    PlainlyMeans(Units("profile"));
    PlainlyMeans(Units("native"));
  }

  /** That body selects the native profile, and is no JSON text. */
  lemma {:induction false} NoBreakSpaceAccepted(size: nat)
    requires 0 < size <= MAXIMUM_SIZE
    ensures ReadStreamProfile(size, NoBreakSpaced().Print()) == Ok(Some(Native)) && !IsJson(NoBreakSpaced().Print())
  {
    hide ReadStreamProfile, IsJson, AllJson, PrintMembers, PrintRest, ValidMembers, Plainly;
    NoBreakSpacedIsValid();
    NoBreakSpacedSelects();
    PrintedIsRead(NoBreakSpaced(), size);
    PrintedIsJsonIff(NoBreakSpaced());
  }

  lemma {:induction false} PlainlyPrints(text: Text)
    ensures PrintRest(Plainly(text)) == text + [QUOTE]
    decreases |text|
  {
    if text != [] {
      PlainlyPrints(text[1..]);
      assert Plainly(text)[1..] == Plainly(text[1..]);
      assert text + [QUOTE] == [text[0]] + (text[1..] + [QUOTE]);
    }
  }

  /** The twenty bytes of `{"profile":"native"}`. */
  const NATIVE_BODY: Text :=
    [123, 34, 112, 114, 111, 102, 105, 108, 101, 34, 58, 34, 110, 97, 116, 105, 118, 101, 34, 125]

  /** The twenty-four bytes of `{"profile":"compatible"}`. */
  const COMPATIBLE_BODY: Text :=
    [123, 34, 112, 114, 111, 102, 105, 108, 101, 34, 58, 34, 99, 111, 109, 112, 97, 116, 105, 98, 108, 101, 34, 125]

  /** The compact spelling of an object with the member `profile`. */
  function Compact(value: Text): Document {
    Document([], [Member([], Plainly(Units("profile")), [], [], Plainly(value), [])], [], [])
  }

  lemma {:induction false} ProfileUnits()
    ensures Units("profile") == [112, 114, 111, 102, 105, 108, 101]
  {}

  lemma {:induction false} CompactJoins(key: Text, value: Text)
    ensures [OPEN] + ([QUOTE] + (key + [QUOTE] + ([COLON] + ([QUOTE] + (value + [QUOTE]))))) + [CLOSE] ==
      [OPEN, QUOTE] + key + [QUOTE, COLON, QUOTE] + value + [QUOTE, CLOSE]
  {}

  lemma {:induction false} CompactMember(key: Text, value: Text)
    ensures Member([], Plainly(key), [], [], Plainly(value), []).Print([]) ==
      [QUOTE] + (key + [QUOTE] + ([COLON] + ([QUOTE] + (value + [QUOTE]))))
  {
    PlainlyPrints(key);
    PlainlyPrints(value);
    hide PrintRest, Plainly;
  }

  lemma {:induction false} CompactPrints(value: Text)
    ensures Compact(value).Print() == [123, 34, 112, 114, 111, 102, 105, 108, 101, 34, 58, 34] + value + [34, 125]
  {
    hide PrintRest, Plainly, Units;
    CompactMember(Units("profile"), value);
    CompactJoins(Units("profile"), value);
    ProfileUnits();
    CompactPrefix(value);
  }

  lemma {:induction false} CompactPrefix(value: Text)
    ensures Compact(value).Print() ==
      [OPEN] + Member([], Plainly(Units("profile")), [], [], Plainly(value), []).Print([]) + [CLOSE]
  {
    hide PrintRest, Plainly, Units;
    var m := Member([], Plainly(Units("profile")), [], [], Plainly(value), []);
    assert PrintMembers([m]) == m.Print([]);
    assert [] + [OPEN] + m.Print([]) + [CLOSE] + [] == [OPEN] + m.Print([]) + [CLOSE];
  }

  lemma {:induction false} CompactSays(value: Text)
    requires forall i | 0 <= i < |value| :: Plain(value[i]).Valid()
    ensures Compact(value).Valid() && Compact(value).Says(value)
  {
    hide Plainly, Meaning, ValidLiteral, PrintRest;
    PlainlyMeans(Units("profile"));
    PlainlyMeans(value);
  }

  /** The two bodies that clients send select what they name. */
  lemma {:induction false} BodiesSelect()
    ensures ReadStreamProfile(20, NATIVE_BODY) == Ok(Some(Native))
    ensures ReadStreamProfile(24, COMPATIBLE_BODY) == Ok(Some(Compatible))
  {
    hide ReadStreamProfile, Compact;
    CompactReads(Units("native"), 20);
    CompactReads(Units("compatible"), 24);
    BodyTexts();
  }

  lemma {:induction false} BodyTexts()
    ensures NATIVE_BODY == [123, 34, 112, 114, 111, 102, 105, 108, 101, 34, 58, 34] + Units("native") + [34, 125]
    ensures COMPATIBLE_BODY == [123, 34, 112, 114, 111, 102, 105, 108, 101, 34, 58, 34] + Units("compatible") + [34, 125]
  {}

  lemma {:induction false} CompactReads(value: Text, size: nat)
    requires forall i | 0 <= i < |value| :: Plain(value[i]).Valid()
    requires 0 < size <= MAXIMUM_SIZE
    ensures var text: Text := [123, 34, 112, 114, 111, 102, 105, 108, 101, 34, 58, 34] + value + [34, 125];
      && (value == Units("native") ==> ReadStreamProfile(size, text) == Ok(Some(Native)))
      && (value == Units("compatible") ==> ReadStreamProfile(size, text) == Ok(Some(Compatible)))
  {
    hide ReadStreamProfile, Compact, Units, Meaning;
    CompactPrints(value);
    CompactSays(value);
    SelectsSays(Compact(value));
    PrintedIsRead(Compact(value), size);
  }
}
