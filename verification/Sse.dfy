/**
 * The event stream as text: the frames the server writes and the line loop by which
 * the client reads them back, down to what a connection cut anywhere yields.
 */
module Sse {
  import opened Basics

  /** `read` is the JSON parser followed by the test for a dictionary. */
  datatype Json<!P(!new), M> = Json(write: P -> string, read: string -> Option<M>, meaning: P -> M) {
    /** The writer's output is one line that starts with a brace, and the parser understands it. */
    ghost predicate Lawful() {
      forall p: P ::
        && |write(p)| > 0 && write(p)[0] == '{'
        && OneLine(write(p)) && read(write(p)) == Some(meaning(p))
    }
  }

  predicate OneLine(text: string) {
    forall i | 0 <= i < |text| :: text[i] != '\n' && text[i] != '\r'
  }

  /** What the server writes: one event, or the heartbeat comment. */
  datatype Item<P> = Frame(kind: string, payload: P) | Heartbeat

  function Text<P(!new), M>(json: Json<P, M>, item: Item<P>): string {
    match item
    case Frame(kind, payload) => "event: " + kind + "\n" + ("data: " + json.write(payload) + "\n") + "\n"
    case Heartbeat => ": heartbeat" + "\n" + "\n"
  }

  function Wire<P(!new), M>(json: Json<P, M>, items: seq<Item<P>>): string {
    if items == [] then "" else Wire(json, items[..|items| - 1]) + Text(json, items[|items| - 1])
  }

  ghost predicate Writable<P(!new), M>(json: Json<P, M>, items: seq<Item<P>>) {
    json.Lawful() && forall i | 0 <= i < |items| && items[i].Frame? :: OneLine(items[i].kind)
  }

  /** The events among the items, as their readers understand them. */
  function Meanings<P(!new), M>(json: Json<P, M>, items: seq<Item<P>>): seq<M> {
    if items == [] then []
    else
      var init, item := Meanings(json, items[..|items| - 1]), items[|items| - 1];
      if item.Frame? then init + [json.meaning(item.payload)] else init
  }

  // -------------------------------------------------------------- the client

  /** The reader's state between two lines. */
  datatype Reader<M> = Reader(dataLines: seq<string>, yielded: seq<M>)

  /** `rstrip("\r\n")`. */
  function StripEnd(line: string): string {
    if line != "" && (line[|line| - 1] == '\r' || line[|line| - 1] == '\n') then StripEnd(line[..|line| - 1]) else line
  }

  /** Python's white space. */
  predicate IsSpace(c: char) {
    var code := c as int;
    || 9 <= code <= 13 || 28 <= code <= 32 || code in {0x85, 0xa0, 0x1680}
    || 0x2000 <= code <= 0x200a || code in {0x2028, 0x2029, 0x202f, 0x205f, 0x3000}
  }

  /** The 29 characters that `str.isspace` holds of. */
  const WHITE: set<int> :=
    {0x9, 0xa, 0xb, 0xc, 0xd, 0x1c, 0x1d, 0x1e, 0x1f, 0x20, 0x85, 0xa0, 0x1680, 0x2000, 0x2001, 0x2002, 0x2003, 0x2004,
     0x2005, 0x2006, 0x2007, 0x2008, 0x2009, 0x200a, 0x2028, 0x2029, 0x202f, 0x205f, 0x3000}

  lemma {:induction false} SpacesAre(c: char)
    ensures IsSpace(c) <==> c as int in WHITE
  {}

  function StripStart(text: string): string {
    if text != "" && IsSpace(text[0]) then StripStart(text[1..]) else text
  }

  function JoinLines(lines: seq<string>): string {
    if lines == [] then "" else if |lines| == 1 then lines[0] else JoinLines(lines[..|lines| - 1]) + "\n" + lines[|lines| - 1]
  }

  /** One raw line: a blank one ends the event, a data line extends it, others are ignored. */
  function ReadLine<P(!new), M>(json: Json<P, M>, r: Reader<M>, raw: string): Reader<M> {
    var line := StripEnd(raw);
    if line == "" then
      var value := if r.dataLines == [] then None else json.read(JoinLines(r.dataLines));
      Reader([], if value.Some? then r.yielded + [value.value] else r.yielded)
    else if "data:" <= line then r.(dataLines := r.dataLines + [StripStart(line[5..])])
    else r
  }

  /** Complete lines, each with its newline, and the text after the last newline. */
  function Split(text: string): (seq<string>, string) {
    if text == "" then ([], "")
    else
      var (lines, rest) := Split(text[..|text| - 1]);
      if text[|text| - 1] == '\n' then (lines + [rest + "\n"], "") else (lines, rest + [text[|text| - 1]])
  }

  /** The raw lines of a response body: the last one may lack its newline. */
  function Lines(text: string): seq<string> {
    var (lines, rest) := Split(text);
    if rest == "" then lines else lines + [rest]
  }

  function Read<P(!new), M>(json: Json<P, M>, r: Reader<M>, lines: seq<string>): Reader<M> {
    if lines == [] then r else ReadLine(json, Read(json, r, lines[..|lines| - 1]), lines[|lines| - 1])
  }

  /** The events a client yields from one response body. */
  function Received<P(!new), M>(json: Json<P, M>, text: string): seq<M> {
    Read(json, Reader([], []), Lines(text)).yielded
  }

  // --------------------------------------------------------------- line facts

  lemma {:induction false} SplitConcat(a: string, b: string)
    requires Split(a).1 == ""
    ensures Split(a + b) == (Split(a).0 + Split(b).0, Split(b).1)
    decreases |b|
  {
    if b == "" {
      assert a + b == a && Split(a).0 + [] == Split(a).0;
    } else {
      assert (a + b)[..|a + b| - 1] == a + b[..|b| - 1];
      SplitConcat(a, b[..|b| - 1]);
      var (lines, rest) := Split(b[..|b| - 1]);
      assert Split(a).0 + lines + [rest + "\n"] == Split(a).0 + (lines + [rest + "\n"]);
    }
  }

  lemma {:induction false} SplitOneLine(line: string)
    requires OneLine(line)
    ensures Split(line) == ([], line) && Split(line + "\n") == ([line + "\n"], "")
    decreases |line|
  {
    var full := line + "\n";
    assert full[..|full| - 1] == line && full[|full| - 1] == '\n';
    if line != "" {
      SplitOneLine(line[..|line| - 1]);
      assert line == line[..|line| - 1] + [line[|line| - 1]];
    }
    assert Split(line) == ([], line);
    assert [] + [line + "\n"] == [line + "\n"];
  }

  lemma {:induction false} ReadConcat<P(!new), M>(json: Json<P, M>, r: Reader<M>, a: seq<string>, b: seq<string>)
    ensures Read(json, r, a + b) == Read(json, Read(json, r, a), b)
    decreases |b|
  {
    if b == [] {
      assert a + b == a;
    } else {
      assert (a + b)[..|a + b| - 1] == a + b[..|b| - 1];
      ReadConcat(json, r, a, b[..|b| - 1]);
    }
  }

  lemma {:induction false} StripOneLine(line: string)
    requires OneLine(line)
    ensures StripEnd(line) == line && StripEnd(line + "\n") == line
  {
    assert (line + "\n")[..|line|] == line;
  }

  lemma {:induction false} OneLineConcat(a: string, b: string)
    requires OneLine(a) && OneLine(b)
    ensures OneLine(a + b)
  {}

  // -------------------------------------------------------- one written item

  /** Two lines and the blank one, as the raw lines of their text. */
  lemma {:induction false} SplitThree(head: string, data: string)
    requires OneLine(head) && OneLine(data)
    ensures Split(head + "\n" + (data + "\n") + "\n") == ([head + "\n", data + "\n", "\n"], "")
  {
    SplitTwo(head, data);
    SplitOneLine("");
    assert "" + "\n" == "\n";
    SplitConcat(head + "\n" + (data + "\n"), "\n");
    assert [head + "\n", data + "\n"] + ["\n"] == [head + "\n", data + "\n", "\n"];
  }

  lemma {:induction false} SplitTwo(head: string, data: string)
    requires OneLine(head) && OneLine(data)
    ensures Split(head + "\n" + (data + "\n")) == ([head + "\n", data + "\n"], "")
  {
    SplitOneLine(head);
    SplitOneLine(data);
    SplitConcat(head + "\n", data + "\n");
    assert [head + "\n"] + [data + "\n"] == [head + "\n", data + "\n"];
  }

  /** Reading one whole item between events yields its event, if it has one. */
  lemma {:induction false} ReadItem<P(!new), M>(json: Json<P, M>, item: Item<P>, yielded: seq<M>)
    requires json.Lawful() && (item.Frame? ==> OneLine(item.kind))
    ensures Split(Text(json, item)).1 == ""
    ensures Read(json, Reader([], yielded), Split(Text(json, item)).0) ==
      Reader([], if item.Frame? then yielded + [json.meaning(item.payload)] else yielded)
  {
    hide Split, Read, ReadLine;
    StripOneLine("");
    assert "" + "\n" == "\n";
    if item.Frame? {
      ReadFrame(json, yielded, item.kind, item.payload);
    } else {
      var comment := ": heartbeat";
      assert OneLine(comment) && comment[0] == ':';
      SplitTwo(comment, "");
      StripOneLine(comment);
      var lines := [comment + "\n", "\n"];
      ReadTwo(json, Reader([], yielded), lines);
      SilentLine(json, Reader([], yielded), lines[0]);
      BlankLine(json, Reader([], yielded), lines[1]);
    }
  }

  lemma {:induction false} SilentLine<P(!new), M>(json: Json<P, M>, r: Reader<M>, raw: string)
    requires StripEnd(raw) != "" && StripEnd(raw)[0] != 'd'
    ensures ReadLine(json, r, raw) == r
  {}

  lemma {:induction false} BlankLine<P(!new), M>(json: Json<P, M>, r: Reader<M>, raw: string)
    requires StripEnd(raw) == ""
    ensures r.dataLines == [] ==> ReadLine(json, r, raw) == r
    ensures |r.dataLines| == 1 && json.read(r.dataLines[0]).Some? ==>
      ReadLine(json, r, raw) == Reader([], r.yielded + [json.read(r.dataLines[0]).value])
  {}

  lemma {:induction false} DataLine<P(!new), M>(json: Json<P, M>, r: Reader<M>, raw: string, text: string)
    requires StripEnd(raw) == "data: " + text && text != "" && text[0] == '{'
    ensures ReadLine(json, r, raw) == r.(dataLines := r.dataLines + [text])
  {
    var line := StripEnd(raw);
    assert line[0] == 'd' && "data:" <= line && line[5..] == " " + text;
    assert (" " + text)[1..] == text;
    assert StripStart(" " + text) == StripStart(text);
  }

  lemma {:induction false} ReadTwo<P(!new), M>(json: Json<P, M>, r: Reader<M>, lines: seq<string>)
    requires |lines| == 2
    ensures Read(json, r, lines) == ReadLine(json, ReadLine(json, r, lines[0]), lines[1])
  {
    assert lines[..1][..0] == [];
    assert Read(json, r, lines[..1]) == ReadLine(json, r, lines[0]);
  }

  lemma {:induction false} ReadThree<P(!new), M>(json: Json<P, M>, r: Reader<M>, lines: seq<string>)
    requires |lines| == 3
    ensures Read(json, r, lines) == ReadLine(json, ReadLine(json, ReadLine(json, r, lines[0]), lines[1]), lines[2])
  {
    ReadTwo(json, r, lines[..2]);
  }

  lemma {:induction false} ReadFrame<P(!new), M>(json: Json<P, M>, yielded: seq<M>, kind: string, payload: P)
    requires json.Lawful() && OneLine(kind)
    ensures var text := Text(json, Frame(kind, payload));
      Split(text).1 == "" && Read(json, Reader([], yielded), Split(text).0) == Reader([], yielded + [json.meaning(payload)])
  {
    hide Split, Read, ReadLine, StripEnd;
    var text, r := json.write(payload), Reader([], yielded);
    var head, data := "event: " + kind, "data: " + text;
    assert OneLine(text) && text[0] == '{' && json.read(text) == Some(json.meaning(payload));
    OneLineConcat("event: ", kind);
    OneLineConcat("data: ", text);
    SplitThree(head, data);
    StripOneLine(head);
    StripOneLine(data);
    StripOneLine("");
    assert "" + "\n" == "\n";
    var lines := [head + "\n", data + "\n", "\n"];
    ReadThree(json, r, lines);
    assert head[0] == 'e';
    SilentLine(json, r, lines[0]);
    DataLine(json, r, lines[1], text);
    assert r.dataLines + [text] == [text];
    BlankLine(json, Reader([text], yielded), lines[2]);
  }

  // ----------------------------------------------------------- a cut in an item

  /** No carriage return, and no newline at the start or after another newline. */
  predicate NoBlankLine(text: string) {
    forall i | 0 <= i < |text| :: CalmAt(text, i)
  }

  predicate CalmAt(text: string, i: nat)
    requires i < |text|
  {
    text[i] != '\r' && (text[i] == '\n' ==> i > 0 && text[i - 1] != '\n')
  }

  ghost predicate Visible(lines: seq<string>) {
    forall i | 0 <= i < |lines| :: StripEnd(lines[i]) != ""
  }

  lemma {:induction false} NoBlankSplit(text: string)
    requires NoBlankLine(text)
    ensures Visible(Split(text).0) && OneLine(Split(text).1)
    ensures Split(text).1 == "" <==> text == "" || text[|text| - 1] == '\n'
    decreases |text|
  {
    if text != "" {
      var n := |text| - 1;
      forall i | 0 <= i < n ensures CalmAt(text[..n], i) {
        assert CalmAt(text, i);
      }
      assert CalmAt(text, n);
      NoBlankSplit(text[..n]);
      var (lines, rest) := Split(text[..n]);
      if text[n] == '\n' {
        assert n > 0 && text[n - 1] != '\n';
        StripOneLine(rest);
      }
    }
  }

  lemma {:induction false} VisibleIsSilent<P(!new), M>(json: Json<P, M>, r: Reader<M>, lines: seq<string>)
    requires Visible(lines)
    ensures Read(json, r, lines).yielded == r.yielded
    decreases |lines|
  {
    if lines != [] { VisibleIsSilent(json, r, lines[..|lines| - 1]); }
  }

  lemma {:induction false} TextHasNoBlank<P(!new), M>(json: Json<P, M>, item: Item<P>, c: nat)
    requires json.Lawful() && (item.Frame? ==> OneLine(item.kind)) && c < |Text(json, item)|
    ensures NoBlankLine(Text(json, item)[..c])
  {
    var text := Text(json, item);
    if item.Frame? {
      var head, data := "event: " + item.kind, "data: " + json.write(item.payload);
      OneLineConcat("event: ", item.kind);
      OneLineConcat("data: ", json.write(item.payload));
      TwoLines(head, data, c);
    } else {
      var comment := ": heartbeat";
      assert OneLine(comment) && text == comment + "\n" + "\n";
      forall i | 0 <= i < c ensures CalmAt(text[..c], i) {
        if i < |comment| { assert text[i] == comment[i]; } else { assert text[i - 1] == comment[i - 1]; }
      }
    }
  }

  lemma {:induction false} TwoLines(head: string, data: string, c: nat)
    requires OneLine(head) && OneLine(data) && head != "" && data != "" && c < |head| + |data| + 3
    ensures NoBlankLine((head + "\n" + (data + "\n") + "\n")[..c])
  {
    var text := head + "\n" + (data + "\n") + "\n";
    forall i | 0 <= i < c ensures CalmAt(text[..c], i) {
      if i < |head| { assert text[i] == head[i]; }
      else if i == |head| { assert text[i - 1] == head[i - 1]; }
      else if i < |head| + 1 + |data| { assert text[i] == data[i - |head| - 1]; }
      else { assert text[i - 1] == data[i - |head| - 2]; }
    }
  }

  // ---------------------------------------------------------------- main results

  lemma {:induction false} WireReads<P(!new), M>(json: Json<P, M>, items: seq<Item<P>>)
    requires Writable(json, items)
    ensures Split(Wire(json, items)).1 == ""
    ensures Read(json, Reader([], []), Split(Wire(json, items)).0) == Reader([], Meanings(json, items))
    decreases |items|
  {
    if items != [] {
      var init, item := items[..|items| - 1], items[|items| - 1];
      WireReads(json, init);
      ReadItem(json, item, Meanings(json, init));
      SplitConcat(Wire(json, init), Text(json, item));
      ReadConcat(json, Reader([], []), Split(Wire(json, init)).0, Split(Text(json, item)).0);
    }
  }

  /** The client yields exactly the written events, in order, heartbeats or not. */
  lemma {:induction false} StreamRoundTrip<P(!new), M>(json: Json<P, M>, items: seq<Item<P>>)
    requires Writable(json, items)
    ensures Received(json, Wire(json, items)) == Meanings(json, items)
  {
    WireReads(json, items);
  }

  /** `m` is the number of items that lie wholly before position `c`. */
  ghost predicate Whole<P(!new), M>(json: Json<P, M>, items: seq<Item<P>>, c: nat, m: nat) {
    && m <= |items| && |Wire(json, items[..m])| <= c
    && (m < |items| ==> c < |Wire(json, items[..m + 1])|)
  }

  /** Whatever position the connection breaks at, the client yields exactly the events wholly before it. */
  lemma {:induction false} CutStream<P(!new), M>(json: Json<P, M>, items: seq<Item<P>>, c: nat) returns (m: nat)
    requires Writable(json, items) && c <= |Wire(json, items)|
    ensures Whole(json, items, c, m) && (c == |Wire(json, items)| ==> m == |items|)
    ensures Received(json, Wire(json, items)[..c]) == Meanings(json, items[..m])
    ensures Read(json, Reader([], []), Split(Wire(json, items)[..c]).0).yielded == Meanings(json, items[..m])
    decreases |items|
  {
    hide Received, Text, Meanings, Split, Read;
    if c == |Wire(json, items)| {
      m := |items|;
      assert items[..m] == items && Wire(json, items)[..c] == Wire(json, items);
      StreamRoundTrip(json, items);
      WireReads(json, items);
    } else {
      var n := |items| - 1;
      var init := items[..n];
      assert items[..n + 1] == items;
      var wire := Wire(json, init);
      if c < |wire| {
        m := CutStream(json, init, c);
        assert init[..n] == init;
        assert m < n && init[..m] == items[..m] && init[..m + 1] == items[..m + 1];
        assert Wire(json, items)[..c] == wire[..c];
      } else {
        m := n;
        var part := Text(json, items[n])[..c - |wire|];
        assert Wire(json, items)[..c] == wire + part;
        CutItem(json, init, items[n], c - |wire|);
      }
    }
  }

  lemma {:induction false} CutItem<P(!new), M>(json: Json<P, M>, items: seq<Item<P>>, item: Item<P>, c: nat)
    requires Writable(json, items) && (item.Frame? ==> OneLine(item.kind)) && c < |Text(json, item)|
    ensures Received(json, Wire(json, items) + Text(json, item)[..c]) == Meanings(json, items)
    ensures Read(json, Reader([], []), Split(Wire(json, items) + Text(json, item)[..c]).0).yielded == Meanings(json, items)
  {
    var wire, part := Wire(json, items), Text(json, item)[..c];
    WireReads(json, items);
    TextHasNoBlank(json, item, c);
    NoBlankSplit(part);
    SplitConcat(wire, part);
    StripOneLine(Split(part).1);
    assert Visible(Lines(part));
    assert Lines(wire + part) == Split(wire).0 + Lines(part);
    ReadConcat(json, Reader([], []), Split(wire).0, Lines(part));
    VisibleIsSilent(json, Read(json, Reader([], []), Split(wire).0), Lines(part));
    ReadConcat(json, Reader([], []), Split(wire).0, Split(part).0);
    VisibleIsSilent(json, Read(json, Reader([], []), Split(wire).0), Split(part).0);
  }
}

/** The same stream as bytes, which is where a connection really breaks. */
module SseBytes {
  import opened Basics
  import opened Sse
  import Utf8

  /** Complete raw lines, each with its newline, and the bytes after the last newline. */
  function SplitBytes(b: bytes): (seq<bytes>, bytes) {
    if b == [] then ([], [])
    else
      var (lines, rest) := SplitBytes(b[..|b| - 1]);
      if b[|b| - 1] == 10 then (lines + [rest + [10]], []) else (lines, rest + [b[|b| - 1]])
  }

  /** The raw lines of a body; only one that ended, not one that failed, delivers an unfinished last line. */
  function RawLines(body: bytes, ended: bool): seq<bytes> {
    var (lines, rest) := SplitBytes(body);
    if ended && rest != [] then lines + [rest] else lines
  }

  /** `Raised` is the decoding error of a raw line, which nothing on the way catches. */
  datatype Outcome<M> = Reading(reader: Reader<M>) | Raised(delivered: seq<M>) {
    function Yielded(): seq<M> { if Reading? then reader.yielded else delivered }
  }

  /** One raw line: decoded as UTF-8 and then read as text. */
  function ReadRaw<P(!new), M>(json: Json<P, M>, o: Outcome<M>, raw: bytes): Outcome<M> {
    if o.Raised? then o
    else
      var line := Utf8.Decode(raw);
      if line.None? then Raised(o.reader.yielded) else Reading(ReadLine(json, o.reader, line.value))
  }

  function ReadAll<P(!new), M>(json: Json<P, M>, lines: seq<bytes>): Outcome<M> {
    if lines == [] then Reading(Reader([], [])) else ReadRaw(json, ReadAll(json, lines[..|lines| - 1]), lines[|lines| - 1])
  }

  /** What becomes of one response body. */
  function Receive<P(!new), M>(json: Json<P, M>, body: bytes, ended: bool): Outcome<M> {
    ReadAll(json, RawLines(body, ended))
  }

  function Sent<P(!new), M>(json: Json<P, M>, items: seq<Item<P>>): bytes {
    Utf8.Encode(Wire(json, items))
  }

  /** The client's loop over the raw lines, which an undecodable line ends. */
  method RawEvents<P(!new), M>(json: Json<P, M>, lines: seq<bytes>) returns (yielded: seq<M>, raised: bool)
    ensures yielded == ReadAll(json, lines).Yielded() && raised == ReadAll(json, lines).Raised?
  {
    var dataLines: seq<string> := [];
    yielded, raised := [], false;
    for i := 0 to |lines|
      invariant !raised && ReadAll(json, lines[..i]) == Reading(Reader(dataLines, yielded))
    {
      assert lines[..i + 1][..i] == lines[..i];
      var decoded := Utf8.Decode(lines[i]);
      if decoded.None? {
        raised := true;
        RaisedStays(json, lines, i + 1);
        return;
      }
      var line := StripEnd(decoded.value);
      if line == "" {
        if dataLines != [] {
          var value := json.read(JoinLines(dataLines));
          if value.Some? { yielded := yielded + [value.value]; }
        }
        dataLines := [];
      } else if "data:" <= line {
        dataLines := dataLines + [StripStart(line[5..])];
      }
    }
    assert lines[..|lines|] == lines;
  }

  lemma {:induction false} RaisedStays<P(!new), M>(json: Json<P, M>, lines: seq<bytes>, i: nat)
    requires i <= |lines| && ReadAll(json, lines[..i]).Raised?
    ensures ReadAll(json, lines) == ReadAll(json, lines[..i])
    decreases |lines| - i
  {
    if i < |lines| {
      assert lines[..i + 1][..i] == lines[..i];
      RaisedStays(json, lines, i + 1);
    } else {
      assert lines[..i] == lines;
    }
  }

  function Encoded(lines: seq<string>): (raw: seq<bytes>)
    ensures |raw| == |lines| && forall i | 0 <= i < |lines| :: raw[i] == Utf8.Encode(lines[i])
  {
    seq(|lines|, i requires 0 <= i < |lines| => Utf8.Encode(lines[i]))
  }

  lemma {:induction false} DecodesBack(s: string)
    ensures Utf8.Decode(Utf8.Encode(s)) == Some(s)
  {
    Utf8.DecodeEncoded(s, 'a', 0);
    assert Utf8.Encode(s) + Utf8.EncodeChar('a')[..0] == Utf8.Encode(s);
  }

  lemma {:induction false} ReadEncoded<P(!new), M>(json: Json<P, M>, lines: seq<string>)
    ensures ReadAll(json, Encoded(lines)) == Reading(Read(json, Reader([], []), lines))
    decreases |lines|
  {
    hide ReadLine;
    if lines != [] {
      var n := |lines| - 1;
      ReadEncoded(json, lines[..n]);
      assert Encoded(lines)[..n] == Encoded(lines[..n]);
      DecodesBack(lines[n]);
    }
  }

  lemma {:induction false} SplitMore(b: bytes, more: bytes)
    requires forall i | 0 <= i < |more| :: more[i] != 10
    ensures SplitBytes(b + more) == (SplitBytes(b).0, SplitBytes(b).1 + more)
    decreases |more|
  {
    if more == [] {
      assert b + more == b && SplitBytes(b).1 + [] == SplitBytes(b).1;
    } else {
      assert (b + more)[..|b + more| - 1] == b + more[..|more| - 1];
      SplitMore(b, more[..|more| - 1]);
      assert SplitBytes(b).1 + more == SplitBytes(b).1 + more[..|more| - 1] + [more[|more| - 1]];
    }
  }

  /** Splitting the bytes of a text splits the text. */
  lemma {:induction false} SplitEncoded(text: string)
    ensures SplitBytes(Utf8.Encode(text)) == (Encoded(Split(text).0), Utf8.Encode(Split(text).1))
    decreases |text|
  {
    if text != "" {
      var init, c := text[..|text| - 1], text[|text| - 1];
      var (lines, rest) := Split(init);
      assert text == init + [c];
      Utf8.EncodePush(init, c);
      Utf8.EncodePush(rest, c);
      SplitEncoded(init);
      if c == '\n' {
        var b := Utf8.Encode(init);
        assert (b + [10])[..|b + [10]| - 1] == b;
        assert Encoded(lines + [rest + "\n"]) == Encoded(lines) + [Utf8.Encode(rest) + [10]];
      } else {
        Utf8.NoNewlineInside(c, |Utf8.EncodeChar(c)|);
        SplitMore(Utf8.Encode(init), Utf8.EncodeChar(c));
      }
    }
  }

  lemma {:induction false} ReadPush<P(!new), M>(json: Json<P, M>, lines: seq<bytes>, raw: bytes)
    ensures ReadAll(json, lines + [raw]) == ReadRaw(json, ReadAll(json, lines), raw)
  {
    assert (lines + [raw])[..|lines|] == lines;
  }

  lemma {:induction false} NothingEncoded()
    ensures Utf8.Encode("") == [] && forall s: string | s != "" :: Utf8.Encode(s) != []
  {}

  /** A body that stops on a character boundary is read as its text, with or without its unfinished last line. */
  lemma {:induction false} WholeBody<P(!new), M>(json: Json<P, M>, text: string, ended: bool)
    ensures Receive(json, Utf8.Encode(text), ended).Reading?
    ensures Receive(json, Utf8.Encode(text), ended).Yielded() ==
      if ended then Received(json, text) else Read(json, Reader([], []), Split(text).0).yielded
  {
    hide ReadAll, Read, Split, SplitBytes, Utf8.Decode;
    NothingEncoded();
    var (lines, rest) := Split(text);
    SplitEncoded(text);
    ReadEncoded(json, lines);
    ReadEncoded(json, lines + [rest]);
    assert Encoded(lines + [rest]) == Encoded(lines) + [Utf8.Encode(rest)];
    DecodesBack(rest);
  }

  /** A body that stops inside a character delivers its complete lines, and raises if it ended there. */
  lemma {:induction false} TornBody<P(!new), M>(json: Json<P, M>, text: string, c: char, k: nat, ended: bool)
    requires 0 < k < |Utf8.EncodeChar(c)|
    ensures var o := Receive(json, Utf8.Encode(text) + Utf8.EncodeChar(c)[..k], ended);
      (o.Raised? <==> ended) && o.Yielded() == Read(json, Reader([], []), Split(text).0).yielded
  {
    var (lines, rest) := Split(text);
    var part := Utf8.EncodeChar(c)[..k];
    SplitEncoded(text);
    Utf8.NoNewlineInside(c, k);
    SplitMore(Utf8.Encode(text), part);
    ReadEncoded(json, lines);
    Utf8.DecodeEncoded(rest, c, k);
    ReadPush(json, Encoded(lines), Utf8.Encode(rest) + part);
  }

  /**
   * Break the stream after any `c` bytes. The client has yielded exactly the events that
   * lie wholly before the break, however the body stopped; and its decoding error is
   * raised if and only if the body ended inside a character.
   */
  lemma {:induction false} CutBytes<P(!new), M>(json: Json<P, M>, items: seq<Item<P>>, c: nat, ended: bool) returns (q: nat, m: nat)
    requires Writable(json, items) && c <= |Sent(json, items)|
    ensures Utf8.WholeChars(Wire(json, items), c, q) && Whole(json, items, q, m)
    ensures c == |Sent(json, items)| ==> m == |items|
    ensures var o := Receive(json, Sent(json, items)[..c], ended);
      && o.Yielded() == Meanings(json, items[..m])
      && (o.Raised? <==> ended && |Utf8.Encode(Wire(json, items)[..q])| < c)
  {
    hide Wire, Receive, Meanings, Writable, Split, Read, Received, Whole, Utf8.Encode, Utf8.EncodeChar;
    var wire := Wire(json, items);
    q := Utf8.CutText(wire, c);
    m := CutStream(json, items, q);
    var k := c - |Utf8.Encode(wire[..q])|;
    if k == 0 {
      assert Sent(json, items)[..c] == Utf8.Encode(wire[..q]) by {
        if q < |wire| { assert Utf8.Encode(wire[..q]) + Utf8.EncodeChar(wire[q])[..0] == Utf8.Encode(wire[..q]); }
      }
      WholeBody(json, wire[..q], ended);
    } else {
      TornBody(json, wire[..q], wire[q], k, ended);
    }
  }
}
