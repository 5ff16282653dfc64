/**
 * The journal directory as the writer changes it: segments in creation-time
 * order, the active segment, oldest-first eviction and partial writes.
 * `pages` and `log` are history variables that record which entries were
 * written where; no operation branches on them.
 */
module RawDisk {
  import opened Basics
  import opened RawFrames

  datatype Limits = Limits(maximumBytes: nat, maximumAgeMs: nat, segmentBytes: nat, queueLimit: nat) {
    /** The constructor's checks. */
    predicate Valid() {
      1 <= maximumBytes && 1 <= maximumAgeMs && 1 <= segmentBytes <= maximumBytes && 1 <= queueLimit
    }
  }

  datatype Segment = Segment(name: nat, time: int, data: bytes)

  /** The entries wholly written to a segment, and the entry whose write stopped part-way. */
  datatype Page = Page(whole: seq<Entry>, cut: Option<Entry>)

  datatype Disk = Disk(
    dir: seq<Segment>,
    nextName: nat,
    file: Option<nat>,
    fileName: Option<nat>,
    fileBytes: nat,
    fileTime: int,
    pages: map<nat, Page>,
    log: seq<Entry>)

  type Clock = nat -> int

  function Total(dir: seq<Segment>): nat {
    if dir == [] then 0 else |dir[0].data| + Total(dir[1..])
  }

  predicate Has(dir: seq<Segment>, name: nat) {
    exists i | 0 <= i < |dir| :: dir[i].name == name
  }

  predicate Distinct(dir: seq<Segment>) {
    forall i, j | 0 <= i < j < |dir| :: dir[i].name != dir[j].name
  }

  /** Bytes currently in the named segment, empty when it is not there. */
  function Data(dir: seq<Segment>, name: nat): bytes {
    if dir == [] then [] else if dir[0].name == name then dir[0].data else Data(dir[1..], name)
  }

  function Append(dir: seq<Segment>, name: nat, chunk: bytes): seq<Segment> {
    if dir == [] then []
    else if dir[0].name == name then [dir[0].(data := dir[0].data + chunk)] + dir[1..]
    else [dir[0]] + Append(dir[1..], name, chunk)
  }

  /**
   * A new segment goes in by creation time. Equal times keep the order in which the
   * file system lists them, which need not be that of creation: `ties` of them come first.
   */
  function Insert(dir: seq<Segment>, s: Segment, ties: nat): seq<Segment> {
    if dir == [] || dir[0].time > s.time || (dir[0].time == s.time && ties == 0) then [s] + dir
    else [dir[0]] + Insert(dir[1..], s, if dir[0].time == s.time then ties - 1 else ties)
  }

  function Without(dir: seq<Segment>, names: seq<nat>): seq<Segment> {
    if dir == [] then []
    else if dir[0].name in names then Without(dir[1..], names)
    else [dir[0]] + Without(dir[1..], names)
  }

  /**
   * The names one maintenance pass unlinks, oldest first: it stops at the first
   * segment that is young enough while the remaining total fits, and never
   * unlinks the active segment `keep`. `clock(i)` is the i-th time reading.
   */
  function Doomed(o: Limits, dir: seq<Segment>, total: int, required: nat, keep: Option<nat>, clock: Clock, i: nat): seq<nat> {
    if dir == [] then []
    else if clock(i) - dir[0].time <= o.maximumAgeMs && total + required <= o.maximumBytes then []
    else if keep == Some(dir[0].name) then Doomed(o, dir[1..], total, required, keep, clock, i + 1)
    else [dir[0].name] + Doomed(o, dir[1..], total - |dir[0].data|, required, keep, clock, i + 1)
  }

  function Sweeps(o: Limits, d: Disk, required: nat, clock: Clock): seq<nat> {
    Doomed(o, d.dir, Total(d.dir), required, d.fileName, clock, 0)
  }

  function Min(a: nat, b: nat): nat { if a < b then a else b }

  /** A maintenance pass that got through at most `n` of its unlinks. */
  function Sweep(o: Limits, d: Disk, required: nat, clock: Clock, n: nat): Disk {
    var names := Sweeps(o, d, required, clock);
    d.(dir := Without(d.dir, names[..Min(n, |names|)]))
  }

  function SweepAll(o: Limits, d: Disk, required: nat, clock: Clock): Disk {
    d.(dir := Without(d.dir, Sweeps(o, d, required, clock)))
  }

  /** The previous segment was synced and closed. */
  function Retire(d: Disk): Disk { d.(file := None, fileName := None) }

  /** After a failure the handle is given up, but its name is remembered. */
  function Abandon(d: Disk): Disk { d.(file := None) }

  /** Naming the next segment, before the exclusive open is attempted. */
  function NameNext(d: Disk, now: int): Disk {
    d.(fileTime := now, fileName := Some(d.nextName), nextName := d.nextName + 1)
  }

  /** The exclusive open of the named segment succeeded. */
  function Opened(d: Disk, ties: nat): Disk {
    if d.fileName.None? then d else
    var name := d.fileName.value;
    d.(file := Some(name), fileBytes := 0, dir := Insert(d.dir, Segment(name, d.fileTime, []), ties),
       pages := d.pages[name := Page([], None)])
  }

  function PageOf(pages: map<nat, Page>, name: nat): Page {
    if name in pages then pages[name] else Page([], None)
  }

  /** One write call accepted `n` more bytes of the entry's frame. */
  function Chunk(c: Codec, d: Disk, e: Entry, offset: nat, n: nat): Disk {
    var frame := c.Frame(e);
    if d.file.None? || offset + n > |frame| then d
    else
      var name := d.file.value;
      var page := PageOf(d.pages, name);
      var d' := d.(dir := Append(d.dir, name, frame[offset..offset + n]));
      if offset + n < |frame| then d'.(pages := d.pages[name := page.(cut := Some(e))])
      else d'.(pages := d.pages[name := Page(page.whole + [e], None)],
               fileBytes := d.fileBytes + |frame|, log := d.log + [e])
  }

  // ---------------------------------------------------------------- invariant

  /** Segments of earlier processes have names below `first`. */
  datatype World = World(c: Codec, o: Limits, first: nat) {
    ghost predicate Valid() { c.Lawful() && o.Valid() }

    /** The settings under which the decoder's own bound admits every frame of an admitted record. */
    predicate ReadsBack() {
      o.segmentBytes <= MAX_FRAME + 4 || o.queueLimit + NONCE_BYTES + TAG_BYTES <= MAX_FRAME
    }

    /** Admission lets this record into the queue; sequence numbers start at one. */
    predicate Admits(e: Entry) { e.sequence >= 1 && c.Length(e) <= o.queueLimit }

    /** The writer accepts this frame for a segment. */
    predicate Fits(e: Entry) {
      c.Framable(e) && c.FrameSize(e) + 4 <= o.segmentBytes
    }
  }

  predicate AllFit(w: World, es: seq<Entry>) {
    forall i | 0 <= i < |es| :: w.Fits(es[i])
  }

  predicate AllAdmitted(w: World, es: seq<Entry>) {
    forall i | 0 <= i < |es| :: w.Admits(es[i])
  }

  /** The entries a segment's bytes were cut from. */
  function Source(page: Page): seq<Entry> {
    page.whole + match page.cut case None => [] case Some(e) => [e]
  }

  lemma {:induction false} FitIsReadable(w: World, es: seq<Entry>)
    requires w.ReadsBack() && AllFit(w, es) && AllAdmitted(w, es)
    ensures w.c.AllReadable(es)
  {}

  /** Whole frames, then at most one strict part of a frame. */
  ghost predicate Written(w: World, data: bytes, page: Page)
    requires w.Valid()
  {
    && AllFit(w, page.whole)
    && var base := w.c.Frames(page.whole);
       match page.cut
       case None => data == base
       case Some(e) =>
         && w.Fits(e)
         && |base| < |data| < |base| + |w.c.Frame(e)|
         && data == base + w.c.Frame(e)[..|data| - |base|]
  }

  ghost predicate SegmentOk(w: World, d: Disk, s: Segment)
    requires w.Valid()
  {
    && s.name < d.nextName
    && (s.name >= w.first ==>
          s.name in d.pages && Written(w, s.data, d.pages[s.name]) && |s.data| <= w.o.segmentBytes)
  }

  ghost predicate DiskOk(w: World, d: Disk)
    requires w.Valid()
  {
    && w.first <= d.nextName
    && (forall s | s in d.dir :: SegmentOk(w, d, s))
    && Distinct(d.dir)
    && Total(d.dir) <= w.o.maximumBytes
    && (d.fileName.Some? ==> d.fileName.value < d.nextName)
    && (d.file.Some? ==>
          && d.fileName == d.file && d.file.value >= w.first && Has(d.dir, d.file.value)
          && Total(d.dir) - |Data(d.dir, d.file.value)| + w.o.segmentBytes <= w.o.maximumBytes)
  }

  /** Between frames: the active segment ends on a frame boundary. */
  ghost predicate Settled(d: Disk) {
    d.file.Some? ==>
      && d.file.value in d.pages && d.pages[d.file.value].cut == None
      && d.fileBytes == |Data(d.dir, d.file.value)|
  }

  /** During a frame: exactly `offset` of its bytes follow the last whole frame. */
  ghost predicate Midway(w: World, d: Disk, e: Entry, offset: nat)
    requires w.Valid()
  {
    && w.Fits(e)
    && d.file.Some? && d.file.value in d.pages
    && d.fileBytes + |w.c.Frame(e)| <= w.o.segmentBytes
    && offset < |w.c.Frame(e)|
    && |Data(d.dir, d.file.value)| == d.fileBytes + offset
    && AllFit(w, d.pages[d.file.value].whole)
    && d.fileBytes == |w.c.Frames(d.pages[d.file.value].whole)|
    && d.pages[d.file.value].cut == (if offset == 0 then None else Some(e))
  }

  // ------------------------------------------------------------------- lemmas

  lemma {:induction false} DataOf(dir: seq<Segment>, i: nat)
    requires i < |dir|
    requires Distinct(dir)
    ensures Data(dir, dir[i].name) == dir[i].data && Has(dir, dir[i].name)
  {
    if i > 0 { DataOf(dir[1..], i - 1); }
  }

  lemma {:induction false} AppendEffect(dir: seq<Segment>, name: nat, chunk: bytes)
    requires Has(dir, name)
    requires Distinct(dir)
    ensures |Append(dir, name, chunk)| == |dir|
    ensures forall i | 0 <= i < |dir| ::
      Append(dir, name, chunk)[i] ==
      if dir[i].name == name then dir[i].(data := dir[i].data + chunk) else dir[i]
    ensures Total(Append(dir, name, chunk)) == Total(dir) + |chunk|
    ensures Data(Append(dir, name, chunk), name) == Data(dir, name) + chunk
  {
    if dir[0].name != name {
      assert Has(dir[1..], name) by {
        var i :| 0 <= i < |dir| && dir[i].name == name;
        assert dir[1..][i - 1].name == name;
      }
      AppendEffect(dir[1..], name, chunk);
    }
  }

  function Place(dir: seq<Segment>, time: int, ties: nat): (at: nat)
    ensures at <= |dir|
  {
    if dir == [] || dir[0].time > time || (dir[0].time == time && ties == 0) then 0
    else 1 + Place(dir[1..], time, if dir[0].time == time then ties - 1 else ties)
  }

  lemma {:induction false} InsertPlace(dir: seq<Segment>, s: Segment, ties: nat)
    ensures var at := Place(dir, s.time, ties); Insert(dir, s, ties) == dir[..at] + [s] + dir[at..]
  {
    var at := Place(dir, s.time, ties);
    if at == 0 {
      assert dir[..0] + [s] + dir[0..] == [s] + dir;
    } else {
      InsertPlace(dir[1..], s, if dir[0].time == s.time then ties - 1 else ties);
      assert dir[..at] + [s] + dir[at..] == [dir[0]] + (dir[1..][..at - 1] + [s] + dir[1..][at - 1..]);
    }
  }

  lemma {:induction false} InsertTotal(dir: seq<Segment>, s: Segment, ties: nat)
    ensures Total(Insert(dir, s, ties)) == Total(dir) + |s.data|
  {
    if dir == [] || dir[0].time > s.time || (dir[0].time == s.time && ties == 0) {
      assert ([s] + dir)[1..] == dir;
    } else {
      var left := if dir[0].time == s.time then ties - 1 else ties;
      InsertTotal(dir[1..], s, left);
      assert Insert(dir, s, ties)[1..] == Insert(dir[1..], s, left);
    }
  }

  lemma {:induction false} WithoutSubset(dir: seq<Segment>, names: seq<nat>)
    ensures Total(Without(dir, names)) <= Total(dir)
    ensures forall s | s in Without(dir, names) :: s in dir
  {
    if dir != [] { WithoutSubset(dir[1..], names); }
  }

  lemma {:induction false} WithoutDistinct(dir: seq<Segment>, names: seq<nat>)
    requires Distinct(dir)
    ensures Distinct(Without(dir, names))
  {
    if dir != [] {
      assert Distinct(dir[1..]);
      WithoutDistinct(dir[1..], names);
      var rest := Without(dir[1..], names);
      WithoutSubset(dir[1..], names);
      forall i | 0 <= i < |rest| ensures rest[i].name != dir[0].name {
        assert rest[i] in dir[1..];
      }
    }
  }

  /** A segment that is not unlinked stays, with its bytes and its share of the total. */
  lemma {:induction false} WithoutKeeps(dir: seq<Segment>, names: seq<nat>, keep: nat)
    requires Has(dir, keep) && keep !in names
    ensures Has(Without(dir, names), keep)
    ensures Data(Without(dir, names), keep) == Data(dir, keep)
    ensures Total(Without(dir, names)) - |Data(Without(dir, names), keep)| <= Total(dir) - |Data(dir, keep)|
  {
    WithoutSubset(dir[1..], names);
    var rest := Without(dir[1..], names);
    if dir[0].name == keep {
      assert Without(dir, names)[0].name == keep;
    } else {
      assert Has(dir[1..], keep) by {
        var i :| 0 <= i < |dir| && dir[i].name == keep;
        assert dir[1..][i - 1].name == keep;
      }
      WithoutKeeps(dir[1..], names, keep);
      if dir[0].name !in names {
        var i :| 0 <= i < |rest| && rest[i].name == keep;
        assert Without(dir, names)[i + 1].name == keep;
      }
    }
  }

  lemma {:induction false} DoomedSparesActive(o: Limits, dir: seq<Segment>, total: int, required: nat, keep: nat, clock: Clock, i: nat)
    ensures keep !in Doomed(o, dir, total, required, Some(keep), clock, i)
  {
    if dir != [] {
      DoomedSparesActive(o, dir[1..], total, required, keep, clock, i + 1);
      DoomedSparesActive(o, dir[1..], total - |dir[0].data|, required, keep, clock, i + 1);
    }
  }

  lemma {:induction false} DoomedNames(o: Limits, dir: seq<Segment>, total: int, required: nat, keep: Option<nat>, clock: Clock, i: nat)
    ensures forall n | n in Doomed(o, dir, total, required, keep, clock, i) :: Has(dir, n)
  {
    if dir != [] {
      DoomedNames(o, dir[1..], total, required, keep, clock, i + 1);
      DoomedNames(o, dir[1..], total - |dir[0].data|, required, keep, clock, i + 1);
      forall n | Has(dir[1..], n) ensures Has(dir, n) {
        var k :| 0 <= k < |dir[1..]| && dir[1..][k].name == n;
        assert dir[k + 1].name == n;
      }
      assert Has(dir, dir[0].name);
    }
  }

  lemma {:induction false} WithoutCons(dir: seq<Segment>, name: nat, names: seq<nat>)
    requires forall i | 0 <= i < |dir| :: dir[i].name != name
    ensures Without(dir, [name] + names) == Without(dir, names)
  {
    if dir != [] { WithoutCons(dir[1..], name, names); }
  }

  /** With nothing to spare, a full pass leaves room for `required` more bytes. */
  lemma {:induction false} SweepMakesRoom(o: Limits, dir: seq<Segment>, required: nat, clock: Clock, i: nat)
    requires required <= o.maximumBytes
    requires Distinct(dir)
    ensures Total(Without(dir, Doomed(o, dir, Total(dir), required, None, clock, i))) + required <= o.maximumBytes
  {
    if dir == [] {
    } else if clock(i) - dir[0].time <= o.maximumAgeMs && Total(dir) + required <= o.maximumBytes {
      WithoutSubset(dir, []);
    } else {
      var rest := Doomed(o, dir[1..], Total(dir[1..]), required, None, clock, i + 1);
      WithoutCons(dir[1..], dir[0].name, rest);
      SweepMakesRoom(o, dir[1..], required, clock, i + 1);
    }
  }

  lemma {:induction false} SweepKeepsDisk(w: World, d: Disk, required: nat, clock: Clock, n: nat)
    requires w.Valid() && DiskOk(w, d)
    ensures DiskOk(w, Sweep(w.o, d, required, clock, n))
    ensures Total(Sweep(w.o, d, required, clock, n).dir) <= Total(d.dir)
    ensures d.file.Some? ==> Data(Sweep(w.o, d, required, clock, n).dir, d.file.value) == Data(d.dir, d.file.value)
  {
    var names := Sweeps(w.o, d, required, clock);
    var some := names[..Min(n, |names|)];
    WithoutSubset(d.dir, some);
    WithoutDistinct(d.dir, some);
    var d' := Sweep(w.o, d, required, clock, n);
    forall s | s in d'.dir ensures SegmentOk(w, d', s) {
      assert SegmentOk(w, d, s);
    }
    if d.file.Some? {
      DoomedSparesActive(w.o, d.dir, Total(d.dir), required, d.file.value, clock, 0);
      WithoutKeeps(d.dir, some, d.file.value);
    }
  }

  lemma {:induction false} SweepAllIsSweep(w: World, d: Disk, required: nat, clock: Clock)
    ensures SweepAll(w.o, d, required, clock) == Sweep(w.o, d, required, clock, |Sweeps(w.o, d, required, clock)|)
  {
    var names := Sweeps(w.o, d, required, clock);
    assert names[..|names|] == names;
  }

  lemma {:induction false} InsertDistinct(dir: seq<Segment>, s: Segment, at: nat)
    requires Distinct(dir) && at <= |dir| && forall t | t in dir :: t.name != s.name
    ensures Distinct(dir[..at] + [s] + dir[at..])
  {
    var r := dir[..at] + [s] + dir[at..];
    forall i, j | 0 <= i < j < |r| ensures r[i].name != r[j].name {
      if i == at { assert r[j] in dir; }
      if j == at { assert r[i] in dir; }
    }
  }

  lemma {:induction false} EmptyWritten(w: World)
    requires w.Valid()
    ensures Written(w, [], Page([], None))
  {
    assert w.c.Frames([]) == [];
  }

  /** What creating a segment does to the directory and the history. */
  lemma {:induction false} CreateEffect(d: Disk, now: int, ties: nat) returns (at: nat)
    requires d.file.None? && Distinct(d.dir) && forall t | t in d.dir :: t.name < d.nextName
    ensures var d' := Opened(NameNext(d, now), ties); var s := Segment(d.nextName, now, []);
      && at < |d'.dir| && d'.dir[at] == s && Distinct(d'.dir) && Total(d'.dir) == Total(d.dir)
      && (forall t | t in d'.dir :: t == s || t in d.dir)
      && d'.pages == d.pages[s.name := Page([], None)] && d'.nextName == d.nextName + 1
      && d'.file == Some(s.name) && d'.fileName == d'.file && d'.fileBytes == 0 && d'.log == d.log
  {
    var s := Segment(d.nextName, now, []);
    at := Place(d.dir, now, ties);
    InsertPlace(d.dir, s, ties);
    InsertTotal(d.dir, s, ties);
    assert Opened(NameNext(d, now), ties).dir == d.dir[..at] + [s] + d.dir[at..];
    InsertDistinct(d.dir, s, at);
  }

  lemma {:induction false} CreateSegments(w: World, d: Disk, d': Disk, s: Segment)
    requires w.Valid() && forall t | t in d.dir :: SegmentOk(w, d, t)
    requires d'.pages == d.pages[s.name := Page([], None)] && s.name == d.nextName < d'.nextName && s.data == []
    requires forall t | t in d'.dir :: t == s || t in d.dir
    ensures forall t | t in d'.dir :: SegmentOk(w, d', t)
  {
    hide Written;
    EmptyWritten(w);
    forall t | t in d'.dir ensures SegmentOk(w, d', t) {
      if t != s { assert SegmentOk(w, d, t); }
    }
  }

  lemma {:induction false} CreateKeepsDisk(w: World, d: Disk, now: int, ties: nat)
    requires w.Valid() && DiskOk(w, d) && d.file.None?
    requires Total(d.dir) + w.o.segmentBytes <= w.o.maximumBytes
    ensures var d' := Opened(NameNext(d, now), ties);
      DiskOk(w, d') && Settled(d') && d'.file.Some? && d'.fileBytes == 0 && d'.log == d.log
  {
    hide Opened, NameNext, Distinct, SegmentOk, Total;
    forall t | t in d.dir ensures t.name < d.nextName { NamedBelow(w, d, t); }
    var at := CreateEffect(d, now, ties);
    var d' := Opened(NameNext(d, now), ties);
    CreateSegments(w, d, d', d'.dir[at]);
    DataOf(d'.dir, at);
  }

  lemma {:induction false} NamedBelow(w: World, d: Disk, t: Segment)
    requires w.Valid() && SegmentOk(w, d, t)
    ensures t.name < d.nextName
  {}

  /** Opening after a full pass that reserved a whole segment. */
  lemma {:induction false} OpenKeepsDisk(w: World, d: Disk, clock: Clock, now: int, ties: nat)
    requires w.Valid() && DiskOk(w, d) && d.file.None? && d.fileName.None?
    ensures var d' := Opened(NameNext(SweepAll(w.o, d, w.o.segmentBytes, clock), now), ties);
      DiskOk(w, d') && Settled(d') && d'.file.Some? && d'.fileBytes == 0 && d'.log == d.log
  {
    SweepAllIsSweep(w, d, w.o.segmentBytes, clock);
    SweepKeepsDisk(w, d, w.o.segmentBytes, clock, |Sweeps(w.o, d, w.o.segmentBytes, clock)|);
    SweepMakesRoom(w.o, d.dir, w.o.segmentBytes, clock, 0);
    CreateKeepsDisk(w, SweepAll(w.o, d, w.o.segmentBytes, clock), now, ties);
  }

  lemma {:induction false} BeginFrame(w: World, d: Disk, e: Entry)
    requires w.Valid() && DiskOk(w, d) && Settled(d) && d.file.Some? && w.Fits(e)
    requires d.fileBytes + |w.c.Frame(e)| <= w.o.segmentBytes
    ensures Midway(w, d, e, 0)
  {
    FrameLength(w.c, e);
    var i :| 0 <= i < |d.dir| && d.dir[i].name == d.file.value;
    assert SegmentOk(w, d, d.dir[i]);
    DataOf(d.dir, i);
  }

  /** Appending a chunk to a well-written segment, as the page records it. */
  lemma {:induction false} ChunkWritten(w: World, data: bytes, page: Page, e: Entry, offset: nat, n: nat)
    requires w.Valid() && Written(w, data, page) && w.Fits(e)
    requires page.cut == (if offset == 0 then None else Some(e))
    requires 0 < n && offset + n <= |w.c.Frame(e)|
    requires |data| == |w.c.Frames(page.whole)| + offset
    ensures var data' := data + w.c.Frame(e)[offset..offset + n];
      Written(w, data', if offset + n < |w.c.Frame(e)| then page.(cut := Some(e)) else Page(page.whole + [e], None))
  {
    hide Codec.Lawful, Codec.Frame, Codec.Frames;
    var base, frame := w.c.Frames(page.whole), w.c.Frame(e);
    assert data == base + frame[..offset];
    BytesExtend(data, base, frame, offset, n);
    if offset + n == |frame| { FramesAppend(w.c, page.whole, e); }
  }

  lemma {:induction false} BytesExtend(data: bytes, base: bytes, frame: bytes, offset: nat, n: nat)
    requires offset + n <= |frame| && data == base + frame[..offset]
    ensures data + frame[offset..offset + n] == base + frame[..offset + n]
    ensures offset + n == |frame| ==> data + frame[offset..offset + n] == base + frame
  {
    assert frame[..offset] + frame[offset..offset + n] == frame[..offset + n];
    assert frame[..|frame|] == frame;
  }

  lemma {:induction false} AppendAt(dir: seq<Segment>, name: nat, chunk: bytes) returns (at: nat)
    requires Has(dir, name) && Distinct(dir)
    ensures var dir' := Append(dir, name, chunk);
      && at < |dir| == |dir'| && dir[at].name == name
      && (forall i | 0 <= i < |dir| && i != at :: dir'[i] == dir[i] && dir[i].name != name)
      && dir'[at] == Segment(name, dir[at].time, dir[at].data + chunk)
      && Total(dir') == Total(dir) + |chunk|
      && Data(dir, name) == dir[at].data && Data(dir', name) == dir'[at].data
  {
    AppendEffect(dir, name, chunk);
    at :| 0 <= at < |dir| && dir[at].name == name;
    DataOf(dir, at);
  }

  /** The active segment before and after one chunk. */
  lemma {:induction false} ChunkActive(w: World, d: Disk, e: Entry, offset: nat, n: nat) returns (at: nat)
    requires w.Valid() && DiskOk(w, d) && Midway(w, d, e, offset)
    requires 0 < n && offset + n <= |w.c.Frame(e)|
    ensures var d' := Chunk(w.c, d, e, offset, n); var name := d.file.value;
      && at < |d.dir| == |d'.dir| && d.dir[at].name == name
      && (forall i | 0 <= i < |d.dir| && i != at :: d'.dir[i] == d.dir[i] && d.dir[i].name != name)
      && d'.dir[at] == Segment(name, d.dir[at].time, d.dir[at].data + w.c.Frame(e)[offset..offset + n])
      && Total(d'.dir) == Total(d.dir) + n
      && Data(d.dir, name) == d.dir[at].data && Data(d'.dir, name) == d'.dir[at].data
  {
    var chunk := w.c.Frame(e)[offset..offset + n];
    assert |chunk| == n;
    at := AppendAt(d.dir, d.file.value, chunk);
    assert Chunk(w.c, d, e, offset, n).dir == Append(d.dir, d.file.value, chunk);
  }

  lemma {:induction false} ChunkSegments(w: World, d: Disk, e: Entry, offset: nat, n: nat)
    requires w.Valid() && DiskOk(w, d) && Midway(w, d, e, offset)
    requires 0 < n && offset + n <= |w.c.Frame(e)|
    ensures var d' := Chunk(w.c, d, e, offset, n); forall s | s in d'.dir :: SegmentOk(w, d', s)
  {
    var at := ChunkActive(w, d, e, offset, n);
    var d' := Chunk(w.c, d, e, offset, n);
    assert SegmentOk(w, d, d.dir[at]);
    ChunkWritten(w, d.dir[at].data, d.pages[d.file.value], e, offset, n);
    forall s | s in d'.dir ensures SegmentOk(w, d', s) {
      var i :| 0 <= i < |d'.dir| && d'.dir[i] == s;
      assert SegmentOk(w, d, d.dir[i]);
    }
  }

  /** A partial or final write keeps every segment well formed and within budget. */
  lemma {:induction false} ChunkKeepsDisk(w: World, d: Disk, e: Entry, offset: nat, n: nat)
    requires w.Valid() && DiskOk(w, d) && Midway(w, d, e, offset)
    requires 0 < n && offset + n <= |w.c.Frame(e)|
    ensures DiskOk(w, Chunk(w.c, d, e, offset, n))
  {
    var at := ChunkActive(w, d, e, offset, n);
    ChunkSegments(w, d, e, offset, n);
    var d' := Chunk(w.c, d, e, offset, n);
    forall i, j | 0 <= i < j < |d'.dir| ensures d'.dir[i].name != d'.dir[j].name {
      assert d.dir[i].name != d.dir[j].name;
    }
    assert d'.dir[at].name == d.file.value;
  }

  lemma {:induction false} ChunkProgress(w: World, d: Disk, e: Entry, offset: nat, n: nat)
    requires w.Valid() && DiskOk(w, d) && Midway(w, d, e, offset)
    requires 0 < n && offset + n <= |w.c.Frame(e)|
    ensures var d' := Chunk(w.c, d, e, offset, n);
      && (offset + n < |w.c.Frame(e)| ==> Midway(w, d', e, offset + n) && d'.log == d.log)
      && (offset + n == |w.c.Frame(e)| ==> Settled(d') && d'.log == d.log + [e])
  {
    var at := ChunkActive(w, d, e, offset, n);
  }
}
