/**
 * Oldest-first retention: when every new segment gets a later creation time
 * than those present, eviction removes a prefix of the directory and what
 * survives of this session is a suffix of everything it wrote.
 */
module RawOrder {
  import opened Basics
  import opened RawFrames
  import opened RawDisk

  predicate Suffix<T(==)>(a: seq<T>, b: seq<T>) {
    |a| <= |b| && a == b[|b| - |a|..]
  }

  /** Entries of this session wholly present in one segment. */
  function Kept(first: nat, pages: map<nat, Page>, s: Segment): seq<Entry> {
    if s.name >= first && s.name in pages then pages[s.name].whole else []
  }

  /** Entries of this session present in the directory, oldest segment first. */
  function Survivors(first: nat, pages: map<nat, Page>, dir: seq<Segment>): seq<Entry> {
    if dir == [] then [] else Kept(first, pages, dir[0]) + Survivors(first, pages, dir[1..])
  }

  ghost predicate Chronological(d: Disk) {
    && (forall i, j | 0 <= i < j < |d.dir| :: d.dir[i].time < d.dir[j].time && d.dir[i].name < d.dir[j].name)
    && (forall i | 0 <= i < |d.dir| :: d.dir[i].name < d.nextName)
    && (d.fileName.Some? ==> d.fileName.value + 1 == d.nextName)
    && (d.file.Some? ==> d.file == d.fileName)
  }

  ghost predicate Retained(first: nat, d: Disk) {
    Chronological(d) && Suffix(Survivors(first, d.pages, d.dir), d.log)
  }

  lemma {:induction false} SuffixDrops<T>(a: seq<T>, b: seq<T>, k: nat)
    requires Suffix(a, b) && k <= |a|
    ensures Suffix(a[k..], b)
  {}

  lemma {:induction false} SurvivorsConcat(first: nat, pages: map<nat, Page>, xs: seq<Segment>, ys: seq<Segment>)
    ensures Survivors(first, pages, xs + ys) == Survivors(first, pages, xs) + Survivors(first, pages, ys)
  {
    if xs == [] {
      assert xs + ys == ys;
    } else {
      assert (xs + ys)[1..] == xs[1..] + ys;
      SurvivorsConcat(first, pages, xs[1..], ys);
    }
  }

  lemma {:induction false} SurvivorsUnaffected(first: nat, pages: map<nat, Page>, dir: seq<Segment>, name: nat, page: Page)
    requires forall i | 0 <= i < |dir| :: dir[i].name != name
    ensures Survivors(first, pages[name := page], dir) == Survivors(first, pages, dir)
  {
    if dir != [] { SurvivorsUnaffected(first, pages, dir[1..], name, page); }
  }

  function Names(dir: seq<Segment>): (names: seq<nat>)
    ensures |names| == |dir|
  {
    if dir == [] then [] else [dir[0].name] + Names(dir[1..])
  }

  lemma {:induction false} NamesTake(dir: seq<Segment>, k: nat)
    requires k <= |dir|
    ensures Names(dir)[..k] == Names(dir[..k])
  {
    if k > 0 {
      NamesTake(dir[1..], k - 1);
      assert dir[..k][1..] == dir[1..][..k - 1];
      assert Names(dir)[..k] == [dir[0].name] + Names(dir[1..])[..k - 1];
    }
  }

  /** A pass over an ordered directory dooms its `m` oldest segments, never the newest active one. */
  lemma {:induction false} DoomedIsOldest(o: Limits, dir: seq<Segment>, total: int, required: nat, keep: Option<nat>, clock: Clock, i: nat)
    returns (m: nat)
    requires forall k | 0 <= k < |dir| - 1 :: keep != Some(dir[k].name)
    ensures m <= |dir| && Doomed(o, dir, total, required, keep, clock, i) == Names(dir[..m])
  {
    if dir == [] || (clock(i) - dir[0].time <= o.maximumAgeMs && total + required <= o.maximumBytes) {
      m := 0;
    } else if keep == Some(dir[0].name) {
      assert dir[1..] == [];
      m := 0;
    } else {
      var rest := DoomedIsOldest(o, dir[1..], total - |dir[0].data|, required, keep, clock, i + 1);
      m := rest + 1;
      assert dir[..m][1..] == dir[1..][..rest];
    }
  }

  lemma {:induction false} WithoutForeign(dir: seq<Segment>, names: seq<nat>)
    requires forall s | s in dir :: s.name !in names
    ensures Without(dir, names) == dir
  {
    if dir != [] { WithoutForeign(dir[1..], names); }
  }

  lemma {:induction false} NamesMiss(dir: seq<Segment>, n: nat)
    requires forall i | 0 <= i < |dir| :: dir[i].name != n
    ensures n !in Names(dir)
  {
    if dir != [] { NamesMiss(dir[1..], n); }
  }

  lemma {:induction false} WithoutPrefix(xs: seq<Segment>, ys: seq<Segment>, names: seq<nat>)
    requires forall s | s in xs :: s.name in names
    ensures Without(xs + ys, names) == Without(ys, names)
  {
    if xs == [] {
      assert xs + ys == ys;
    } else {
      assert (xs + ys)[1..] == xs[1..] + ys;
      WithoutPrefix(xs[1..], ys, names);
    }
  }

  lemma {:induction false} NamesHas(dir: seq<Segment>)
    ensures forall s | s in dir :: s.name in Names(dir)
  {
    if dir != [] { NamesHas(dir[1..]); }
  }

  lemma {:induction false} DropOldest(dir: seq<Segment>, k: nat)
    requires k <= |dir| && Distinct(dir)
    ensures Without(dir, Names(dir[..k])) == dir[k..]
  {
    var names := Names(dir[..k]);
    assert dir == dir[..k] + dir[k..];
    NamesHas(dir[..k]);
    WithoutPrefix(dir[..k], dir[k..], names);
    forall j | k <= j < |dir| ensures dir[j].name !in names {
      NamesMiss(dir[..k], dir[j].name);
    }
    WithoutForeign(dir[k..], names);
  }

  /** Eviction, complete or interrupted, removes an oldest-first prefix. */
  lemma {:induction false} SweepIsOldestFirst(o: Limits, d: Disk, required: nat, clock: Clock, n: nat) returns (k: nat)
    requires Chronological(d)
    ensures k <= |d.dir| && Sweep(o, d, required, clock, n).dir == d.dir[k..]
  {
    forall i | 0 <= i < |d.dir| - 1 ensures d.fileName != Some(d.dir[i].name) {
      assert d.dir[i].name < d.dir[i + 1].name < d.nextName;
    }
    var m := DoomedIsOldest(o, d.dir, Total(d.dir), required, d.fileName, clock, 0);
    k := Min(n, m);
    NamesTake(d.dir[..m], k);
    assert d.dir[..m][..k] == d.dir[..k];
    DropOldest(d.dir, k);
  }

  lemma {:induction false} SweepRetains(o: Limits, first: nat, d: Disk, required: nat, clock: Clock, n: nat)
    requires Retained(first, d)
    ensures Retained(first, Sweep(o, d, required, clock, n))
  {
    var k := SweepIsOldestFirst(o, d, required, clock, n);
    assert d.dir == d.dir[..k] + d.dir[k..];
    SurvivorsConcat(first, d.pages, d.dir[..k], d.dir[k..]);
    var gone := Survivors(first, d.pages, d.dir[..k]);
    SuffixDrops(Survivors(first, d.pages, d.dir), d.log, |gone|);
  }

  lemma {:induction false} CreateRetains(first: nat, d: Disk, now: int, ties: nat)
    requires Retained(first, d) && d.file.None?
    requires forall i | 0 <= i < |d.dir| :: d.dir[i].time < now
    ensures Retained(first, Opened(NameNext(d, now), ties))
  {
    var s := Segment(d.nextName, now, []);
    var d' := Opened(NameNext(d, now), ties);
    InsertLast(d.dir, s, ties);
    LastSurvivors(first, d'.pages, d.dir, s);
    SurvivorsUnaffected(first, d.pages, d.dir, d.nextName, Page([], None));
    assert Survivors(first, d'.pages, d'.dir) == Survivors(first, d.pages, d.dir);
  }

  lemma {:induction false} InsertLast(dir: seq<Segment>, s: Segment, ties: nat)
    requires forall i | 0 <= i < |dir| :: dir[i].time < s.time
    ensures Insert(dir, s, ties) == dir + [s]
  {
    if dir != [] {
      InsertLast(dir[1..], s, ties);
      assert dir + [s] == [dir[0]] + (dir[1..] + [s]);
    }
  }

  /** Only the newest segment's page changes, by `extra` entries at its end. */
  lemma {:induction false} NewestGrows(first: nat, pages: map<nat, Page>, older: seq<Segment>, s: Segment, s': Segment, page': Page, extra: seq<Entry>)
    requires s.name >= first && s.name == s'.name && s.name in pages
    requires page'.whole == pages[s.name].whole + extra
    requires forall i | 0 <= i < |older| :: older[i].name != s.name
    ensures Survivors(first, pages[s.name := page'], older + [s']) == Survivors(first, pages, older + [s]) + extra
  {
    LastSurvivors(first, pages, older, s);
    LastSurvivors(first, pages[s.name := page'], older, s');
    SurvivorsUnaffected(first, pages, older, s.name, page');
  }

  lemma {:induction false} ChunkSurvivors(w: World, d: Disk, e: Entry, offset: nat, n: nat)
    requires w.Valid() && DiskOk(w, d) && Midway(w, d, e, offset) && Chronological(d)
    requires 0 < n && offset + n <= |w.c.Frame(e)|
    ensures var d' := Chunk(w.c, d, e, offset, n);
      Survivors(w.first, d'.pages, d'.dir) ==
      Survivors(w.first, d.pages, d.dir) + if offset + n == |w.c.Frame(e)| then [e] else []
  {
    var d' := Chunk(w.c, d, e, offset, n);
    var name := d.file.value;
    var extra := if offset + n == |w.c.Frame(e)| then [e] else [];
    var older, s, s' := ChunkNewest(w, d, e, offset, n);
    assert d'.pages == d.pages[name := d'.pages[name]] && d'.pages[name].whole == d.pages[name].whole + extra;
    NewestGrows(w.first, d.pages, older, s, s', d'.pages[name], extra);
  }

  lemma {:induction false} ChunkNewest(w: World, d: Disk, e: Entry, offset: nat, n: nat)
    returns (older: seq<Segment>, s: Segment, s': Segment)
    requires w.Valid() && DiskOk(w, d) && Midway(w, d, e, offset) && Chronological(d)
    requires 0 < n && offset + n <= |w.c.Frame(e)|
    ensures d.dir == older + [s] && Chunk(w.c, d, e, offset, n).dir == older + [s']
    ensures s.name == s'.name == d.file.value
    ensures forall i | 0 <= i < |older| :: older[i].name != s.name
  {
    var at := ChunkActive(w, d, e, offset, n);
    var dir' := Chunk(w.c, d, e, offset, n).dir;
    assert d.dir[at].name <= d.dir[|d.dir| - 1].name < d.nextName;
    assert at == |d.dir| - 1;
    older, s, s' := d.dir[..at], d.dir[at], dir'[at];
    assert dir' == older + [s'];
  }

  lemma {:induction false} ChunkChronological(w: World, d: Disk, e: Entry, offset: nat, n: nat)
    requires w.Valid() && DiskOk(w, d) && Midway(w, d, e, offset) && Chronological(d)
    requires 0 < n && offset + n <= |w.c.Frame(e)|
    ensures Chronological(Chunk(w.c, d, e, offset, n))
  {
    var at := ChunkActive(w, d, e, offset, n);
    var d' := Chunk(w.c, d, e, offset, n);
    assert forall i | 0 <= i < |d.dir| :: d'.dir[i].time == d.dir[i].time && d'.dir[i].name == d.dir[i].name;
  }

  lemma {:induction false} LastSurvivors(first: nat, pages: map<nat, Page>, older: seq<Segment>, s: Segment)
    ensures Survivors(first, pages, older + [s]) == Survivors(first, pages, older) + Kept(first, pages, s)
  {
    SurvivorsConcat(first, pages, older, [s]);
    assert Survivors(first, pages, [s]) == Kept(first, pages, s) + Survivors(first, pages, []);
  }

  lemma {:induction false} ChunkRetains(w: World, d: Disk, e: Entry, offset: nat, n: nat)
    requires w.Valid() && DiskOk(w, d) && Midway(w, d, e, offset) && Retained(w.first, d)
    requires 0 < n && offset + n <= |w.c.Frame(e)|
    ensures Retained(w.first, Chunk(w.c, d, e, offset, n))
  {
    hide DiskOk, Survivors;
    ChunkSurvivors(w, d, e, offset, n);
    ChunkChronological(w, d, e, offset, n);
  }

  /** What decoding every surviving segment of this session yields, in order. */
  function DecodeAll(w: World, dir: seq<Segment>): Result<seq<Entry>, DecodeError> {
    if dir == [] then Ok([])
    else if dir[0].name < w.first then DecodeAll(w, dir[1..])
    else
      match Decode(w.c, dir[0].data)
      case Err(error) => Err(error)
      case Ok(head) =>
        match DecodeAll(w, dir[1..])
        case Err(error) => Err(error)
        case Ok(tail) => Ok(head.records + tail)
  }

  lemma {:induction false} SourceReadable(w: World, page: Page)
    requires w.ReadsBack() && AllFit(w, Source(page)) && AllAdmitted(w, Source(page))
    ensures w.c.AllReadable(page.whole) && (page.cut.Some? ==> w.c.Readable(page.cut.value))
  {
    var all := Source(page);
    FitIsReadable(w, all);
    forall i | 0 <= i < |page.whole| ensures w.c.Readable(page.whole[i]) { assert all[i] == page.whole[i]; }
    if page.cut.Some? { assert all[|page.whole|] == page.cut.value; }
  }

  /** A well-written segment decodes to its whole frames, and flags a torn last frame. */
  lemma {:induction false} DecodeWritten(w: World, data: bytes, page: Page)
    requires w.Valid() && w.ReadsBack() && Written(w, data, page) && AllAdmitted(w, Source(page))
    ensures Decode(w.c, data) == Ok(Decoded(page.whole, page.cut.Some?))
  {
    SourceReadable(w, page);
    var base := w.c.Frames(page.whole);
    match page.cut {
      case None =>
        assert data == base + [];
        DecodeFrames(w.c, page.whole, []);
        assert page.whole + [] == page.whole;
      case Some(e) =>
        var n := |data| - |base|;
        DecodeFrames(w.c, page.whole, w.c.Frame(e)[..n]);
        DecodeCut(w.c, e, n);
        assert page.whole + [] == page.whole;
    }
  }

  lemma {:induction false} DecodeSurvivors(w: World, d: Disk, dir: seq<Segment>)
    requires w.Valid() && w.ReadsBack() && forall s | s in dir :: SegmentOk(w, d, s)
    requires forall name | name in d.pages :: AllAdmitted(w, Source(d.pages[name]))
    ensures DecodeAll(w, dir) == Ok(Survivors(w.first, d.pages, dir))
  {
    if dir != [] {
      DecodeSurvivors(w, d, dir[1..]);
      assert SegmentOk(w, d, dir[0]);
      if dir[0].name >= w.first { DecodeWritten(w, dir[0].data, d.pages[dir[0].name]); }
      else { assert [] + Survivors(w.first, d.pages, dir[1..]) == Survivors(w.first, d.pages, dir[1..]); }
    }
  }
}
