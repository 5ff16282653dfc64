/** Which segments a maintenance pass unlinks, and that none outlives the age limit. */
module RawAge {
  import opened Basics
  import opened RawDisk

  /** Bytes of the segments other than the active one. */
  function Spendable(dir: seq<Segment>, keep: Option<nat>): nat {
    if dir == [] then 0
    else (if keep == Some(dir[0].name) then 0 else |dir[0].data|) + Spendable(dir[1..], keep)
  }

  /**
   * When the pass comes to the segment at place `j`, everything older but the active one is
   * gone, this one is young enough, and what remains leaves the required room.
   */
  predicate Rests(o: Limits, dir: seq<Segment>, total: int, required: nat, keep: Option<nat>, clock: Clock, i: nat, j: nat)
    requires j < |dir|
  {
    clock(i + j) - dir[j].time <= o.maximumAgeMs && total - Spendable(dir[..j], keep) + required <= o.maximumBytes
  }

  /** It comes past the segment at place `k`. */
  predicate Passes(o: Limits, dir: seq<Segment>, total: int, required: nat, keep: Option<nat>, clock: Clock, i: nat, k: nat)
    requires k < |dir|
  {
    forall j | 0 <= j <= k :: !Rests(o, dir, total, required, keep, clock, i, j)
  }

  function Left(dir: seq<Segment>, total: int, keep: Option<nat>): int
    requires dir != []
  {
    if keep == Some(dir[0].name) then total else total - |dir[0].data|
  }

  lemma {:induction false} RestsShift(o: Limits, dir: seq<Segment>, total: int, required: nat, keep: Option<nat>, clock: Clock, i: nat, j: nat)
    requires 1 <= j < |dir|
    ensures Rests(o, dir[1..], Left(dir, total, keep), required, keep, clock, i + 1, j - 1) <==>
      Rests(o, dir, total, required, keep, clock, i, j)
  {
    assert dir[..j][1..] == dir[1..][..j - 1];
  }

  lemma {:induction false} PassesShift(o: Limits, dir: seq<Segment>, total: int, required: nat, keep: Option<nat>, clock: Clock, i: nat, k: nat)
    requires 1 <= k < |dir|
    ensures Passes(o, dir, total, required, keep, clock, i, k) <==>
      !Rests(o, dir, total, required, keep, clock, i, 0) && Passes(o, dir[1..], Left(dir, total, keep), required, keep, clock, i + 1, k - 1)
  {
    hide Rests;
    var left, rest, next := Left(dir, total, keep), dir[1..], i + 1;
    if Passes(o, dir, total, required, keep, clock, i, k) {
      forall j | 0 <= j <= k - 1 ensures !Rests(o, rest, left, required, keep, clock, next, j) {
        RestsShift(o, dir, total, required, keep, clock, i, j + 1);
      }
    }
    if !Rests(o, dir, total, required, keep, clock, i, 0) && Passes(o, dir[1..], left, required, keep, clock, i + 1, k - 1) {
      forall j | 0 <= j <= k ensures !Rests(o, dir, total, required, keep, clock, i, j) {
        if j >= 1 { RestsShift(o, dir, total, required, keep, clock, i, j); }
      }
    }
  }

  /** A pass unlinks exactly the segments, except the active one, that come before the first one at which it may rest. */
  lemma {:induction false} DoomedIff(o: Limits, dir: seq<Segment>, total: int, required: nat, keep: Option<nat>, clock: Clock, i: nat, k: nat)
    requires Distinct(dir) && k < |dir|
    ensures dir[k].name in Doomed(o, dir, total, required, keep, clock, i) <==>
      keep != Some(dir[k].name) && Passes(o, dir, total, required, keep, clock, i, k)
    decreases |dir|
  {
    var left := Left(dir, total, keep);
    assert dir[..0] == [];
    assert Rests(o, dir, total, required, keep, clock, i, 0) <==>
      clock(i) - dir[0].time <= o.maximumAgeMs && total + required <= o.maximumBytes;
    if k > 0 {
      PassesShift(o, dir, total, required, keep, clock, i, k);
      DoomedIff(o, dir[1..], left, required, keep, clock, i + 1, k - 1);
    } else {
      NotNamed(o, dir[1..], left, required, keep, clock, i + 1, dir[0].name);
    }
  }

  lemma {:induction false} NotNamed(o: Limits, dir: seq<Segment>, total: int, required: nat, keep: Option<nat>, clock: Clock, i: nat, name: nat)
    requires forall k | 0 <= k < |dir| :: dir[k].name != name
    ensures name !in Doomed(o, dir, total, required, keep, clock, i)
    decreases |dir|
  {
    if dir != [] { NotNamed(o, dir[1..], Left(dir, total, keep), required, keep, clock, i + 1, name); }
  }

  lemma {:induction false} KeptIff(dir: seq<Segment>, names: seq<nat>, x: Segment)
    ensures x in Without(dir, names) <==> x in dir && x.name !in names
  {
    if dir != [] {
      KeptIff(dir[1..], names, x);
      assert dir == [dir[0]] + dir[1..];
    }
  }

  /**
   * After a full pass at one time over segments in order of creation, nothing but the active
   * segment is older than the age limit, and what the pass unlinked was older than it or
   * stood in the way of the required room.
   */
  lemma {:induction false} NothingOutlives(o: Limits, d: Disk, required: nat, now: int, k: nat)
    requires Distinct(d.dir) && k < |d.dir| && d.fileName != Some(d.dir[k].name)
    requires forall i, j | 0 <= i < j < |d.dir| :: d.dir[i].time <= d.dir[j].time
    ensures var left := SweepAll(o, d, required, _ => now).dir; var age := now - d.dir[k].time;
      && (d.dir[k] in left ==> age <= o.maximumAgeMs)
      && (d.dir[k] !in left ==>
            age > o.maximumAgeMs || Total(d.dir) - Spendable(d.dir[..k], d.fileName) + required > o.maximumBytes)
  {
    hide Doomed, Total, Without, Spendable;
    var clock: Clock := _ => now;
    DoomedIff(o, d.dir, Total(d.dir), required, d.fileName, clock, 0, k);
    KeptIff(d.dir, Sweeps(o, d, required, clock), d.dir[k]);
    if d.dir[k].name !in Sweeps(o, d, required, clock) {
      var j :| 0 <= j <= k && Rests(o, d.dir, Total(d.dir), required, d.fileName, clock, 0, j);
      assert d.dir[j].time <= d.dir[k].time;
    } else {
      assert !Rests(o, d.dir, Total(d.dir), required, d.fileName, clock, 0, k);
    }
  }
}
