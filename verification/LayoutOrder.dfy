/** normalize: sorting the bricks by their ranges and finding gaps. */
module LayoutOrder {
  import opened Options
  import opened Layout

  // ----------------------------------------------------------------- normalize

  datatype Scan = Hit(at: nat) | Miss | NoRange

  /** The inner loop of normalize: the first brick that starts at `cur`.  A brick
      that never got a range has no r_start, and comparing it raises an error. */
  function FindStart(bs: seq<Brick>, cur: int, from: nat): (r: Scan)
    ensures r.Hit? ==> from <= r.at < |bs| && bs[r.at].range.Some? && bs[r.at].range.value.lo == cur
    ensures r.Hit? ==> forall i :: from <= i < r.at ==> bs[i].range.Some?
    ensures r.Miss? ==> forall i :: from <= i < |bs| ==> bs[i].range.Some? && bs[i].range.value.lo != cur
    ensures r.NoRange? ==> exists i :: from <= i < |bs| && bs[i].range.None?
    decreases |bs| - from
  {
    if from >= |bs| then Miss
    else if bs[from].range.None? then NoRange
    else if bs[from].range.value.lo == cur then Hit(from)
    else FindStart(bs, cur, from + 1)
  }

  /** The scan passes over bricks that start elsewhere, and stops at the first that does
      not or has no range. */
  lemma {:induction false} FindStartFirst(bs: seq<Brick>, cur: int, from: nat, i: nat)
    requires from <= i <= |bs| && forall j :: from <= j < i ==> bs[j].range.Some? && bs[j].range.value.lo != cur
    ensures i == |bs| ==> FindStart(bs, cur, from) == Miss
    ensures i < |bs| && bs[i].range.None? ==> FindStart(bs, cur, from) == NoRange
    ensures i < |bs| && bs[i].range.Some? && bs[i].range.value.lo == cur ==> FindStart(bs, cur, from) == Hit(i)
    decreases i - from
  {
    if from < i {
      FindStartFirst(bs, cur, from + 1, i);
    }
  }

  function Remove(bs: seq<Brick>, i: nat): seq<Brick>
    requires i < |bs|
  {
    bs[..i] + bs[i + 1..]
  }

  datatype Normal = Tiled(bricks: seq<Brick>, used: nat) | GapAt(hash: int) | NoRangeError

  /** A range as set_range and the caller leave it: not backwards, 32 bits. */
  predicate ProperRange(b: Brick) {
    b.range.Some? ==> 0 <= b.range.value.lo <= b.range.value.hi < SPACE
  }

  predicate Proper(bs: seq<Brick>) {
    forall i :: 0 <= i < |bs| ==> ProperRange(bs[i])
  }

  function Normalize(out: seq<Brick>, bs: seq<Brick>, cur: int): Normal
    requires Proper(bs)
    decreases |bs|
  {
    if cur >= SPACE then
      Tiled(out + bs, |out|)
    else
      match FindStart(bs, cur, 0)
      case Hit(i) => Normalize(out + [bs[i]], Remove(bs, i), bs[i].range.value.hi + 1)
      case Miss => GapAt(cur)
      case NoRange => NoRangeError
  }

  /** The bricks cover [0, end) from left to right without gap or overlap. */
  predicate Tiles(bs: seq<Brick>, end: int) {
    if bs == [] then end == 0
    else
      var b := bs[|bs| - 1];
      b.range.Some? && b.range.value.hi + 1 == end && b.range.value.lo <= b.range.value.hi && Tiles(bs[..|bs| - 1], b.range.value.lo)
  }

  lemma {:induction false} TilesSnoc(out: seq<Brick>, b: Brick, cur: int)
    requires Tiles(out, cur) && ProperRange(b) && b.range.Some? && b.range.value.lo == cur
    ensures Tiles(out + [b], b.range.value.hi + 1)
  {
    assert (out + [b])[..|out|] == out;
  }

  lemma {:induction false} RemoveElements(bs: seq<Brick>, k: nat)
    requires k < |bs|
    ensures multiset(bs) == multiset{bs[k]} + multiset(Remove(bs, k))
  {
    assert bs == bs[..k] + [bs[k]] + bs[k + 1..];
  }

  lemma {:induction false} RemoveAt(bs: seq<Brick>, k: nat, i: nat)
    requires k < |bs| && i + 1 < |bs|
    ensures |Remove(bs, k)| == |bs| - 1 && Remove(bs, k)[i] == bs[if i < k then i else i + 1]
  {
  }

  lemma {:induction false} TakeOne(out: seq<Brick>, bs: seq<Brick>, k: nat)
    requires k < |bs|
    ensures multiset(out + [bs[k]]) + multiset(Remove(bs, k)) == multiset(out) + multiset(bs)
  {
    RemoveElements(bs, k);
  }

  lemma {:induction false} RemoveProper(bs: seq<Brick>, k: nat)
    requires Proper(bs) && k < |bs|
    ensures Proper(Remove(bs, k))
  {
    forall i | 0 <= i < |bs| - 1
      ensures ProperRange(Remove(bs, k)[i])
    {
      RemoveAt(bs, k, i);
    }
  }

  lemma {:induction false} NormalizeHit(out: seq<Brick>, bs: seq<Brick>, cur: int, k: nat)
    requires Proper(bs) && cur < SPACE && k < |bs| && FindStart(bs, cur, 0) == Hit(k) && Proper(Remove(bs, k))
    ensures Normalize(out, bs, cur) == Normalize(out + [bs[k]], Remove(bs, k), bs[k].range.value.hi + 1)
  {
  }

  /** A round of the outer loop that finds its brick: the bricks taken still tile, and no
      brick is lost. */
  lemma {:induction false} NextRound(out: seq<Brick>, bs: seq<Brick>, cur: int) returns (taken: seq<Brick>, rest: seq<Brick>, next: int)
    requires Proper(bs) && Tiles(out, cur) && cur < SPACE && FindStart(bs, cur, 0).Hit?
    ensures |rest| < |bs| && next <= SPACE && Proper(rest) && Tiles(taken, next)
    ensures multiset(taken) + multiset(rest) == multiset(out) + multiset(bs)
    ensures Normalize(out, bs, cur) == Normalize(taken, rest, next)
  {
    var k := FindStart(bs, cur, 0).at;
    assert ProperRange(bs[k]);
    RemoveProper(bs, k);
    TilesSnoc(out, bs[k], cur);
    TakeOne(out, bs, k);
    NormalizeHit(out, bs, cur, k);
    taken, rest, next := out + [bs[k]], Remove(bs, k), bs[k].range.value.hi + 1;
  }

  /** Whenever normalize succeeds, its result is a permutation of the bricks whose
      first `used` ranges tile the hash space. */
  lemma {:induction false} NormalizeTiles(out: seq<Brick>, bs: seq<Brick>, cur: int)
    requires Proper(bs) && Tiles(out, cur) && cur <= SPACE
    ensures var r := Normalize(out, bs, cur);
            r.Tiled? ==> && multiset(r.bricks) == multiset(out) + multiset(bs)
                         && r.used <= |r.bricks| && Tiles(r.bricks[..r.used], SPACE)
    decreases |bs|
  {
    if cur == SPACE {
      assert (out + bs)[..|out|] == out;
    } else if FindStart(bs, cur, 0).Hit? {
      var taken, rest, next := NextRound(out, bs, cur);
      NormalizeTiles(taken, rest, next);
    }
  }

  /** Some of the bricks tile the space up to a hash value at which no other starts. */
  ghost predicate Gap(bs: multiset<Brick>, hash: int) {
    exists tiled, rest :: multiset(tiled) + multiset(rest) == bs && StopsAt(tiled, rest, hash)
  }

  predicate StopsAt(tiled: seq<Brick>, rest: seq<Brick>, hash: int) {
    hash < SPACE && Tiles(tiled, hash) && forall i :: 0 <= i < |rest| ==> rest[i].range.Some? && rest[i].range.value.lo != hash
  }

  lemma {:induction false} WithoutRange(out: seq<Brick>, bs: seq<Brick>, i: nat, all: multiset<Brick>)
    requires i < |bs| && bs[i].range.None? && all == multiset(out) + multiset(bs)
    ensures exists b :: b in all && b.range.None?
  {
    assert bs[i] in multiset(bs);
  }

  /** A failure reported for these bricks is a real one: the gap is one, and the attribute
      error comes from a brick without a range. */
  ghost predicate Honest(r: Normal, all: multiset<Brick>) {
    && (r.GapAt? ==> Gap(all, r.hash))
    && (r.NoRangeError? ==> exists b :: b in all && b.range.None?)
  }

  lemma {:induction false} FailsHere(out: seq<Brick>, bs: seq<Brick>, cur: int, all: multiset<Brick>)
    requires Proper(bs) && Tiles(out, cur) && all == multiset(out) + multiset(bs) && cur < SPACE && !FindStart(bs, cur, 0).Hit?
    ensures Honest(Normalize(out, bs, cur), all)
  {
    if FindStart(bs, cur, 0).Miss? {
      assert StopsAt(out, bs, cur);
    } else {
      var i :| 0 <= i < |bs| && bs[i].range.None?;
      WithoutRange(out, bs, i, all);
    }
  }

  lemma {:induction false} NormalizeFails(out: seq<Brick>, bs: seq<Brick>, cur: int, all: multiset<Brick>)
    requires Proper(bs) && Tiles(out, cur) && all == multiset(out) + multiset(bs)
    ensures Honest(Normalize(out, bs, cur), all)
    decreases |bs|
  {
    if cur < SPACE {
      if FindStart(bs, cur, 0).Hit? {
        var taken, rest, next := NextRound(out, bs, cur);
        NormalizeFails(taken, rest, next, all);
      } else {
        FailsHere(out, bs, cur, all);
      }
    }
  }

  /** In a tiling every hash value has exactly one owner. */
  lemma {:induction false} TilesOwner(bs: seq<Brick>, end: int, h: int) returns (i: nat)
    requires Tiles(bs, end) && 0 <= h < end
    ensures i < |bs| && Owns(bs[i], h)
    ensures forall j :: 0 <= j < |bs| && Owns(bs[j], h) ==> j == i
  {
    var n := |bs| - 1;
    if h >= bs[n].range.value.lo {
      i := n;
      TilesBelow(bs[..n], bs[n].range.value.lo);
      assert forall j :: 0 <= j < n ==> bs[j] == bs[..n][j];
    } else {
      i := TilesOwner(bs[..n], bs[n].range.value.lo, h);
      assert forall j :: 0 <= j < n ==> bs[j] == bs[..n][j];
    }
  }

  lemma {:induction false} TilesBelow(bs: seq<Brick>, end: int)
    requires Tiles(bs, end)
    ensures forall j :: 0 <= j < |bs| ==> bs[j].range.Some? && 0 <= bs[j].range.value.lo && bs[j].range.value.hi < end
    ensures end >= 0
  {
    if bs != [] {
      var n := |bs| - 1;
      TilesBelow(bs[..n], bs[n].range.value.lo);
      assert forall j :: 0 <= j < n ==> bs[j] == bs[..n][j];
    }
  }

  // When does it succeed?

  /** From `cur` on, the ranges present give every hash value exactly one owner. */
  ghost predicate PartitionFrom(bs: seq<Brick>, cur: int) {
    && (forall i :: 0 <= i < |bs| && bs[i].range.Some? ==> cur <= bs[i].range.value.lo)
    && (forall i, j, h :: 0 <= i < j < |bs| && Owns(bs[i], h) ==> !Owns(bs[j], h))
    && (forall h :: cur <= h < SPACE ==> Owned(bs, h))
  }

  ghost predicate Owned(bs: seq<Brick>, h: int) {
    exists i :: 0 <= i < |bs| && Owns(bs[i], h)
  }

  /** No brick without a range is listed before one with a range. */
  predicate NewOnesLast(bs: seq<Brick>) {
    forall i, j :: 0 <= i < j < |bs| && bs[j].range.Some? ==> bs[i].range.Some?
  }

  lemma {:induction false} RemoveNewOnes(bs: seq<Brick>, k: nat)
    requires k < |bs| && bs[k].range.Some?
    ensures NewOnesLast(bs) ==> NewOnesLast(Remove(bs, k))
    ensures (forall i :: 0 <= i < k ==> bs[i].range.Some?) && NewOnesLast(Remove(bs, k)) ==> NewOnesLast(bs)
  {
    var r := Remove(bs, k);
    if NewOnesLast(bs) {
      forall i, j | 0 <= i < j < |r| && r[j].range.Some?
        ensures r[i].range.Some?
      {
        RemoveAt(bs, k, i);
        RemoveAt(bs, k, j);
      }
    }
    if (forall i :: 0 <= i < k ==> bs[i].range.Some?) && NewOnesLast(r) {
      forall i, j | 0 <= i < j < |bs| && bs[j].range.Some?
        ensures bs[i].range.Some?
      {
        if i > k {
          RemoveAt(bs, k, i - 1);
          RemoveAt(bs, k, j - 1);
        }
      }
    }
  }

  lemma {:induction false} RemoveLow(bs: seq<Brick>, cur: int, k: nat, i: nat)
    requires Proper(bs) && PartitionFrom(bs, cur) && k < |bs| && bs[k].range.Some? && bs[k].range.value.lo == cur
    requires i < |bs| && i != k && bs[i].range.Some?
    ensures bs[k].range.value.hi + 1 <= bs[i].range.value.lo
  {
    assert ProperRange(bs[k]) && ProperRange(bs[i]);
    var lo := bs[i].range.value.lo;
    assert Owns(bs[i], lo);
    assert !Owns(bs[k], lo);
  }

  lemma {:induction false} RemoveOwned(bs: seq<Brick>, cur: int, k: nat, h: int)
    requires PartitionFrom(bs, cur) && k < |bs| && bs[k].range.Some? && cur <= h < SPACE && bs[k].range.value.hi < h
    ensures Owned(Remove(bs, k), h)
  {
    assert Owned(bs, h);
    var i :| 0 <= i < |bs| && Owns(bs[i], h);
    var m := if i < k then i else i - 1;
    RemoveAt(bs, k, m);
    assert Owns(Remove(bs, k)[m], h);
  }

  lemma {:induction false} RemoveKeeps(bs: seq<Brick>, cur: int, k: nat)
    requires Proper(bs) && PartitionFrom(bs, cur) && k < |bs| && bs[k].range.Some? && bs[k].range.value.lo == cur
    ensures Proper(Remove(bs, k)) && PartitionFrom(Remove(bs, k), bs[k].range.value.hi + 1)
  {
    var r, c := Remove(bs, k), bs[k].range.value.hi + 1;
    assert ProperRange(bs[k]);
    forall i | 0 <= i < |r|
      ensures ProperRange(r[i])
      ensures r[i].range.Some? ==> c <= r[i].range.value.lo
    {
      RemoveAt(bs, k, i);
      var m := if i < k then i else i + 1;
      assert ProperRange(bs[m]);
      if r[i].range.Some? {
        RemoveLow(bs, cur, k, m);
      }
    }
    forall h | c <= h < SPACE
      ensures Owned(r, h)
    {
      RemoveOwned(bs, cur, k, h);
    }
    forall i, j, h | 0 <= i < j < |r| && Owns(r[i], h)
      ensures !Owns(r[j], h)
    {
      RemoveAt(bs, k, i);
      RemoveAt(bs, k, j);
    }
  }

  /** The scan finds the owner of `cur`, unless a brick without a range is in the
      way. */
  lemma {:induction false} ScanOutcome(bs: seq<Brick>, cur: int)
    requires Proper(bs) && PartitionFrom(bs, cur) && 0 <= cur < SPACE
    ensures !FindStart(bs, cur, 0).Miss?
    ensures FindStart(bs, cur, 0).NoRange? ==> !NewOnesLast(bs)
  {
    assert Owned(bs, cur);
    var w :| 0 <= w < |bs| && Owns(bs[w], cur);
    assert bs[w].range.value.lo == cur;
    if FindStart(bs, cur, 0).NoRange? {
      NoRangeFirst(bs, cur, 0, w);
    }
  }

  lemma {:induction false} AllNew(bs: seq<Brick>)
    requires Proper(bs) && PartitionFrom(bs, SPACE)
    ensures NewOnesLast(bs)
  {
    forall j | 0 <= j < |bs| ensures bs[j].range.None? {
      assert ProperRange(bs[j]);
    }
  }

  /** Taking out the brick the scan found. */
  lemma {:induction false} TakeHit(bs: seq<Brick>, cur: int, k: nat)
    requires Proper(bs) && PartitionFrom(bs, cur) && k < |bs| && FindStart(bs, cur, 0) == Hit(k)
    ensures bs[k].range.Some? && cur < bs[k].range.value.hi + 1 <= SPACE
    ensures Proper(Remove(bs, k)) && PartitionFrom(Remove(bs, k), bs[k].range.value.hi + 1)
    ensures NewOnesLast(bs) <==> NewOnesLast(Remove(bs, k))
  {
    assert ProperRange(bs[k]);
    RemoveKeeps(bs, cur, k);
    RemoveNewOnes(bs, k);
  }

  /** One round of the outer loop that finds its brick: normalize goes on with the
      bricks that are left, which still partition the rest of the space. */
  lemma {:induction false} Round(out: seq<Brick>, bs: seq<Brick>, cur: int) returns (taken: seq<Brick>, rest: seq<Brick>, next: int)
    requires Proper(bs) && PartitionFrom(bs, cur) && 0 <= cur < SPACE && FindStart(bs, cur, 0).Hit?
    ensures |rest| < |bs| && cur < next <= SPACE && Proper(rest) && PartitionFrom(rest, next)
    ensures Normalize(out, bs, cur) == Normalize(taken, rest, next)
    ensures NewOnesLast(bs) <==> NewOnesLast(rest)
  {
    var k := FindStart(bs, cur, 0).at;
    TakeHit(bs, cur, k);
    taken, rest, next := out + [bs[k]], Remove(bs, k), bs[k].range.value.hi + 1;
    NormalizeHit(out, bs, cur, k);
  }

  /** The rounds that stop: the space is covered, or a brick without a range is met. */
  lemma {:induction false} NormalizeStops(out: seq<Brick>, bs: seq<Brick>, cur: int)
    requires Proper(bs) && PartitionFrom(bs, cur) && 0 <= cur <= SPACE
    requires cur == SPACE || !FindStart(bs, cur, 0).Hit?
    ensures Normalize(out, bs, cur).Tiled? <==> NewOnesLast(bs)
    ensures !Normalize(out, bs, cur).GapAt?
  {
    if cur == SPACE {
      AllNew(bs);
    } else {
      ScanOutcome(bs, cur);
      assert FindStart(bs, cur, 0).NoRange?;
      assert Normalize(out, bs, cur) == NoRangeError;
    }
  }

  /** If the existing ranges give every hash value one owner, normalize succeeds
      exactly when no brick without a range is listed before one with a range, and
      it never finds a gap. */
  lemma {:induction false} NormalizeSucceedsIff(out: seq<Brick>, bs: seq<Brick>, cur: int)
    requires Proper(bs) && PartitionFrom(bs, cur) && 0 <= cur <= SPACE
    ensures Normalize(out, bs, cur).Tiled? <==> NewOnesLast(bs)
    ensures !Normalize(out, bs, cur).GapAt?
    decreases |bs|
  {
    if cur == SPACE || !FindStart(bs, cur, 0).Hit? {
      NormalizeStops(out, bs, cur);
    } else {
      var taken, rest, next := Round(out, bs, cur);
      NormalizeSucceedsIff(taken, rest, next);
    }
  }

  lemma {:induction false} NoRangeFirst(bs: seq<Brick>, cur: int, from: nat, w: nat)
    requires from <= w < |bs| && bs[w].range.Some? && bs[w].range.value.lo == cur && FindStart(bs, cur, from).NoRange?
    ensures exists i :: from <= i < w && bs[i].range.None?
    decreases w - from
  {
    if bs[from].range.Some? {
      NoRangeFirst(bs, cur, from + 1, w);
    }
  }
}
