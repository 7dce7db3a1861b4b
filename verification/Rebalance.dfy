/** The loops of extras/rebalance.py over the list of bricks. */
module Rebalance {
  import opened Options
  import opened Layout
  import opened LayoutOrder
  import opened LayoutPlace

  ghost predicate OneOwner(bs: seq<Brick>, h: int) {
    exists i :: 0 <= i < |bs| && Owns(bs[i], h) && forall j :: 0 <= j < |bs| && Owns(bs[j], h) ==> j == i
  }

  lemma {:induction false} GreedyStep(bs: seq<Brick>, used: nat)
    requires used < |bs|
    ensures var r := Insert(bs, used, Best(bs, used));
            |r| == |bs| && Greedy(bs, used) == Greedy(r, used + 1) && (Best(bs, used) == used ==> r == bs)
  {
    InsertSame(bs, used);
  }

  /** The first i bricks have their new ranges. */
  predicate RangedUpTo(was: seq<Brick>, bs: seq<Brick>, i: nat) {
    && |bs| == |was| && i <= |was|
    && (forall j :: 0 <= j < i ==> bs[j] == Ranged(was)[j])
    && forall j :: i <= j < |was| ==> bs[j] == was[j]
  }

  lemma {:induction false} RangedStep(was: seq<Brick>, bs: seq<Brick>, i: nat, cur: nat)
    requires i < |was| && RangedUpTo(was, bs, i) && cur == Offset(was, i)
    ensures Offset(was, i + 1) == cur + bs[i].good
    ensures RangedUpTo(was, bs[i := bs[i].(range := Some(Range(cur, cur + bs[i].good - 1)))], i + 1)
  {
    OffsetStep(was, i);
    assert Ranged(was)[i] == bs[i].(range := Some(Range(cur, cur + bs[i].good - 1)));
  }

  lemma {:induction false} RangedAll(was: seq<Brick>, bs: seq<Brick>)
    requires RangedUpTo(was, bs, |was|)
    ensures bs == Ranged(was)
  {
  }

  /** What normalize makes of the bricks of a volume. */
  lemma {:induction false} NormalizeFacts(bs: seq<Brick>)
    requires Proper(bs)
    ensures var r := Normalize([], bs, 0);
            && (r.Tiled? ==> multiset(r.bricks) == multiset(bs) && r.used <= |r.bricks| && Tiles(r.bricks[..r.used], SPACE)
                             && Subsequence(r.bricks[r.used..], bs))
            && (r.GapAt? ==> Gap(multiset(bs), r.hash))
            && (r.NoRangeError? ==> exists b :: b in bs && b.range.None?)
  {
    NormalizeTiles([], bs, 0);
    NormalizeFails([], bs, 0, multiset(bs));
    assert Honest(Normalize([], bs, 0), multiset(bs));
    NormalizeKeepsOrder([], bs, 0);
  }

  class Volume {
    var bricks: seq<Brick>

    constructor (bs: seq<Brick>)
      ensures bricks == bs
    {
      bricks := bs;
    }

    /** The first loop of calc_sizes: every brick gets its share rounded down. */
    method RoundDown(total: nat) returns (leftover: int)
      requires total > 0
      modifies this
      ensures bricks == Floors(old(bricks), total) && leftover == SPACE - SumGood(bricks)
    {
      ghost var was, floors := bricks, Floors(bricks, total);
      leftover := SPACE;
      for i := 0 to |bricks|
        invariant |bricks| == |was|
        invariant forall j :: 0 <= j < i ==> bricks[j] == floors[j]
        invariant forall j :: i <= j < |was| ==> bricks[j] == was[j]
        invariant leftover == SPACE - Offset(floors, i)
      {
        FloorsAt(was, total, i);
        OffsetStep(floors, i);
        var good := 0;
        if bricks[i].size != 0 {
          good := Share(bricks[i].size, total);
          leftover := leftover - good;
        }
        bricks := bricks[i := bricks[i].(good := good)];
      }
      assert floors[..|floors|] == floors && bricks == floors;
    }

    /** The scan for a brick that can take the remainder. */
    method FirstWithShare() returns (i: nat)
      ensures i == FirstGood(bricks)
    {
      i := 0;
      while i < |bricks| && bricks[i].good == 0
        invariant i <= |bricks| && forall j :: 0 <= j < i ==> bricks[j].good == 0
      {
        i := i + 1;
      }
    }

    /** calc_sizes. */
    method CalcSizes(total: nat)
      requires total > 0 && total == SumSize(bricks)
      modifies this
      ensures SumGood(Floors(old(bricks), total)) <= SPACE
      ensures old(bricks) != [] && bricks == Apportion(old(bricks), total)
    {
      LeftoverBounds(bricks, total);
      var leftover := RoundDown(total);
      if leftover != 0 {
        var i := FirstWithShare();
        var k := if i < |bricks| then i else 0;
        bricks := AddGood(bricks, k, leftover);
      }
    }

    /** The inner loop of normalize: look for the brick that starts at `cur`. */
    static method FindBrick(rest: seq<Brick>, cur: int) returns (s: Scan)
      ensures s == FindStart(rest, cur, 0)
    {
      for i := 0 to |rest|
        invariant FindStart(rest, cur, 0) == FindStart(rest, cur, i)
      {
        if rest[i].range.None? {
          return NoRange;
        }
        if rest[i].range.value.lo == cur {
          return Hit(i);
        }
      }
      return Miss;
    }

    /** normalize. */
    method NormalizeBricks() returns (r: Normal)
      requires Proper(bricks)
      ensures r == Normalize([], bricks, 0)
      ensures r.Tiled? ==> multiset(r.bricks) == multiset(bricks) && r.used <= |r.bricks| && Tiles(r.bricks[..r.used], SPACE)
      ensures r.Tiled? ==> Subsequence(r.bricks[r.used..], bricks)
      ensures r.GapAt? ==> Gap(multiset(bricks), r.hash)
      ensures r.NoRangeError? ==> exists b :: b in bricks && b.range.None?
    {
      NormalizeFacts(bricks);
      var out: seq<Brick>, rest, cur := [], bricks, 0;
      while cur < SPACE
        invariant Proper(rest) && Normalize(out, rest, cur) == Normalize([], bricks, 0)
        decreases |rest|
      {
        var s := FindBrick(rest, cur);
        if !s.Hit? {
          return if s.Miss? then GapAt(cur) else NoRangeError;
        }
        RemoveProper(rest, s.at);
        out, cur, rest := out + [rest[s.at]], rest[s.at].range.value.hi + 1, Remove(rest, s.at);
      }
      return Tiled(out + rest, |out|);
    }

    /** The score with the brick at `used` moved to position i. */
    method TryPlace(used: nat, i: nat) returns (score: nat)
      requires i <= used < |bricks|
      ensures score == Scores(bricks, used)[i]
    {
      score := GetScore(Insert(bricks, used, i));
    }

    /** The inner loop of the placement: try every earlier position. */
    method FindBestPlace(used: nat) returns (bestPlace: nat)
      requires used < |bricks|
      ensures bestPlace == Best(bricks, used) && bestPlace <= used
      ensures forall i :: 0 <= i <= used ==> Total(Insert(bricks, used, i)) <= Total(Insert(bricks, used, bestPlace))
      ensures bestPlace != used ==> Total(Insert(bricks, used, bestPlace)) > Total(bricks)
      ensures forall i :: 0 <= i < bestPlace && bestPlace < used ==> Total(Insert(bricks, used, i)) < Total(Insert(bricks, used, bestPlace))
    {
      BestIsFirst(bricks, used);
      bestPlace := used;
      InsertSame(bricks, used);
      var bestScore := GetScore(bricks);
      for i := 0 to used
        invariant bestPlace == BestOf(Scores(bricks, used), i) && bestScore == Scores(bricks, used)[bestPlace]
      {
        var newScore := TryPlace(used, i);
        if newScore > bestScore {
          bestPlace, bestScore := i, newScore;
        }
      }
    }

    /** The greedy loop. */
    method PlaceNewBricks(first: nat)
      requires first <= |bricks|
      modifies this
      ensures bricks == Greedy(old(bricks), first)
    {
      var used: nat := first;
      while used < |bricks|
        invariant used <= |bricks| && Greedy(bricks, used) == Greedy(old(bricks), first)
        decreases |bricks| - used
      {
        var bestPlace := FindBestPlace(used);
        GreedyStep(bricks, used);
        if bestPlace != used {
          bricks := Insert(bricks, used, bestPlace);
        }
        used := used + 1;
      }
    }

    /** The last loop, which assigns the ranges. */
    method AssignRanges()
      modifies this
      ensures bricks == Ranged(old(bricks))
    {
      ghost var was := bricks;
      var cur := 0;
      for i := 0 to |bricks|
        invariant RangedUpTo(was, bricks, i) && cur == Offset(was, i)
      {
        RangedStep(was, bricks, i, cur);
        var start := cur;
        cur := cur + bricks[i].good;
        bricks := bricks[i := bricks[i].(range := Some(Range(start, cur - 1)))];
      }
      RangedAll(was, bricks);
    }

    /** The whole computation.  It succeeds exactly when normalize does, and then the new
        layout is the greedy placement of the normalized bricks: a permutation of the
        bricks with their fair shares that keeps the placed ones in order, scores no
        less than the normalized order, and gives every hash value exactly one owner. */
    method FixLayout() returns (ok: bool)
      requires Proper(bricks) && SumSize(bricks) > 0
      modifies this
      ensures old(bricks) != [] && SumGood(Floors(old(bricks), SumSize(old(bricks)))) <= SPACE
      ensures Proper(Apportion(old(bricks), SumSize(old(bricks))))
      ensures var n := Normalize([], Apportion(old(bricks), SumSize(old(bricks))), 0);
              && (ok <==> n.Tiled?)
              && (ok ==> n.used <= |n.bricks| && Placed(Apportion(old(bricks), SumSize(old(bricks))), n, bricks))
      ensures ok ==> forall h :: 0 <= h < SPACE ==> OneOwner(bricks, h)
      ensures PartitionFrom(old(bricks), 0) ==> (ok <==> NewOnesLast(old(bricks)))
    {
      var total := SumSize(bricks);
      ghost var was := bricks;
      ApportionFair(bricks, total);
      CalcSizes(total);
      ghost var fair := bricks;
      FairProper(was, fair);
      if PartitionFrom(was, 0) {
        SameRanges(was, fair);
        NormalizeSucceedsIff([], fair, 0);
      }
      var n := NormalizeBricks();
      ok := n.Tiled?;
      if ok {
        bricks := n.bricks;
        PlaceNewBricks(n.used);
        GreedyFacts(n.bricks, n.used);
        GreedyPlaces(n.bricks, n.used);
        FairPartition(fair, bricks);
        AssignRanges();
      }
    }
  }

  /** The final bricks are the greedy placement of the normalized ones, with ranges. */
  ghost predicate Placed(fair: seq<Brick>, n: Normal, final: seq<Brick>)
    requires n.Tiled? && n.used <= |n.bricks|
  {
    var order := Greedy(n.bricks, n.used);
    && final == Ranged(order) && multiset(order) == multiset(fair)
    && Subsequence(n.bricks[..n.used], order) && Total(order) >= Total(n.bricks)
    && PlacedFrom(n.bricks, n.used, order) && Subsequence(n.bricks[n.used..], fair)
  }

  lemma {:induction false} FairProper(was: seq<Brick>, fair: seq<Brick>)
    requires Proper(was) && |fair| == |was| && forall i :: 0 <= i < |was| ==> fair[i].range == was[i].range
    ensures Proper(fair)
  {
    forall i | 0 <= i < |fair|
      ensures ProperRange(fair[i])
    {
      assert ProperRange(was[i]);
    }
  }

  /** Shares that add up to the whole space cover it, in any order. */
  lemma {:induction false} FairPartition(fair: seq<Brick>, bs: seq<Brick>)
    requires SumGood(fair) == SPACE && multiset(fair) == multiset(bs)
    ensures forall h :: 0 <= h < SPACE ==> OneOwner(Ranged(bs), h)
  {
    SameSum(fair, bs);
    assert bs[..|bs|] == bs;
    forall h | 0 <= h < SPACE ensures OneOwner(Ranged(bs), h) {
      var i := RangedPartition(bs, |bs|, h);
    }
  }

  lemma {:induction false} SameRanges(a: seq<Brick>, b: seq<Brick>)
    requires |a| == |b| && forall i :: 0 <= i < |a| ==> a[i].range == b[i].range
    ensures PartitionFrom(a, 0) ==> PartitionFrom(b, 0)
    ensures NewOnesLast(a) <==> NewOnesLast(b)
  {
    if PartitionFrom(a, 0) {
      forall h | 0 <= h < SPACE ensures Owned(b, h) {
        assert Owned(a, h);
        var i :| 0 <= i < |a| && Owns(a[i], h);
        assert Owns(b[i], h);
      }
      forall i, j, h | 0 <= i < j < |b| && Owns(b[i], h) ensures !Owns(b[j], h) {
        assert Owns(a[i], h);
      }
    }
  }

  lemma {:induction false} RemoveFacts(b: seq<Brick>, i: nat)
    requires i < |b|
    ensures SumGood(b) == b[i].good + SumGood(Remove(b, i))
    ensures multiset(Remove(b, i)) == multiset(b) - multiset{b[i]}
  {
    var p, q := b[..i], b[i + 1..];
    assert b == p + ([b[i]] + q);
    SumGoodAppend(p, [b[i]] + q);
    SumGoodAppend(p, q);
    assert ([b[i]] + q)[1..] == q;
  }

  /** Permuting the bricks does not change the sum of their shares. */
  lemma {:induction false} SameSum(a: seq<Brick>, b: seq<Brick>)
    requires multiset(a) == multiset(b)
    ensures SumGood(a) == SumGood(b)
    decreases |a|
  {
    if a == [] {
      assert |multiset(b)| == 0;
    } else {
      assert a[0] in multiset(b);
      var i :| 0 <= i < |b| && b[i] == a[0];
      RemoveFacts(a, 0);
      RemoveFacts(b, i);
      assert Remove(a, 0) == a[1..];
      SameSum(a[1..], Remove(b, i));
    }
  }

  lemma {:induction false} SumGoodAppend(a: seq<Brick>, b: seq<Brick>)
    ensures SumGood(a + b) == SumGood(a) + SumGood(b)
  {
    if a == [] {
      assert a + b == b;
    } else {
      assert (a + b)[1..] == a[1..] + b;
      SumGoodAppend(a[1..], b);
    }
  }
}
