/** get_score, the greedy placement of new bricks and the final ranges. */
module LayoutPlace {
  import opened Options
  import opened Layout
  import opened LayoutOrder

  /** Where brick i starts in the proposed layout. */
  function Offset(bs: seq<Brick>, i: nat): nat
    requires i <= |bs|
  {
    SumGood(bs[..i])
  }

  lemma {:induction false} SumGoodSnoc(bs: seq<Brick>, b: Brick)
    ensures SumGood(bs + [b]) == SumGood(bs) + b.good
  {
    if bs != [] {
      assert (bs + [b])[1..] == bs[1..] + [b];
      SumGoodSnoc(bs[1..], b);
    }
  }

  lemma {:induction false} OffsetStep(bs: seq<Brick>, i: nat)
    requires i < |bs|
    ensures Offset(bs, i + 1) == Offset(bs, i) + bs[i].good
  {
    assert bs[..i + 1] == bs[..i] + [bs[i]];
    SumGoodSnoc(bs[..i], bs[i]);
  }

  lemma {:induction false} OffsetMonotone(bs: seq<Brick>, i: nat, j: nat)
    requires i <= j <= |bs|
    ensures Offset(bs, i) <= Offset(bs, j)
    decreases j - i
  {
    if i < j {
      OffsetStep(bs, j - 1);
      OffsetMonotone(bs, i, j - 1);
    }
  }

  // --------------------------------------------------------------------- score

  /** The proposed layout gives hash value h to brick i. */
  predicate Gets(bs: seq<Brick>, i: nat, h: int)
    requires i < |bs|
  {
    Offset(bs, i) <= h < Offset(bs, i + 1)
  }

  /** Hash value h goes to one of the first n bricks and that brick owned it. */
  ghost predicate Keeps(bs: seq<Brick>, n: nat, h: int)
    requires n <= |bs|
  {
    exists i :: 0 <= i < n && Gets(bs, i, h) && Owns(bs[i], h)
  }

  ghost function Kept(bs: seq<Brick>, n: nat): set<int>
    requires n <= |bs|
  {
    set h: int | 0 <= h < Offset(bs, n) && Keeps(bs, n, h)
  }

  function Max(a: int, b: int): int { if a > b then a else b }
  function Min(a: int, b: int): int { if a < b then a else b }

  function Overlap(b: Brick, start: nat): nat {
    if b.range.None? then 0
    else Max(0, Min(start + b.good - 1, b.range.value.hi) - Max(start, b.range.value.lo) + 1)
  }

  function Score(bs: seq<Brick>, n: nat): nat
    requires n <= |bs|
  {
    if n == 0 then 0 else Score(bs, n - 1) + Overlap(bs[n - 1], Offset(bs, n - 1))
  }

  ghost function Interval(lo: int, hi: int): (s: set<int>)
    ensures forall h :: h in s <==> lo <= h <= hi
    ensures |s| == Max(0, hi - lo + 1)
    decreases Max(0, hi - lo + 1)
  {
    if lo > hi then {} else Interval(lo, hi - 1) + {hi}
  }

  /** The hash values that brick n keeps. */
  ghost function KeptBy(b: Brick, start: nat): (s: set<int>)
    ensures forall h :: h in s <==> start <= h < start + b.good && Owns(b, h)
    ensures |s| == Overlap(b, start)
  {
    if b.range.None? then {}
    else Interval(Max(start, b.range.value.lo), Min(start + b.good - 1, b.range.value.hi))
  }

  lemma {:induction false} KeptMember(bs: seq<Brick>, n: nat, h: int)
    requires n < |bs|
    ensures h in Kept(bs, n + 1) <==> h in Kept(bs, n) || h in KeptBy(bs[n], Offset(bs, n))
    ensures !(h in Kept(bs, n) && h in KeptBy(bs[n], Offset(bs, n)))
  {
    OffsetStep(bs, n);
    if h in Kept(bs, n + 1) {
      var i :| 0 <= i < n + 1 && Gets(bs, i, h) && Owns(bs[i], h);
      if i < n {
        OffsetMonotone(bs, i + 1, n);
      }
    }
    if h in KeptBy(bs[n], Offset(bs, n)) {
      assert Gets(bs, n, h);
    }
  }

  lemma {:induction false} KeptStep(bs: seq<Brick>, n: nat)
    requires n < |bs|
    ensures |Kept(bs, n + 1)| == |Kept(bs, n)| + Overlap(bs[n], Offset(bs, n))
  {
    var added := KeptBy(bs[n], Offset(bs, n));
    forall h: int
      ensures h in Kept(bs, n + 1) <==> h in Kept(bs, n) || h in added
      ensures !(h in Kept(bs, n) && h in added)
    {
      KeptMember(bs, n, h);
    }
    assert Kept(bs, n + 1) == Kept(bs, n) + added && Kept(bs, n) !! added;
  }

  /** The score is the number of hash values that keep their owner. */
  lemma {:induction false} ScoreCounts(bs: seq<Brick>, n: nat)
    requires n <= |bs|
    ensures Score(bs, n) == |Kept(bs, n)|
  {
    if n == 0 {
      assert Kept(bs, 0) == {};
    } else {
      ScoreCounts(bs, n - 1);
      KeptStep(bs, n - 1);
    }
  }

  /** get_score. */
  method GetScore(bs: seq<Brick>) returns (score: nat)
    ensures score == Score(bs, |bs|) == |Kept(bs, |bs|)|
  {
    ScoreCounts(bs, |bs|);
    score := 0;
    var cur := 0;
    for i := 0 to |bs|
      invariant cur == Offset(bs, i) && score == Score(bs, i)
    {
      var b := bs[i];
      OffsetStep(bs, i);
      var newStart := cur;
      cur := cur + b.good;
      if b.range.None? {
        continue;
      }
      var newEnd := cur - 1;
      var maxStart := if newStart > b.range.value.lo then newStart else b.range.value.lo;
      var minEnd := if newEnd < b.range.value.hi then newEnd else b.range.value.hi;
      if maxStart <= minEnd {
        score := score + (minEnd - maxStart + 1);
      }
    }
    assert bs[..|bs|] == bs;
  }

  // ----------------------------------------------------------------- placement

  /** Move the brick at `used` to position i. */
  function Insert(bs: seq<Brick>, used: nat, i: nat): seq<Brick>
    requires i <= used < |bs|
  {
    bs[..i] + [bs[used]] + bs[i..used] + bs[used + 1..]
  }

  lemma {:induction false} InsertSame(bs: seq<Brick>, used: nat)
    requires used < |bs|
    ensures Insert(bs, used, used) == bs
  {
    assert bs == bs[..used] + [bs[used]] + bs[used..used] + bs[used + 1..];
  }

  function Total(bs: seq<Brick>): nat {
    Score(bs, |bs|)
  }

  /** The scores of the positions 0 .. used, the last one being where the brick is. */
  function Scores(bs: seq<Brick>, used: nat): (r: seq<nat>)
    requires used < |bs|
    ensures |r| == used + 1 && forall i {:trigger r[i]} :: 0 <= i <= used ==> r[i] == Total(Insert(bs, used, i))
  {
    seq(used + 1, i requires 0 <= i <= used => Total(Insert(bs, used, i)))
  }

  /** The place found after trying positions 0 .. upto - 1; staying is the default. */
  function BestOf(scores: seq<nat>, upto: nat): (p: nat)
    requires upto < |scores|
    ensures p < upto || p == |scores| - 1
  {
    if upto == 0 then |scores| - 1
    else
      var p := BestOf(scores, upto - 1);
      if scores[upto - 1] > scores[p] then upto - 1 else p
  }

  function Best(bs: seq<Brick>, used: nat): (p: nat)
    requires used < |bs|
    ensures p <= used
  {
    BestOf(Scores(bs, used), used)
  }

  lemma {:induction false} BestOfFacts(scores: seq<nat>, upto: nat)
    requires upto < |scores|
    ensures var p, used := BestOf(scores, upto), |scores| - 1;
            && (forall i :: 0 <= i < upto || i == used ==> scores[i] <= scores[p])
            && (p != used ==> forall i :: 0 <= i < p || i == used ==> scores[i] < scores[p])
  {
    if upto > 0 {
      BestOfFacts(scores, upto - 1);
    }
  }

  /** Position p is where the brick at `used` goes: no position scores more, and a brick
      moves only for more than it has where it is and to the first such position. */
  predicate FirstBest(bs: seq<Brick>, used: nat, p: nat)
    requires used < |bs|
  {
    && p <= used
    && (forall i :: 0 <= i <= used ==> Total(Insert(bs, used, i)) <= Total(Insert(bs, used, p)))
    && (p < used ==> Total(bs) < Total(Insert(bs, used, p)))
    && (p < used ==> forall i :: 0 <= i < p ==> Total(Insert(bs, used, i)) < Total(Insert(bs, used, p)))
  }

  /** That leaves one position. */
  lemma {:induction false} FirstBestUnique(bs: seq<Brick>, used: nat, p: nat, q: nat)
    requires used < |bs| && FirstBest(bs, used, p) && FirstBest(bs, used, q)
    ensures p == q
  {
    InsertSame(bs, used);
  }

  lemma {:induction false} BestIsFirst(bs: seq<Brick>, used: nat)
    requires used < |bs|
    ensures FirstBest(bs, used, Best(bs, used))
  {
    var scores, p := Scores(bs, used), Best(bs, used);
    BestOfFacts(scores, used);
    InsertSame(bs, used);
    forall i | 0 <= i <= used
      ensures Total(Insert(bs, used, i)) == scores[i]
    {
    }
  }

  function Greedy(bs: seq<Brick>, used: nat): (r: seq<Brick>)
    requires used <= |bs|
    decreases |bs| - used
  {
    if used == |bs| then bs else Greedy(Insert(bs, used, Best(bs, used)), used + 1)
  }

  /** a is b with some elements left out. */
  predicate Subsequence(a: seq<Brick>, b: seq<Brick>) {
    if a == [] then true
    else if b == [] then false
    else if a[0] == b[0] then Subsequence(a[1..], b[1..])
    else Subsequence(a, b[1..])
  }

  lemma {:induction false} SubsequenceRefl(a: seq<Brick>)
    ensures Subsequence(a, a)
  {
    if a != [] {
      SubsequenceRefl(a[1..]);
    }
  }

  /** Matching the head greedily is as good as skipping it. */
  lemma {:induction false} SubsequenceTail(a: seq<Brick>, b: seq<Brick>)
    requires a != [] && Subsequence(a, b)
    ensures Subsequence(a[1..], b)
    decreases |b|
  {
    if b != [] {
      if a[0] == b[0] {
        if |a| > 1 {
          if a[1] == b[0] {
            SubsequenceTail(a[1..], b[1..]);
          }
        }
      } else {
        SubsequenceTail(a, b[1..]);
        if |a| > 1 && a[1] == b[0] {
          SubsequenceTail(a[1..], b[1..]);
        }
      }
    }
  }

  lemma {:induction false} SubsequenceTrans(a: seq<Brick>, b: seq<Brick>, c: seq<Brick>)
    requires Subsequence(a, b) && Subsequence(b, c)
    ensures Subsequence(a, c)
    decreases |b| + |c|
  {
    if a != [] && c != [] {
      if b[0] == c[0] {
        if a[0] == b[0] {
          SubsequenceTrans(a[1..], b[1..], c[1..]);
        } else {
          SubsequenceTrans(a, b[1..], c[1..]);
        }
      } else {
        SubsequenceTrans(a, b, c[1..]);
        if a[0] == c[0] {
          SubsequenceTail(a, c[1..]);
        }
      }
    }
  }

  lemma {:induction false} SubsequenceAround(p: seq<Brick>, x: Brick, q: seq<Brick>)
    ensures Subsequence(p + q, p + [x] + q)
  {
    var a, b := p + q, p + [x] + q;
    if p != [] {
      assert a[1..] == p[1..] + q && b[1..] == p[1..] + [x] + q;
      SubsequenceAround(p[1..], x, q);
    } else {
      assert a == q && b[1..] == q;
      SubsequenceRefl(q);
      if q != [] && q[0] == x {
        SubsequenceTail(q, q);
      }
    }
  }

  lemma {:induction false} InsertFacts(bs: seq<Brick>, used: nat, i: nat)
    requires i <= used < |bs|
    ensures var r := Insert(bs, used, i);
            && |r| == |bs| && multiset(r) == multiset(bs)
            && Subsequence(bs[..used], r[..used + 1])
  {
    var r := Insert(bs, used, i);
    assert bs == bs[..i] + bs[i..used] + [bs[used]] + bs[used + 1..];
    assert r[..used + 1] == bs[..i] + [bs[used]] + bs[i..used];
    assert bs[..used] == bs[..i] + bs[i..used];
    SubsequenceAround(bs[..i], bs[used], bs[i..used]);
  }

  lemma {:induction false} PlaceStep(bs: seq<Brick>, used: nat)
    requires used < |bs|
    ensures var next := Insert(bs, used, Best(bs, used));
            && |next| == |bs| && multiset(next) == multiset(bs)
            && Subsequence(bs[..used], next[..used + 1])
            && Total(next) >= Total(bs)
            && forall i :: 0 <= i <= used ==> Total(Insert(bs, used, i)) <= Total(next)
    ensures FirstBest(bs, used, Best(bs, used))
  {
    InsertFacts(bs, used, Best(bs, used));
    InsertSame(bs, used);
    BestIsFirst(bs, used);
  }

  /** r comes from bs by placing the bricks from `used` on, one after the other. */
  ghost predicate PlacedFrom(bs: seq<Brick>, used: nat, r: seq<Brick>)
    requires used <= |bs|
    decreases |bs| - used
  {
    if used == |bs| then r == bs
    else exists p :: 0 <= p <= used && FirstBest(bs, used, p) && PlacedFrom(Insert(bs, used, p), used + 1, r)
  }

  lemma {:induction false} GreedyPlaces(bs: seq<Brick>, used: nat)
    requires used <= |bs|
    ensures PlacedFrom(bs, used, Greedy(bs, used))
    decreases |bs| - used
  {
    if used < |bs| {
      PlaceStep(bs, used);
      GreedyPlaces(Insert(bs, used, Best(bs, used)), used + 1);
    }
  }

  /** Placement permutes the bricks, keeps the bricks placed before in their order
      and never lowers the score. */
  lemma {:induction false} GreedyFacts(bs: seq<Brick>, used: nat)
    requires used <= |bs|
    ensures var r := Greedy(bs, used);
            && |r| == |bs| && multiset(r) == multiset(bs)
            && Subsequence(bs[..used], r)
            && Total(r) >= Total(bs)
    decreases |bs| - used
  {
    if used == |bs| {
      assert bs[..used] == bs;
      SubsequenceRefl(bs);
    } else {
      var next := Insert(bs, used, Best(bs, used));
      PlaceStep(bs, used);
      GreedyFacts(next, used + 1);
      SubsequenceTrans(bs[..used], next[..used + 1], Greedy(next, used + 1));
    }
  }

  // ------------------------------------------------------- order of new bricks

  lemma {:induction false} RemoveSubsequence(bs: seq<Brick>, k: nat)
    requires k < |bs|
    ensures Subsequence(Remove(bs, k), bs)
  {
    assert bs == bs[..k] + [bs[k]] + bs[k + 1..];
    SubsequenceAround(bs[..k], bs[k], bs[k + 1..]);
  }

  /** The bricks that normalize has no use for stay in the order they were listed in. */
  lemma {:induction false} NormalizeKeepsOrder(out: seq<Brick>, bs: seq<Brick>, cur: int)
    requires Proper(bs)
    ensures var r := Normalize(out, bs, cur); r.Tiled? ==> r.used <= |r.bricks| && Subsequence(r.bricks[r.used..], bs)
    decreases |bs|
  {
    if cur >= SPACE {
      assert (out + bs)[|out|..] == bs;
      SubsequenceRefl(bs);
    } else if FindStart(bs, cur, 0).Hit? {
      var k := FindStart(bs, cur, 0).at;
      RemoveSubsequence(bs, k);
      NormalizeKeepsOrder(out + [bs[k]], Remove(bs, k), bs[k].range.value.hi + 1);
      var r := Normalize(out, bs, cur);
      if r.Tiled? {
        SubsequenceTrans(r.bricks[r.used..], Remove(bs, k), bs);
      }
    }
  }

  // -------------------------------------------------------------- final ranges

  /** The last loop: brick i gets the hash values from Offset(i) on. */
  function Ranged(bs: seq<Brick>): (r: seq<Brick>)
    ensures |r| == |bs|
    ensures forall i {:trigger r[i]} :: 0 <= i < |bs| ==> r[i] == bs[i].(range := Some(Range(Offset(bs, i), Offset(bs, i + 1) - 1)))
  {
    seq(|bs|, i requires 0 <= i < |bs| => bs[i].(range := Some(Range(Offset(bs, i), Offset(bs, i + 1) - 1))))
  }

  /** Every 32-bit hash value ends up in exactly one brick. */
  lemma {:induction false} RangedPartition(bs: seq<Brick>, n: nat, h: int) returns (i: nat)
    requires n <= |bs| && 0 <= h < Offset(bs, n)
    ensures i < n && Owns(Ranged(bs)[i], h)
    ensures forall j :: 0 <= j < |bs| && Owns(Ranged(bs)[j], h) ==> j == i
    decreases n
  {
    OffsetStep(bs, n - 1);
    if h >= Offset(bs, n - 1) {
      i := n - 1;
    } else {
      i := RangedPartition(bs, n - 1, h);
    }
    forall j | 0 <= j < |bs| && Owns(Ranged(bs)[j], h)
      ensures j == i
    {
      if j < i {
        OffsetMonotone(bs, j + 1, i);
      } else if i < j {
        OffsetMonotone(bs, i + 1, j);
      }
    }
  }
}
