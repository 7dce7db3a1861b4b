/**
  The size-weighted hash layout of extras/rebalance.py: the 2^32 hash values are
  shared out in proportion to brick sizes, and the bricks are ordered so that many
  hash values keep their owner.
*/
module Layout {
  import opened Options

  const SPACE: nat := 0x1_0000_0000

  datatype Range = Range(lo: int, hi: int)

  /** A brick; `range` is None as long as set_range has not been called. */
  datatype Brick = Brick(path: string, size: nat, good: nat, range: Option<Range>)

  predicate Owns(b: Brick, h: int) {
    b.range.Some? && b.range.value.lo <= h <= b.range.value.hi
  }

  // ------------------------------------------------------------- apportionment

  function SumSize(bs: seq<Brick>): nat {
    if bs == [] then 0 else bs[0].size + SumSize(bs[1..])
  }

  function SumGood(bs: seq<Brick>): nat {
    if bs == [] then 0 else bs[0].good + SumGood(bs[1..])
  }

  /** The proportional share of one brick, rounded down. */
  function Share(size: nat, total: nat): (q: nat)
    requires total > 0
  {
    size * SPACE / total
  }

  lemma {:induction false} ShareBounds(size: nat, total: nat)
    requires total > 0
    ensures Share(size, total) * total <= size * SPACE < (Share(size, total) + 1) * total
  {
  }

  function Floors(bs: seq<Brick>, total: nat): (r: seq<Brick>)
    requires total > 0
    ensures |r| == |bs|
  {
    if bs == [] then [] else [bs[0].(good := Share(bs[0].size, total))] + Floors(bs[1..], total)
  }

  function FirstGood(bs: seq<Brick>): (i: nat)
    ensures i <= |bs| && (i < |bs| ==> bs[i].good != 0) && forall j :: 0 <= j < i ==> bs[j].good == 0
  {
    if bs == [] || bs[0].good != 0 then 0 else 1 + FirstGood(bs[1..])
  }

  function AddGood(bs: seq<Brick>, i: nat, extra: nat): seq<Brick>
    requires i < |bs|
  {
    bs[i := bs[i].(good := bs[i].good + extra)]
  }

  /** What calc_sizes makes of the bricks: rounding leaves a remainder, which goes
      to the first brick with a share, or to the first brick. */
  function Apportion(bs: seq<Brick>, total: nat): seq<Brick>
    requires total > 0 && bs != [] && SumGood(Floors(bs, total)) <= SPACE
  {
    var fs := Floors(bs, total);
    var i := FirstGood(fs);
    AddGood(fs, if i < |fs| then i else 0, SPACE - SumGood(fs))
  }

  lemma {:induction false} FloorsAt(bs: seq<Brick>, total: nat, i: nat)
    requires total > 0 && i < |bs|
    ensures Floors(bs, total)[i] == bs[i].(good := Share(bs[i].size, total))
  {
    if i > 0 {
      FloorsAt(bs[1..], total, i - 1);
    }
  }

  /** The shares miss the whole by less than one unit per brick. */
  lemma {:induction false} FloorsBounds(bs: seq<Brick>, total: nat)
    requires total > 0
    ensures SumGood(Floors(bs, total)) * total <= SumSize(bs) * SPACE
    ensures SumSize(bs) * SPACE + |bs| <= (SumGood(Floors(bs, total)) + |bs|) * total
  {
    if bs != [] {
      FloorsBounds(bs[1..], total);
      ShareBounds(bs[0].size, total);
      var q, s, n := Share(bs[0].size, total), SumGood(Floors(bs[1..], total)), |bs| - 1;
      assert Floors(bs, total)[1..] == Floors(bs[1..], total);
      assert (q + s) * total == q * total + s * total;
      assert (q + 1 + s + n) * total == (q + 1) * total + (s + n) * total;
    }
  }

  lemma {:induction false} Cancel(a: int, b: int, c: int)
    requires c > 0
    ensures a * c <= b * c ==> a <= b
    ensures a * c < b * c ==> a < b
  {
  }

  lemma {:induction false} SumGoodAdd(bs: seq<Brick>, i: nat, extra: nat)
    requires i < |bs|
    ensures SumGood(AddGood(bs, i, extra)) == SumGood(bs) + extra
  {
    if i > 0 {
      assert AddGood(bs, i, extra)[1..] == AddGood(bs[1..], i - 1, extra);
      SumGoodAdd(bs[1..], i - 1, extra);
    }
  }

  lemma {:induction false} LeftoverBounds(bs: seq<Brick>, total: nat)
    requires total > 0 && total == SumSize(bs)
    ensures bs != []
    ensures SumGood(Floors(bs, total)) <= SPACE < SumGood(Floors(bs, total)) + |bs|
  {
    FloorsBounds(bs, total);
    var g := SumGood(Floors(bs, total));
    Cancel(g, SPACE, total);
    Cancel(SPACE, g + |bs|, total);
  }

  /** Where the remainder goes. */
  function Taker(bs: seq<Brick>, total: nat): (k: nat)
    requires total > 0 && bs != []
    ensures k < |bs|
  {
    var i := FirstGood(Floors(bs, total));
    if i < |bs| then i else 0
  }

  lemma {:induction false} ApportionAt(bs: seq<Brick>, total: nat, i: nat)
    requires total > 0 && bs != [] && SumGood(Floors(bs, total)) <= SPACE && i < |bs|
    ensures |Apportion(bs, total)| == |bs|
    ensures Apportion(bs, total)[i] ==
            bs[i].(good := Share(bs[i].size, total) + if i == Taker(bs, total) then SPACE - SumGood(Floors(bs, total)) else 0)
  {
    FloorsAt(bs, total, i);
  }

  lemma {:induction false} MulLe(a: nat, b: nat, c: nat)
    requires a <= b
    ensures a * c <= b * c
  {
  }

  lemma {:induction false} ExcessBound(q: nat, extra: nat, n: nat, size: nat, total: nat)
    requires total > 0 && extra < n && q * total <= size * SPACE
    ensures (q + extra) * total < size * SPACE + n * total
  {
    assert (q + extra) * total == q * total + extra * total;
    assert extra * total + total <= n * total by {
      assert (extra + 1) * total <= n * total by {
        MulLe(extra + 1, n, total);
      }
    }
  }

  lemma {:induction false} ApportionBound(bs: seq<Brick>, total: nat, i: nat)
    requires total > 0 && bs != [] && SumGood(Floors(bs, total)) <= SPACE < SumGood(Floors(bs, total)) + |bs| && i < |bs|
    requires |Apportion(bs, total)| == |bs|
    ensures Apportion(bs, total)[i].good * total < bs[i].size * SPACE + |bs| * total
  {
    var extra := if i == Taker(bs, total) then SPACE - SumGood(Floors(bs, total)) else 0;
    ApportionAt(bs, total, i);
    ShareBounds(bs[i].size, total);
    ExcessBound(Share(bs[i].size, total), extra, |bs|, bs[i].size, total);
  }

  /** Brick i is the first with a rounded-down share, or the first of bricks without any. */
  predicate TakesRemainder(bs: seq<Brick>, total: nat, i: nat)
    requires total > 0 && i < |bs|
  {
    && (forall j :: 0 <= j < i ==> Share(bs[j].size, total) == 0)
    && (Share(bs[i].size, total) != 0 || (i == 0 && forall j :: 0 <= j < |bs| ==> Share(bs[j].size, total) == 0))
  }

  lemma {:induction false} FirstTakes(bs: seq<Brick>, total: nat, k: nat)
    requires total > 0 && bs != [] && k == Taker(bs, total)
    ensures TakesRemainder(bs, total, k)
  {
    var fs := Floors(bs, total);
    forall j | 0 <= j < |bs|
      ensures fs[j].good == Share(bs[j].size, total)
    {
      FloorsAt(bs, total, j);
    }
  }

  lemma {:induction false} AllBounded(bs: seq<Brick>, total: nat)
    requires total > 0 && bs != [] && SumGood(Floors(bs, total)) <= SPACE < SumGood(Floors(bs, total)) + |bs|
    requires |Apportion(bs, total)| == |bs|
    ensures forall i :: 0 <= i < |bs| ==> Apportion(bs, total)[i].good * total < bs[i].size * SPACE + |bs| * total
  {
    forall i | 0 <= i < |bs|
      ensures Apportion(bs, total)[i].good * total < bs[i].size * SPACE + |bs| * total
    {
      ApportionBound(bs, total, i);
    }
  }

  /** The sizes without the bounds. */
  lemma {:induction false} AllShares(bs: seq<Brick>, total: nat)
    requires total > 0 && bs != [] && SumGood(Floors(bs, total)) <= SPACE
    ensures var r := Apportion(bs, total);
            && |r| == |bs| && SumGood(r) == SPACE
            && forall i :: 0 <= i < |bs| ==>
                 && r[i] == bs[i].(good := r[i].good) && r[i].good >= Share(bs[i].size, total)
                 && (r[i].good != Share(bs[i].size, total) ==> TakesRemainder(bs, total, i))
  {
    SumGoodAdd(Floors(bs, total), Taker(bs, total), SPACE - SumGood(Floors(bs, total)));
    FirstTakes(bs, total, Taker(bs, total));
    var r := Apportion(bs, total);
    forall i | 0 <= i < |bs|
      ensures r[i] == bs[i].(good := r[i].good) && r[i].good >= Share(bs[i].size, total)
      ensures r[i].good != Share(bs[i].size, total) ==> i == Taker(bs, total)
    {
      ApportionAt(bs, total, i);
    }
  }

  /** calc_sizes keeps everything but the good sizes, which add up to exactly 2^32;
      each is at least the rounded-down share and exceeds the exact share by less
      than the number of bricks.  Only one exceeds the rounded-down share: the first that
      has one, or the first of all if none has. */
  lemma {:induction false} ApportionFair(bs: seq<Brick>, total: nat)
    requires total > 0 && total == SumSize(bs)
    ensures bs != [] && SumGood(Floors(bs, total)) <= SPACE
    ensures var r := Apportion(bs, total);
            && |r| == |bs| && SumGood(r) == SPACE
            && forall i :: 0 <= i < |bs| ==>
                 && r[i] == bs[i].(good := r[i].good)
                 && r[i].good >= Share(bs[i].size, total)
                 && r[i].good * total < bs[i].size * SPACE + |bs| * total
    ensures var r := Apportion(bs, total);
            forall i :: 0 <= i < |bs| && r[i].good != Share(bs[i].size, total) ==> TakesRemainder(bs, total, i)
  {
    LeftoverBounds(bs, total);
    AllShares(bs, total);
    AllBounded(bs, total);
  }
}
