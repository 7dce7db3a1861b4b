/**
  Geometry of a dispersed volume (cli_cmd_create_disperse_check in
  cli/src/cli-cmd-parser.c) when no disperse-data count is given.
*/
module Disperse {
  predicate PowerOfTwo(n: nat) {
    n == 1 || (n > 0 && n % 2 == 0 && PowerOfTwo(n / 2))
  }

  /** The lowest bit set in n. */
  function LowBit(n: nat): nat {
    if n == 0 then 0 else if n % 2 == 1 then 1 else 2 * LowBit(n / 2)
  }

  // ------------------------------------------------------------ n & -n on machine words

  function Pow2(w: nat): nat {
    if w == 0 then 1 else 2 * Pow2(w - 1)
  }

  /** Bitwise and. */
  function And(a: nat, b: nat): nat {
    if a == 0 then 0 else (if a % 2 == 1 && b % 2 == 1 then 1 else 0) + 2 * And(a / 2, b / 2)
  }

  /** A word and its complement have no bit in common. */
  lemma {:induction false} AndComplement(n: nat, w: nat)
    requires n < Pow2(w)
    ensures And(n, Pow2(w) - 1 - n) == 0
  {
    if n > 0 {
      assert (Pow2(w) - 1 - n) / 2 == Pow2(w - 1) - 1 - n / 2;
      AndComplement(n / 2, w - 1);
    }
  }

  /** In two's complement of w bits -n is 2^w - n, and n & -n is the lowest bit set. */
  lemma {:induction false} AndNegated(n: nat, w: nat)
    requires 0 < n < Pow2(w)
    ensures And(n, Pow2(w) - n) == LowBit(n)
  {
    if n % 2 == 1 {
      assert (Pow2(w) - n) / 2 == Pow2(w - 1) - 1 - n / 2;
      AndComplement(n / 2, w - 1);
    } else {
      assert (Pow2(w) - n) / 2 == Pow2(w - 1) - n / 2;
      AndNegated(n / 2, w - 1);
    }
  }

  /** The test of the loop on words of any width: n & -n is n exactly for the powers of
      two. */
  lemma {:induction false} BitTest(n: nat, w: nat)
    requires 0 < n < Pow2(w)
    ensures And(n, Pow2(w) - n) == n <==> PowerOfTwo(n)
  {
    AndNegated(n, w);
    LowBitIsAll(n);
  }

  lemma {:induction false} LowBitIsAll(n: nat)
    requires n > 0
    ensures LowBit(n) == n <==> PowerOfTwo(n)
    ensures LowBit(n) <= n
  {
    if n % 2 == 0 {
      LowBitIsAll(n / 2);
    }
  }

  /** Powers of two at least double. */
  lemma {:induction false} NoneBetween(a: nat, b: nat)
    requires PowerOfTwo(a) && PowerOfTwo(b) && a < b
    ensures a + a <= b
  {
    if a > 1 {
      NoneBetween(a / 2, b / 2);
    }
  }

  /** The largest power of two not above n. */
  function Floor2(n: nat): (p: nat)
    requires n > 0
    ensures PowerOfTwo(p) && p <= n < p + p
  {
    if n == 1 then 1 else Floor2(n / 2) * 2
  }

  /** Redundancy r is allowed and leaves a power of two of data bricks. */
  predicate Optimal(d: nat, r: nat) {
    1 <= r && r + r <= d - 1 && PowerOfTwo(d - r)
  }

  /** An optimal redundancy exists exactly when the number of bricks is not itself a
      power of two. */
  lemma {:induction false} OptimalExists(d: nat)
    requires d >= 1
    ensures (exists r: nat :: Optimal(d, r)) <==> !PowerOfTwo(d)
  {
    if PowerOfTwo(d) {
      forall r: nat
        ensures !Optimal(d, r)
      {
        if Optimal(d, r) {
          NoneBetween(d - r, d);
        }
      }
    } else {
      assert Optimal(d, d - Floor2(d));
    }
  }

  /** No power of two strictly between lo and hi. */
  predicate Gap(lo: nat, hi: nat) {
    forall q: nat :: lo < q < hi ==> !PowerOfTwo(q)
  }

  /** The smallest allowed redundancy that leaves a power of two of data bricks. */
  predicate Smallest(d: nat, r: nat) {
    Optimal(d, r) && Gap(d - r, d)
  }

  lemma {:induction false} GapStep(tmp: nat, d: nat)
    requires 0 < tmp < d && Gap(tmp, d) && LowBit(tmp) != tmp
    ensures Gap(tmp - 1, d)
  {
    LowBitIsAll(tmp);
  }

  /** What the two ways out of the loop mean. */
  lemma {:induction false} SearchEnds(d: nat, i: nat, tmp: nat)
    requires tmp < d && d - 1 - tmp == (d - 1) / 2 - i && Gap(tmp, d) && (i == 0 || LowBit(tmp) == tmp)
    ensures i == 0 <==> PowerOfTwo(d)
    ensures i > 0 ==> Smallest(d, d - tmp)
  {
    OptimalExists(d);
    if i > 0 {
      LowBitIsAll(tmp);
      assert Optimal(d, d - tmp);
    } else {
      forall r: nat
        ensures !Optimal(d, r)
      {
        assert Optimal(d, r) ==> tmp < d - r < d;
      }
    }
  }

  /** The search loop: tmp starts at d - 1 and i at half of it. */
  method Search(d: nat) returns (i: nat, tmp: nat)
    requires d >= 1
    ensures tmp < d
    ensures i == 0 <==> PowerOfTwo(d)
    ensures i > 0 ==> Smallest(d, d - tmp)
  {
    tmp := d - 1;
    i := tmp / 2;
    while i > 0 && LowBit(tmp) != tmp
      invariant tmp < d && d - 1 - tmp == (d - 1) / 2 - i && Gap(tmp, d)
    {
      GapStep(tmp, d);
      i, tmp := i - 1, tmp - 1;
    }
    SearchEnds(d, i, tmp);
  }

  datatype Question = NotAsked | NoOptimum | UseOptimum(redundancy: nat) | NotOptimal

  datatype Geometry = Geometry(ok: bool, disperse: int, redundancy: int, question: Question)

  /** What is promised when no redundancy was given: with a number of bricks that is a
      power of two (1 and 2 included) there is no optimum, and 1 is used if the user
      agrees and the bound allows it; otherwise the smallest optimum is used, with the
      user's agreement unless it is 1. */
  predicate Chosen(g: Geometry, d: nat, yes: bool) {
    g.disperse == d &&
    if PowerOfTwo(d) then
      g.question == NoOptimum && (g.ok <==> yes && d >= 3) && (g.ok ==> g.redundancy == 1)
    else
      && g.redundancy >= 0 && Smallest(d, g.redundancy)
      && (g.ok <==> g.redundancy == 1 || yes)
      && g.question == if g.redundancy > 1 then UseOptimum(g.redundancy) else NotAsked
  }

  /** The bricks left for data. */
  function Data(d: nat, r: int): nat {
    if r <= d then d - r else 0
  }

  /** What is promised of a redundancy that was given. */
  predicate Judged(g: Geometry, d: nat, r: int, yes: bool) {
    && g.disperse == d && g.redundancy == r
    && (g.ok <==> r <= (d - 1) / 2 && (PowerOfTwo(Data(d, r)) || yes))
    && g.question == if r <= (d - 1) / 2 && !PowerOfTwo(Data(d, r)) then NotOptimal else NotAsked
  }

  method ChooseRedundancy(d: nat, yes: bool) returns (g: Geometry)
    requires d >= 1
    ensures Chosen(g, d, yes)
  {
    var i, tmp := Search(d);
    var r, question := 1, NoOptimum;
    if i == 0 {
      if !yes {
        return Geometry(false, d, -1, question);
      }
    } else {
      r := d - tmp;
      question := if r > 1 then UseOptimum(r) else NotAsked;
      if r > 1 && !yes {
        return Geometry(false, d, r, question);
      }
    }
    return Geometry(r <= (d - 1) / 2, d, r, question);
  }

  method JudgeRedundancy(d: nat, r: int, yes: bool) returns (g: Geometry)
    requires d >= 1
    ensures Judged(g, d, r, yes)
  {
    if r > (d - 1) / 2 {
      return Geometry(false, d, r, NotAsked);
    }
    var tmp: nat := d - r;
    LowBitIsAll(tmp);
    if LowBit(tmp) != tmp {
      return Geometry(yes, d, r, NotOptimal);
    }
    return Geometry(true, d, r, NotAsked);
  }

  /** The whole check; a redundancy of -1 was not given, a disperse count of 0 or less
      means all bricks, and yes is the answer to the question if one is asked. */
  method Check(disperse: int, redundancy: int, count: int, yes: bool) returns (g: Geometry)
    ensures disperse <= 0 && count < 3 ==> !g.ok && g.question == NotAsked
    ensures disperse > 0 || count >= 3 ==>
              var d := if disperse <= 0 then count else disperse;
              if redundancy == -1 then Chosen(g, d, yes) else Judged(g, d, redundancy, yes)
  {
    var d := disperse;
    if d <= 0 {
      if count < 3 {
        return Geometry(false, d, redundancy, NotAsked);
      }
      d := count;
    }
    if redundancy == -1 {
      g := ChooseRedundancy(d, yes);
    } else {
      g := JudgeRedundancy(d, redundancy, yes);
    }
  }
}
