/**
  Recovery of a file striped in the traditional format (extras/stripe-merge.c): every
  brick keeps its data at the original offsets, with holes elsewhere, and the bricks
  are merged by a bytewise OR, block after block.
*/
module StripeTraditional {
  import opened Options
  import opened Stripe
  import opened StripeTheorems

  const BLOCK: nat := 4096

  /** What a brick contributes; a brick that is missing contributes nothing. */
  function Content(brick: Option<File>): File {
    if brick.Some? then brick.value else []
  }

  /** The OR over the first m bricks of the byte at offset o. */
  function OrAt(bricks: seq<Option<File>>, m: nat, o: nat): Byte
    requires m <= |bricks|
  {
    if m == 0 then 0 else OrAt(bricks, m - 1, o) | ByteAt(Content(bricks[m - 1]), o)
  }

  /** The length of the longest of the first m bricks. */
  function Longest(bricks: seq<Option<File>>, m: nat): (l: nat)
    requires m <= |bricks|
    ensures forall k :: 0 <= k < m ==> |Content(bricks[k])| <= l
  {
    if m == 0 then 0
    else
      var l := Longest(bricks, m - 1);
      var c := |Content(bricks[m - 1])|;
      if c > l then c else l
  }

  /** The merge of all bricks, up to length l. */
  function Merged(bricks: seq<Option<File>>, l: nat): File {
    seq(l, o requires o >= 0 => OrAt(bricks, |bricks|, o))
  }

  function Min(a: nat, b: nat): nat {
    if a < b then a else b
  }

  // ------------------------------------------------------------------- the loop

  /** What one read(2) of a block from position base on returns, zero-padded. */
  function Block(f: File, base: nat): (b: File)
    ensures |b| == BLOCK
  {
    seq(BLOCK, i requires 0 <= i => ByteAt(f, base + i))
  }

  /** Position p is base, or the end of the file. */
  predicate At(f: File, p: nat, base: nat) {
    p == Min(|f|, base)
  }

  /** How many bytes a read of a block at base gives if length bytes exist. */
  function Readable(length: nat, base: nat): nat {
    if length <= base then 0 else Min(BLOCK, length - base)
  }

  /** memset and read(2) of one block. */
  method ReadBlock(f: File, p: nat, ghost base: nat) returns (buf: File, r: nat)
    requires At(f, p, base)
    ensures buf == Block(f, base) && r == Readable(|f|, base) && At(f, p + r, base + BLOCK)
  {
    r := Min(BLOCK, |f| - p);
    buf := f[p..p + r] + Zeros(BLOCK - r);
    forall i | 0 <= i < BLOCK
      ensures buf[i] == ByteAt(f, base + i)
    {
      assert i < r ==> p == base;
    }
    assert buf == Block(f, base);
  }

  lemma {:induction false} ReadableLongest(bricks: seq<Option<File>>, i: nat, base: nat)
    requires i < |bricks|
    ensures var r, most := Readable(|Content(bricks[i])|, base), Readable(Longest(bricks, i), base);
            Readable(Longest(bricks, i + 1), base) == if r > most then r else most
  {
  }

  ghost predicate AllAt(bricks: seq<Option<File>>, pos: seq<nat>, m: nat, from: nat, base: nat) {
    && |pos| == |bricks| && m <= |bricks|
    && (forall k :: 0 <= k < m ==> At(Content(bricks[k]), pos[k], base))
    && forall k :: m <= k < |bricks| ==> At(Content(bricks[k]), pos[k], from)
  }

  /** The loop that reads a block from every brick. */
  method ReadBlocks(bricks: seq<Option<File>>, start: seq<nat>, ghost base: nat)
    returns (bufs: seq<File>, most: nat, pos: seq<nat>)
    requires AllAt(bricks, start, |bricks|, base, base)
    ensures |bufs| == |bricks|
    ensures forall k :: 0 <= k < |bricks| ==> bufs[k] == Block(Content(bricks[k]), base)
    ensures most == Readable(Longest(bricks, |bricks|), base)
    ensures AllAt(bricks, pos, |bricks|, base + BLOCK, base + BLOCK)
  {
    bufs, most, pos := [], 0, start;
    for i := 0 to |bricks|
      invariant |bufs| == i && AllAt(bricks, pos, i, base, base + BLOCK)
      invariant forall k :: 0 <= k < i ==> bufs[k] == Block(Content(bricks[k]), base)
      invariant most == Readable(Longest(bricks, i), base)
    {
      var buf, r := ReadBlock(Content(bricks[i]), pos[i], base);
      ReadableLongest(bricks, i, base);
      bufs, pos := bufs + [buf], pos[i := pos[i] + r];
      if r > most {
        most := r;
      }
    }
  }

  /** The double loop that ORs the buffers together. */
  method OrBlocks(ghost bricks: seq<Option<File>>, bufs: seq<File>, ghost base: nat, most: nat) returns (out: File)
    requires |bufs| == |bricks| && most <= BLOCK
    requires forall k :: 0 <= k < |bricks| ==> bufs[k] == Block(Content(bricks[k]), base)
    ensures |out| == most && forall i :: 0 <= i < most ==> out[i] == OrAt(bricks, |bricks|, base + i)
  {
    out := [];
    for i := 0 to most
      invariant |out| == i && forall k :: 0 <= k < i ==> out[k] == OrAt(bricks, |bricks|, base + k)
    {
      var b: Byte := 0;
      for j := 0 to |bufs|
        invariant b == OrAt(bricks, j, base + i)
      {
        assert bufs[j][i] == ByteAt(Content(bricks[j]), base + i);
        b := b | bufs[j][i];
      }
      out := out + [b];
    }
  }

  lemma {:induction false} WriteOn(t: File, a: File, b: File)
    ensures Write(Write(t, 0, a), |a|, b) == Write(t, 0, a + b)
  {
    var l, r := Write(Write(t, 0, a), |a|, b), Write(t, 0, a + b);
    WriteFacts(t, 0, a, 0);
    WriteFacts(Write(t, 0, a), |a|, b, 0);
    WriteFacts(t, 0, a + b, 0);
    forall o: nat
      ensures ByteAt(l, o) == ByteAt(r, o)
    {
      WriteFacts(t, 0, a, o);
      WriteFacts(Write(t, 0, a), |a|, b, o);
      WriteFacts(t, 0, a + b, o);
    }
    SameBytes(l, r);
  }

  lemma {:induction false} MergedStep(bricks: seq<Option<File>>, base: nat, blk: File)
    requires forall i :: 0 <= i < |blk| ==> blk[i] == OrAt(bricks, |bricks|, base + i)
    ensures Merged(bricks, base) + blk == Merged(bricks, base + |blk|)
  {
    var l, r := Merged(bricks, base) + blk, Merged(bricks, base + |blk|);
    forall o | 0 <= o < base + |blk|
      ensures l[o] == r[o]
    {
      if o >= base {
        assert blk[o - base] == OrAt(bricks, |bricks|, base + (o - base));
      }
    }
  }

  /** The target once the first l bytes of the merge are in it. */
  function MergedInto(was: File, bricks: seq<Option<File>>, l: nat): File {
    Write(was, 0, Merged(bricks, l))
  }

  /** One more block; after the longest brick has ended it is empty. */
  lemma {:induction false} BlockWritten(bricks: seq<Option<File>>, was: File, target: File, base: nat, off: nat, blk: File)
    requires off == Min(base, Longest(bricks, |bricks|)) && target == MergedInto(was, bricks, off)
    requires |blk| == Readable(Longest(bricks, |bricks|), base)
    requires forall i :: 0 <= i < |blk| ==> blk[i] == OrAt(bricks, |bricks|, base + i)
    ensures Write(target, off, blk) == MergedInto(was, bricks, off + |blk|)
    ensures off + |blk| == Min(base + BLOCK, Longest(bricks, |bricks|))
  {
    if blk != [] {
      WriteOn(was, Merged(bricks, off), blk);
      MergedStep(bricks, off, blk);
    }
  }

  lemma {:induction false} NothingMerged(was: File, bricks: seq<Option<File>>)
    ensures MergedInto(was, bricks, 0) == was
  {
  }

  /** generate_file_traditional: the target receives the OR of the bricks, as far as
      the longest of them reaches. */
  method GenerateTraditional(bricks: seq<Option<File>>, was: File) returns (target: File)
    ensures target == Write(was, 0, Merged(bricks, Longest(bricks, |bricks|)))
  {
    target := was;
    NothingMerged(was, bricks);
    ghost var all := Longest(bricks, |bricks|);
    var off: nat, pos: seq<nat>, more := 0, seq(|bricks|, _ => 0), true;
    ghost var base: nat := 0;
    while more
      invariant AllAt(bricks, pos, |bricks|, base, base)
      invariant off == Min(base, all) && target == MergedInto(was, bricks, off)
      invariant !more ==> off == all
      decreases more, all - off
    {
      var bufs, most;
      bufs, most, pos := ReadBlocks(bricks, pos, base);
      var blk := OrBlocks(bricks, bufs, base, most);
      BlockWritten(bricks, was, target, base, off, blk);
      target := Write(target, off, blk);
      base, off, more := base + BLOCK, off + most, most > 0;
    }
  }

  /** Whatever the bricks hold: a bit is set in the merge exactly if some brick has it. */
  lemma {:induction false} OrBits(bricks: seq<Option<File>>, m: nat, o: nat, mask: Byte)
    requires m <= |bricks|
    ensures OrAt(bricks, m, o) & mask == 0 <==> forall k :: 0 <= k < m ==> ByteAt(Content(bricks[k]), o) & mask == 0
  {
    if m > 0 {
      OrBits(bricks, m - 1, o, mask);
      NoBits(OrAt(bricks, m - 1, o), ByteAt(Content(bricks[m - 1]), o), mask);
    }
  }

  lemma {:induction false} NoBits(a: Byte, b: Byte, mask: Byte)
    ensures (a | b) & mask == 0 <==> a & mask == 0 && b & mask == 0
  {
  }

  // ---------------------------------------------------------- what is recovered

  /** The traditional format: the owner of an offset holds the original's byte there,
      every other brick holds a zero or ends before it. */
  ghost predicate Traditional(orig: File, size: nat, n: nat, k: nat, f: File)
    requires size > 0 && n > 0
  {
    && |f| <= |orig|
    && forall o :: 0 <= o < |orig| ==>
         if Owner(o, size, n) == k then o < |f| && f[o] == orig[o] else ByteAt(f, o) == 0
  }

  ghost predicate AllTraditional(orig: File, size: nat, bricks: seq<Option<File>>)
    requires size > 0 && |bricks| > 0
  {
    forall k :: 0 <= k < |bricks| && bricks[k].Some? ==> Traditional(orig, size, |bricks|, k, bricks[k].value)
  }

  /** At each offset only the owner contributes. */
  lemma {:induction false} OrIsOwner(orig: File, size: nat, bricks: seq<Option<File>>, m: nat, o: nat)
    requires size > 0 && |bricks| > 0 && m <= |bricks| && o < |orig| && AllTraditional(orig, size, bricks)
    ensures var k := Owner(o, size, |bricks|);
            OrAt(bricks, m, o) == if k < m && bricks[k].Some? then orig[o] else 0
  {
    if m > 0 {
      OrIsOwner(orig, size, bricks, m - 1, o);
      if bricks[m - 1].Some? {
        assert Traditional(orig, size, |bricks|, m - 1, bricks[m - 1].value);
      }
    }
  }

  lemma {:induction false} LongestAtMost(orig: File, size: nat, bricks: seq<Option<File>>, m: nat)
    requires size > 0 && |bricks| > 0 && m <= |bricks| && AllTraditional(orig, size, bricks)
    ensures Longest(bricks, m) <= |orig|
  {
    if m > 0 {
      LongestAtMost(orig, size, bricks, m - 1);
      assert bricks[m - 1].Some? ==> Traditional(orig, size, |bricks|, m - 1, bricks[m - 1].value);
    }
  }

  lemma {:induction false} OwnerInside(orig: File, size: nat, bricks: seq<Option<File>>, o: nat)
    requires size > 0 && |bricks| > 0 && AllTraditional(orig, size, bricks)
    requires o < |orig| && bricks[Owner(o, size, |bricks|)].Some?
    ensures o < Longest(bricks, |bricks|)
  {
    var k := Owner(o, size, |bricks|);
    assert Traditional(orig, size, |bricks|, k, bricks[k].value);
    assert |Content(bricks[k])| <= Longest(bricks, |bricks|);
  }

  /** Every byte whose brick survives is back; any other byte below the merged length is
      zero (not what the target held), and beyond that length the target is untouched. */
  lemma {:induction false} MergedByte(orig: File, size: nat, bricks: seq<Option<File>>, was: File, o: nat)
    requires size > 0 && |bricks| > 0 && AllTraditional(orig, size, bricks)
    ensures var l := Longest(bricks, |bricks|);
            && l <= |orig|
            && ByteAt(Write(was, 0, Merged(bricks, l)), o) ==
               (if o >= l then ByteAt(was, o) else if bricks[Owner(o, size, |bricks|)].Some? then orig[o] else 0)
            && (o < |orig| && bricks[Owner(o, size, |bricks|)].Some? ==> o < l)
  {
    var l := Longest(bricks, |bricks|);
    LongestAtMost(orig, size, bricks, |bricks|);
    WriteFacts(was, 0, Merged(bricks, l), o);
    if o < |orig| {
      OrIsOwner(orig, size, bricks, |bricks|, o);
      if bricks[Owner(o, size, |bricks|)].Some? {
        OwnerInside(orig, size, bricks, o);
      }
    }
  }

  lemma {:induction false} LongestIsAll(orig: File, size: nat, bricks: seq<Option<File>>)
    requires size > 0 && |bricks| > 0 && AllTraditional(orig, size, bricks)
    requires forall k :: 0 <= k < |bricks| ==> bricks[k].Some?
    ensures Longest(bricks, |bricks|) == |orig|
  {
    LongestAtMost(orig, size, bricks, |bricks|);
    if |orig| > 0 {
      OwnerInside(orig, size, bricks, |orig| - 1);
    }
  }

  /** With every brick present the merge is the original, followed by what the target
      held beyond it. */
  lemma {:induction false} MergedFile(orig: File, size: nat, bricks: seq<Option<File>>, was: File)
    requires size > 0 && |bricks| > 0 && AllTraditional(orig, size, bricks)
    requires forall k :: 0 <= k < |bricks| ==> bricks[k].Some?
    ensures var t := Write(was, 0, Merged(bricks, Longest(bricks, |bricks|)));
            && t == orig + (if |was| > |orig| then was[|orig|..] else [])
            && (t == orig <==> |was| <= |orig|)
  {
    LongestIsAll(orig, size, bricks);
    var merged := Merged(bricks, |orig|);
    forall o | 0 <= o < |orig|
      ensures merged[o] == orig[o]
    {
      OrIsOwner(orig, size, bricks, |bricks|, o);
    }
    assert merged == orig;
    WriteWhole(was, orig);
  }

  lemma {:induction false} WriteWhole(t: File, f: File)
    ensures Write(t, 0, f) == f + (if |t| > |f| then t[|f|..] else [])
  {
    assert t[..0] == [];
  }
}
