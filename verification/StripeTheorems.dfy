/**
  What recovery of a coalesced stripe set gives back (extras/stripe-merge.c), byte by byte.
*/
module StripeTheorems {
  import opened Options
  import opened Stripe

  // ------------------------------------------------------------ chunks of a file

  /** The chunk that holds offset o: o / size. */
  function ChunkOf(o: nat, size: nat): (j: nat)
    requires size > 0
    ensures Start(j, size) <= o < Start(j, size) + size
  {
    if o < size then 0 else ChunkOf(o - size, size) + 1
  }

  lemma {:induction false} ChunkOfIsQuotient(o: nat, size: nat)
    requires size > 0
    ensures ChunkOf(o, size) == o / size
  {
    if o >= size {
      ChunkOfIsQuotient(o - size, size);
      QuotientStep(o, size);
    }
  }

  lemma {:induction false} QuotientStep(o: nat, size: nat)
    requires 0 < size <= o
    ensures o / size == (o - size) / size + 1
  {
    var k := o / size - ((o - size) / size + 1);
    assert size * k == size * (o / size) - size * ((o - size) / size) - size;
    MulLarge(size, k);
  }

  lemma {:induction false} ChunkUnique(o: nat, size: nat, j: nat)
    requires size > 0 && Start(j, size) <= o < Start(j, size) + size
    ensures j == ChunkOf(o, size)
  {
    var c := ChunkOf(o, size);
    if j < c {
      StartGrows(j, c - j, size);
    } else if c < j {
      StartGrows(c, j - c, size);
    }
  }

  /** A chunk holds the file's bytes at its offsets and nothing else. */
  lemma {:induction false} ChunkBytes(f: File, size: nat, j: nat, o: nat)
    requires size > 0 && Start(j, size) <= o
    ensures o < Start(j, size) + |Chunk(f, size, j)| <==> o < |f| && o < Start(j, size) + size
    ensures o < Start(j, size) + |Chunk(f, size, j)| ==> Chunk(f, size, j)[o - Start(j, size)] == f[o]
  {
  }

  lemma {:induction false} SameChunkByte(f: File, g: File, size: nat, o: nat)
    requires size > 0 && Chunk(f, size, ChunkOf(o, size)) == Chunk(g, size, ChunkOf(o, size))
    ensures o < |f| <==> o < |g|
    ensures ByteAt(f, o) == ByteAt(g, o)
  {
    ChunkBytes(f, size, ChunkOf(o, size), o);
    ChunkBytes(g, size, ChunkOf(o, size), o);
  }

  /** Files with the same bytes and the same length are the same file. */
  lemma {:induction false} SameBytes(f: File, g: File)
    requires |f| == |g| && forall o: nat :: ByteAt(f, o) == ByteAt(g, o)
    ensures f == g
  {
    forall o | 0 <= o < |f|
      ensures f[o] == g[o]
    {
      assert ByteAt(f, o) == ByteAt(g, o);
    }
  }

  /** Files with the same chunks are the same file. */
  lemma {:induction false} SameChunks(f: File, g: File, size: nat)
    requires size > 0 && forall c: nat :: Chunk(f, size, c) == Chunk(g, size, c)
    ensures f == g
  {
    forall o: nat
      ensures ByteAt(f, o) == ByteAt(g, o)
    {
      SameChunkByte(f, g, size, o);
    }
    SameChunkByte(f, g, size, |f|);
    SameChunkByte(f, g, size, |g|);
    SameBytes(f, g);
  }

  // -------------------------------------------------------------- splitting a file

  /** Chunks j, j + n, j + 2n, ... of the original one after another. */
  function SplitFrom(orig: File, size: nat, n: nat, j: nat): File
    requires size > 0 && n > 0
    decreases if Start(j, size) >= |orig| then 0 else |orig| - Start(j, size)
  {
    if Start(j, size) >= |orig| then []
    else
      StartGrows(j, n, size);
      Chunk(orig, size, j) + SplitFrom(orig, size, n, j + n)
  }

  lemma {:induction false} OriginalChunkShift(k: nat, c: nat, n: nat)
    ensures OriginalChunk(k, c + 1, n) == OriginalChunk(k + n, c, n) >= k + n
  {
    if c > 0 {
      OriginalChunkShift(k, c - 1, n);
    }
  }

  lemma {:induction false} ChunkShift(head: File, rest: File, size: nat, c: nat)
    requires size > 0 && |head| == size
    ensures Chunk(head + rest, size, c + 1) == Chunk(rest, size, c)
    ensures Chunk(head + rest, size, 0) == head
  {
    var f := head + rest;
    assert f[size..] == rest;
    assert Start(1, size) == size;
    StartGrows(0, c, size);
  }

  /** A brick whose first chunk is short has no other. */
  lemma {:induction false} SplitShort(orig: File, size: nat, n: nat, j: nat, c: nat)
    requires size > 0 && n > 0 && c > 0 && |Chunk(orig, size, j)| < size
    ensures SplitFrom(orig, size, n, j + n) == []
    ensures Chunk(orig, size, OriginalChunk(j, c, n)) == []
  {
    OriginalChunkShift(j, c - 1, n);
    StartGrows(j, n, size);
    StartGrows(j, OriginalChunk(j, c, n) - j, size);
  }

  lemma {:induction false} ShortChunk(f: File, size: nat, c: nat)
    requires size > 0 && |f| <= size
    ensures Chunk(f, size, 0) == f
    ensures c > 0 ==> Chunk(f, size, c) == []
  {
    StartGrows(0, c, size);
  }

  lemma {:induction false} SplitShortChunk(orig: File, size: nat, n: nat, j: nat, c: nat)
    requires size > 0 && n > 0 && |Chunk(orig, size, j)| < size
    ensures Chunk(SplitFrom(orig, size, n, j), size, c) == Chunk(orig, size, OriginalChunk(j, c, n))
  {
    var head := Chunk(orig, size, j);
    SplitShort(orig, size, n, j, c + 1);
    assert SplitFrom(orig, size, n, j) == head;
    ShortChunk(head, size, c);
    if c > 0 {
      SplitShort(orig, size, n, j, c);
    }
  }

  lemma {:induction false} SplitLongChunk(orig: File, size: nat, n: nat, j: nat, c: nat)
    requires size > 0 && n > 0 && |Chunk(orig, size, j)| == size
    ensures Chunk(SplitFrom(orig, size, n, j), size, 0) == Chunk(orig, size, j)
    ensures Chunk(SplitFrom(orig, size, n, j), size, c + 1) == Chunk(SplitFrom(orig, size, n, j + n), size, c)
  {
    ChunkShift(Chunk(orig, size, j), SplitFrom(orig, size, n, j + n), size, c);
  }

  lemma {:induction false} SplitChunk(orig: File, size: nat, n: nat, j: nat, c: nat)
    requires size > 0 && n > 0
    ensures Chunk(SplitFrom(orig, size, n, j), size, c) == Chunk(orig, size, OriginalChunk(j, c, n))
    decreases c
  {
    if |Chunk(orig, size, j)| < size {
      SplitShortChunk(orig, size, n, j, c);
    } else if c == 0 {
      SplitLongChunk(orig, size, n, j, 0);
    } else {
      SplitLongChunk(orig, size, n, j, c - 1);
      SplitChunk(orig, size, n, j + n, c - 1);
      OriginalChunkShift(j, c - 1, n);
    }
  }

  /** The coalesced format is exactly the brick's chunks laid end to end: a brick is
      accepted by the recovery contract if and only if it is this file. */
  lemma {:induction false} CoalescedIsSplit(orig: File, size: nat, n: nat, k: nat, f: File)
    requires size > 0 && n > 0
    ensures Coalesced(orig, size, n, k, f) <==> f == SplitFrom(orig, size, n, k)
  {
    var s := SplitFrom(orig, size, n, k);
    forall c: nat
      ensures Chunk(s, size, c) == Chunk(orig, size, OriginalChunk(k, c, n))
    {
      SplitChunk(orig, size, n, k, c);
    }
    if Coalesced(orig, size, n, k, f) {
      forall c: nat
        ensures Chunk(f, size, c) == Chunk(s, size, c)
      {
        SplitChunk(orig, size, n, k, c);
      }
      SameChunks(f, s, size);
    }
  }

  // ---------------------------------------------------------- what is recovered

  /** The brick that offset o of the original belongs to. */
  function Owner(o: nat, size: nat, n: nat): (k: nat)
    requires size > 0 && n > 0
    ensures k < n
  {
    Index(ChunkOf(o, size), n)
  }

  lemma {:induction false} OwnerIsRemainder(o: nat, size: nat, n: nat)
    requires size > 0 && n > 0
    ensures Owner(o, size, n) == o / size % n
  {
    ChunkOfIsQuotient(o, size);
    IndexIsRemainder(ChunkOf(o, size), n);
  }

  lemma {:induction false} WriteChunkByte(t: File, orig: File, size: nat, j: nat, o: nat)
    requires size > 0
    ensures ByteAt(Write(t, Start(j, size), Chunk(orig, size, j)), o) ==
            if o < |orig| && ChunkOf(o, size) == j then orig[o] else ByteAt(t, o)
  {
    WriteFacts(t, Start(j, size), Chunk(orig, size, j), o);
    if Start(j, size) <= o {
      ChunkBytes(orig, size, j, o);
      if o < Start(j, size) + size {
        ChunkUnique(o, size, j);
      }
    }
  }

  lemma {:induction false} TurnedByte(orig: File, size: nat, present: bool, t: File, j: nat, o: nat)
    requires size > 0
    ensures ByteAt(Turned(orig, size, present, t, j), o) ==
            if o < |orig| && ChunkOf(o, size) == j && present then orig[o] else ByteAt(t, o)
  {
    WriteChunkByte(t, orig, size, j, o);
  }

  lemma {:induction false} RestoreStep(orig: File, size: nat, bricks: seq<Option<File>>, was: File, m: nat, o: nat, j: nat)
    requires size > 0 && |bricks| > 0 && m > 0 && j == ChunkOf(o, size)
    ensures ByteAt(Restore(orig, size, bricks, was, m), o) ==
            if j == m - 1 && o < |orig| && Present(bricks, j) then ByteAt(orig, o)
            else ByteAt(Restore(orig, size, bricks, was, m - 1), o)
  {
    TurnedByte(orig, size, Present(bricks, m - 1), Restore(orig, size, bricks, was, m - 1), m - 1, o);
  }

  /** The turns that are not the chunk's own leave its bytes alone. */
  lemma {:induction false} OtherTurns(orig: File, size: nat, bricks: seq<Option<File>>, was: File, a: nat, m: nat, o: nat, j: nat)
    requires size > 0 && |bricks| > 0 && j == ChunkOf(o, size) && a <= m && (m <= j || j < a)
    ensures ByteAt(Restore(orig, size, bricks, was, m), o) == ByteAt(Restore(orig, size, bricks, was, a), o)
    decreases m
  {
    if a < m {
      OtherTurns(orig, size, bricks, was, a, m - 1, o, j);
      RestoreStep(orig, size, bricks, was, m, o, j);
    }
  }

  lemma {:induction false} RestoreByte(orig: File, size: nat, bricks: seq<Option<File>>, was: File, m: nat, o: nat)
    requires size > 0 && |bricks| > 0
    ensures var j := ChunkOf(o, size);
            ByteAt(Restore(orig, size, bricks, was, m), o) ==
            if o < |orig| && j < m && Present(bricks, j) then orig[o] else ByteAt(was, o)
  {
    var j := ChunkOf(o, size);
    if j < m {
      OtherTurns(orig, size, bricks, was, j + 1, m, o, j);
      RestoreStep(orig, size, bricks, was, j + 1, o, j);
      OtherTurns(orig, size, bricks, was, 0, j, o, j);
    } else {
      OtherTurns(orig, size, bricks, was, 0, m, o, j);
    }
  }

  /** Chunk j is written and reaches past offset o. */
  predicate Covers(orig: File, size: nat, bricks: seq<Option<File>>, j: nat, o: nat)
    requires size > 0 && |bricks| > 0
  {
    var c := Chunk(orig, size, j);
    Present(bricks, j) && c != [] && o < Start(j, size) + |c|
  }

  ghost predicate Reaches(orig: File, size: nat, bricks: seq<Option<File>>, m: nat, o: nat)
    requires size > 0 && |bricks| > 0
  {
    exists j: nat :: j < m && Covers(orig, size, bricks, j, o)
  }

  lemma {:induction false} ReachesStep(orig: File, size: nat, bricks: seq<Option<File>>, m: nat, o: nat)
    requires size > 0 && |bricks| > 0 && m > 0
    ensures Reaches(orig, size, bricks, m, o) <==> Reaches(orig, size, bricks, m - 1, o) || Covers(orig, size, bricks, m - 1, o)
  {
    if Reaches(orig, size, bricks, m, o) {
      var j: nat :| j < m && Covers(orig, size, bricks, j, o);
      assert j == m - 1 || j < m - 1;
    }
  }

  lemma {:induction false} LengthStep(orig: File, size: nat, bricks: seq<Option<File>>, was: File, m: nat, o: nat)
    requires size > 0 && |bricks| > 0 && m > 0
    ensures o < |Restore(orig, size, bricks, was, m)| <==>
            o < |Restore(orig, size, bricks, was, m - 1)| || Covers(orig, size, bricks, m - 1, o)
  {
    WriteFacts(Restore(orig, size, bricks, was, m - 1), Start(m - 1, size), Chunk(orig, size, m - 1), o);
  }

  /** The target reaches as far as it did, or as the furthest chunk written. */
  lemma {:induction false} RestoreLength(orig: File, size: nat, bricks: seq<Option<File>>, was: File, m: nat, o: nat)
    requires size > 0 && |bricks| > 0
    ensures o < |Restore(orig, size, bricks, was, m)| <==> o < |was| || Reaches(orig, size, bricks, m, o)
  {
    if m > 0 {
      RestoreLength(orig, size, bricks, was, m - 1, o);
      LengthStep(orig, size, bricks, was, m, o);
      ReachesStep(orig, size, bricks, m, o);
    }
  }

  /** Every byte whose brick survives is back at its original offset; every other byte
      reads as what the target held before, or zero. */
  lemma {:induction false} RecoveredByte(orig: File, size: nat, bricks: seq<Option<File>>, was: File, o: nat)
    requires size > 0 && |bricks| > 0
    ensures ByteAt(Restore(orig, size, bricks, was, ChunkCount(orig, size)), o) ==
            if o < |orig| && bricks[Owner(o, size, |bricks|)].Some? then orig[o] else ByteAt(was, o)
  {
    var j := ChunkOf(o, size);
    RestoreByte(orig, size, bricks, was, ChunkCount(orig, size), o);
    InCount(orig, size, j);
  }

  lemma {:induction false} RecoveredAt(orig: File, size: nat, bricks: seq<Option<File>>, was: File, o: nat)
    requires size > 0 && |bricks| > 0 && forall k :: 0 <= k < |bricks| ==> bricks[k].Some?
    ensures var t := Restore(orig, size, bricks, was, ChunkCount(orig, size));
            && (o < |t| <==> o < |was| || o < |orig|)
            && ByteAt(t, o) == if o < |orig| then orig[o] else ByteAt(was, o)
  {
    RecoveredByte(orig, size, bricks, was, o);
    RestoreLength(orig, size, bricks, was, ChunkCount(orig, size), o);
    var j := ChunkOf(o, size);
    InCount(orig, size, j);
    ChunkBytes(orig, size, j, o);
    if o < |orig| {
      assert Covers(orig, size, bricks, j, o);
    }
  }

  /** With every brick present the target is the original file followed by whatever the
      target held beyond that length, so it is the original if and only if the target
      was not longer to begin with. */
  lemma {:induction false} RecoveredFile(orig: File, size: nat, bricks: seq<Option<File>>, was: File)
    requires size > 0 && |bricks| > 0 && forall k :: 0 <= k < |bricks| ==> bricks[k].Some?
    ensures var t := Restore(orig, size, bricks, was, ChunkCount(orig, size));
            && t == orig + (if |was| > |orig| then was[|orig|..] else [])
            && (t == orig <==> |was| <= |orig|)
  {
    var t := Restore(orig, size, bricks, was, ChunkCount(orig, size));
    var whole := orig + (if |was| > |orig| then was[|orig|..] else []);
    RecoveredAt(orig, size, bricks, was, |t|);
    RecoveredAt(orig, size, bricks, was, |was|);
    RecoveredAt(orig, size, bricks, was, |orig|);
    forall o: nat
      ensures ByteAt(t, o) == ByteAt(whole, o)
    {
      RecoveredAt(orig, size, bricks, was, o);
    }
    SameBytes(t, whole);
  }

  /** The bricks that a file is split into. */
  function SplitBricks(orig: File, size: nat, n: nat): (bricks: seq<Option<File>>)
    requires size > 0 && n > 0
    ensures |bricks| == n && forall k :: 0 <= k < n ==> bricks[k] == Some(SplitFrom(orig, size, n, k))
  {
    seq(n, k requires 0 <= k < n => Some(SplitFrom(orig, size, n, k)))
  }

  /** Splitting any file in any geometry and recovering it into an empty target gives the
      file back. */
  lemma {:induction false} SplitRecovers(orig: File, size: nat, n: nat)
    requires size > 0 && n > 0
    ensures var bricks := SplitBricks(orig, size, n);
            AllCoalesced(orig, size, bricks) && Restore(orig, size, bricks, [], ChunkCount(orig, size)) == orig
  {
    var bricks := SplitBricks(orig, size, n);
    forall k | 0 <= k < n
      ensures Coalesced(orig, size, n, k, bricks[k].value)
    {
      CoalescedIsSplit(orig, size, n, k, bricks[k].value);
    }
    RecoveredFile(orig, size, bricks, []);
  }
}
