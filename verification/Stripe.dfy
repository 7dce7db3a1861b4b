/**
  Recovery of a striped file (extras/stripe-merge.c).  Bricks are opened in stripe
  order; a brick that is missing has no file.  The target is opened without being
  truncated, so what it held before may show through.
*/
module Stripe {
  import opened Options

  type Byte = bv8
  type File = seq<Byte>

  // -------------------------------------------------------------------- target

  function Zeros(n: nat): (s: File)
    ensures |s| == n && forall i :: 0 <= i < n ==> s[i] == 0
  {
    seq(n, _ => 0)
  }

  /** The byte a read returns: files read as zeros beyond their end. */
  function ByteAt(f: File, o: nat): Byte {
    if o < |f| then f[o] else 0
  }

  /** write(2) at an offset, extending the file over a hole if need be. */
  function Write(t: File, off: nat, buf: File): File {
    if buf == [] then t
    else
      var length := if off + |buf| > |t| then off + |buf| else |t|;
      seq(length, o requires 0 <= o => if off <= o < off + |buf| then buf[o - off] else ByteAt(t, o))
  }

  lemma {:induction false} WriteFacts(t: File, off: nat, buf: File, o: nat)
    ensures |Write(t, off, buf)| == if buf == [] then |t| else if off + |buf| > |t| then off + |buf| else |t|
    ensures ByteAt(Write(t, off, buf), o) == if off <= o < off + |buf| then buf[o - off] else ByteAt(t, o)
  {
  }

  // ------------------------------------------------------------------ geometry

  /** Where chunk j starts in the original file: j * size. */
  function Start(j: nat, size: nat): nat {
    if j == 0 then 0 else Start(j - 1, size) + size
  }

  lemma {:induction false} StartIsProduct(j: nat, size: nat)
    ensures Start(j, size) == j * size
  {
    if j > 0 {
      StartIsProduct(j - 1, size);
    }
  }

  lemma {:induction false} StartGrows(j: nat, d: nat, size: nat)
    ensures Start(j + d, size) >= Start(j, size)
    ensures d > 0 ==> Start(j + d, size) >= Start(j, size) + size
  {
    if d > 0 {
      StartGrows(j, d - 1, size);
    }
  }

  /** The brick that chunk j belongs to: j % n. */
  function Index(j: nat, n: nat): (i: nat)
    requires n > 0
    ensures i < n
  {
    if j < n then j else Index(j - n, n)
  }

  lemma {:induction false} IndexIsRemainder(j: nat, n: nat)
    requires n > 0
    ensures Index(j, n) == j % n
  {
    if j >= n {
      IndexIsRemainder(j - n, n);
      var q, r := (j - n) / n, (j - n) % n;
      assert j == (q + 1) * n + r;
      ModIs(j, n, q + 1, r);
    } else {
      ModIs(j, n, 0, j);
    }
  }

  lemma {:induction false} MulLarge(n: nat, k: int)
    ensures k >= 1 ==> n * k >= n
    ensures k <= -1 ==> n * k + n <= 0
  {
  }

  lemma {:induction false} ModIs(a: nat, n: nat, q: nat, r: nat)
    requires n > 0 && r < n && a == q * n + r
    ensures a % n == r
  {
    var k := a / n - q;
    assert n * k == n * (a / n) - n * q == r - a % n;
    MulLarge(n, k);
  }

  lemma {:induction false} IndexNext(j: nat, n: nat)
    requires n > 0
    ensures Index(j + 1, n) == if Index(j, n) + 1 == n then 0 else Index(j, n) + 1
  {
    if j >= n {
      IndexNext(j - n, n);
    }
  }

  /** Among n consecutive numbers one has remainder p. */
  lemma {:induction false} SomeIndex(c: nat, n: nat, p: nat) returns (m: nat)
    requires p < n
    ensures c <= m < c + n && Index(m, n) == p
  {
    if c < n {
      m := if p >= c then p else p + n;
    } else {
      m := SomeIndex(c - n, n, p);
      m := m + n;
    }
  }

  // ---------------------------------------------------------- coalesced format

  /** Chunk j of the original file; empty beyond its end. */
  function Chunk(orig: File, size: nat, j: nat): (c: File)
    requires size > 0
    ensures |c| <= size && (c == [] <==> Start(j, size) >= |orig|)
    ensures |c| < size ==> Start(j + 1, size) > |orig| || c == []
  {
    var start := Start(j, size);
    if start >= |orig| then [] else if start + size <= |orig| then orig[start..start + size] else orig[start..]
  }

  /** Chunk c of brick k is chunk k + c * n of the original. */
  function OriginalChunk(k: nat, c: nat, n: nat): nat {
    if c == 0 then k else OriginalChunk(k, c - 1, n) + n
  }

  /** The coalesced format: every chunk of a brick that survives, at its coalesced
      offset, is the chunk of the original that belongs there. */
  ghost predicate Coalesced(orig: File, size: nat, n: nat, k: nat, f: File)
    requires size > 0
  {
    forall c: nat :: Chunk(f, size, c) == Chunk(orig, size, OriginalChunk(k, c, n))
  }

  /** Chunk j of the original lies on a brick that is present. */
  predicate Present(bricks: seq<Option<File>>, j: nat)
    requires |bricks| > 0
  {
    bricks[Index(j, |bricks|)].Some?
  }

  /** The target after the turn of chunk j. */
  function Turned(orig: File, size: nat, present: bool, t: File, j: nat): File
    requires size > 0
  {
    if present then Write(t, Start(j, size), Chunk(orig, size, j)) else t
  }

  /** What has been put into the target once chunks 0 .. j - 1 are done. */
  function Restore(orig: File, size: nat, bricks: seq<Option<File>>, was: File, j: nat): File
    requires size > 0 && |bricks| > 0
  {
    if j == 0 then was
    else Turned(orig, size, Present(bricks, j - 1), Restore(orig, size, bricks, was, j - 1), j - 1)
  }

  function CountFrom(orig: File, size: nat, j: nat): (c: nat)
    requires size > 0
    ensures c >= j && Start(c, size) >= |orig|
    ensures c == j || Start(c - 1, size) < |orig|
    decreases if Start(j, size) >= |orig| then 0 else |orig| - Start(j, size)
  {
    if Start(j, size) >= |orig| then j else CountFrom(orig, size, j + 1)
  }

  function ChunkCount(orig: File, size: nat): nat
    requires size > 0
  {
    CountFrom(orig, size, 0)
  }

  /** Chunk j exists exactly when it starts inside the file. */
  lemma {:induction false} InCount(orig: File, size: nat, j: nat)
    requires size > 0
    ensures j < ChunkCount(orig, size) <==> Start(j, size) < |orig|
  {
    var c := ChunkCount(orig, size);
    if j < c {
      StartGrows(j, c - 1 - j, size);
    } else {
      StartGrows(c, j - c, size);
    }
  }

  // -------------------------------------------------------------- the main loop

  /** Position p is where chunk c starts, or the end of the file. */
  predicate ReadTo(f: File, size: nat, p: nat, c: nat) {
    p == if Start(c, size) < |f| then Start(c, size) else |f|
  }

  /** One read(2) and write(2) of the loop. */
  method CopyChunk(file: File, size: nat, p: nat, ghost c: nat, target: File, off: nat) returns (r: nat, t: File)
    requires size > 0 && ReadTo(file, size, p, c)
    ensures r == |Chunk(file, size, c)| && t == Write(target, off, Chunk(file, size, c))
    ensures ReadTo(file, size, p + r, c + 1)
  {
    r := if |file| - p < size then |file| - p else size;
    var buf := file[p..p + r];
    assert buf == Chunk(file, size, c);
    t := Write(target, off, buf);
  }

  /** at[k] is the chunk that brick k comes to next: the first one of its own from
      chunk j on. */
  predicate Schedule(at: seq<nat>, n: nat, j: nat)
    requires n > 0
  {
    |at| == n && forall k :: 0 <= k < n ==> j <= at[k] < j + n && Index(at[k], n) == k
  }

  lemma {:induction false} IndexUnique(a: nat, b: nat, n: nat)
    requires n > 0 && b <= a < b + n && Index(a, n) == Index(b, n)
    ensures a == b
  {
    if b >= n {
      IndexUnique(a - n, b - n, n);
    }
  }

  lemma {:induction false} ScheduleStep(at: seq<nat>, n: nat, j: nat, i: nat)
    requires n > 0 && Schedule(at, n, j) && i == Index(j, n)
    ensures at[i] == j && Schedule(at[i := j + n], n, j + 1)
    ensures Index(j + 1, n) == if i + 1 == n then 0 else i + 1
  {
    IndexNext(j, n);
    IndexUnique(at[i], j, n);
    var a := at[i := j + n];
    forall k | 0 <= k < n
      ensures j + 1 <= a[k] < j + 1 + n && Index(a[k], n) == k
    {
      assert j <= at[k] < j + n && Index(at[k], n) == k;
      if k != i {
        assert at[k] != j;
      }
    }
  }

  /** Brick k has had c chunks read, and its next one is chunk j of the original. */
  predicate BrickAt(orig: File, size: nat, n: nat, k: nat, f: File, p: nat, c: nat, j: nat)
    requires size > 0
  {
    ReadTo(f, size, p, c) && j == OriginalChunk(k, c, n)
  }

  predicate ReadUpTo(orig: File, size: nat, bricks: seq<Option<File>>, pos: seq<nat>, done: seq<nat>, at: seq<nat>)
    requires size > 0
  {
    && |pos| == |done| == |at| == |bricks|
    && forall k :: 0 <= k < |bricks| && bricks[k].Some? ==> BrickAt(orig, size, |bricks|, k, bricks[k].value, pos[k], done[k], at[k])
  }

  lemma {:induction false} ReadUpToStep(orig: File, size: nat, bricks: seq<Option<File>>, pos: seq<nat>, done: seq<nat>,
                                        at: seq<nat>, i: nat, p: nat, j: nat)
    requires size > 0 && i < |bricks| && ReadUpTo(orig, size, bricks, pos, done, at) && at[i] == j
    ensures bricks[i].None? ==> ReadUpTo(orig, size, bricks, pos, done, at[i := j + |bricks|])
    ensures bricks[i].Some? && ReadTo(bricks[i].value, size, p, done[i] + 1) ==>
              ReadUpTo(orig, size, bricks, pos[i := p], done[i := done[i] + 1], at[i := j + |bricks|])
  {
    if bricks[i].Some? {
      assert BrickAt(orig, size, |bricks|, i, bricks[i].value, pos[i], done[i], at[i]);
    }
  }

  /** Only missing bricks have been passed since the last chunk. */
  predicate OnlyMissing(bricks: seq<Option<File>>, count: nat, j: nat)
    requires |bricks| > 0
  {
    forall m: nat :: count <= m < j ==> bricks[Index(m, |bricks|)].None?
  }

  lemma {:induction false} OnlyMissingStep(bricks: seq<Option<File>>, count: nat, j: nat)
    requires |bricks| > 0 && OnlyMissing(bricks, count, j)
    requires j < count || bricks[Index(j, |bricks|)].None?
    ensures OnlyMissing(bricks, count, j + 1)
  {
  }

  /** After the last chunk the loop meets a brick that is present within a round. */
  lemma {:induction false} SoonDone(bricks: seq<Option<File>>, count: nat, j: nat, p: nat)
    requires p < |bricks| && bricks[p].Some? && OnlyMissing(bricks, count, j)
    ensures j < count + |bricks|
  {
    var m := SomeIndex(count, |bricks|, p);
  }

  /** The target holds the chunks done, and the offset fits the next one. */
  predicate TargetAt(orig: File, size: nat, bricks: seq<Option<File>>, was: File, j: nat, target: File, off: nat)
    requires size > 0 && |bricks| > 0
  {
    var count := ChunkCount(orig, size);
    && target == Restore(orig, size, bricks, was, if j < count then j else count)
    && (j < count ==> off == Start(j, size))
  }

  lemma {:induction false} TargetStep(orig: File, size: nat, bricks: seq<Option<File>>, was: File, j: nat, target: File, off: nat)
    requires size > 0 && |bricks| > 0 && TargetAt(orig, size, bricks, was, j, target, off)
    ensures bricks[Index(j, |bricks|)].None? ==> TargetAt(orig, size, bricks, was, j + 1, target, off + size)
    ensures var c := Chunk(orig, size, j);
            bricks[Index(j, |bricks|)].Some? && c != [] ==>
              TargetAt(orig, size, bricks, was, j + 1, Write(target, off, c), off + |c|) && j < ChunkCount(orig, size)
  {
    InCount(orig, size, j);
    InCount(orig, size, j + 1);
  }

  /** The loop invariant: brick i is next with chunk j; done[k] chunks of brick k have
      been read and at[k] is its next one. */
  predicate LoopInv(orig: File, size: nat, bricks: seq<Option<File>>, was: File,
                    target: File, off: nat, i: nat, pos: seq<nat>, j: nat, done: seq<nat>, at: seq<nat>)
    requires size > 0 && |bricks| > 0
  {
    && i == Index(j, |bricks|) && Schedule(at, |bricks|, j)
    && TargetAt(orig, size, bricks, was, j, target, off)
    && ReadUpTo(orig, size, bricks, pos, done, at)
    && OnlyMissing(bricks, ChunkCount(orig, size), j)
  }

  function NextBrick(i: nat, n: nat): nat {
    if i + 1 == n then 0 else i + 1
  }

  lemma {:induction false} SkipKept(orig: File, size: nat, bricks: seq<Option<File>>, was: File,
                                    target: File, off: nat, i: nat, pos: seq<nat>, j: nat, done: seq<nat>, at: seq<nat>)
    requires size > 0 && |bricks| > 0 && LoopInv(orig, size, bricks, was, target, off, i, pos, j, done, at)
    requires bricks[i].None?
    ensures LoopInv(orig, size, bricks, was, target, off + size, NextBrick(i, |bricks|), pos, j + 1, done, at[i := j + |bricks|])
  {
    ScheduleStep(at, |bricks|, j, i);
    TargetStep(orig, size, bricks, was, j, target, off);
    ReadUpToStep(orig, size, bricks, pos, done, at, i, 0, j);
    OnlyMissingStep(bricks, ChunkCount(orig, size), j);
  }

  lemma {:induction false} CopyKept(orig: File, size: nat, bricks: seq<Option<File>>, was: File,
                                    target: File, off: nat, i: nat, pos: seq<nat>, j: nat, done: seq<nat>, at: seq<nat>, p: nat)
    requires size > 0 && |bricks| > 0 && LoopInv(orig, size, bricks, was, target, off, i, pos, j, done, at)
    requires bricks[i].Some? && ReadTo(bricks[i].value, size, p, done[i] + 1) && Chunk(orig, size, j) != []
    ensures LoopInv(orig, size, bricks, was, Write(target, off, Chunk(orig, size, j)), off + |Chunk(orig, size, j)|,
                    NextBrick(i, |bricks|), pos[i := p], j + 1, done[i := done[i] + 1], at[i := j + |bricks|])
  {
    ScheduleStep(at, |bricks|, j, i);
    TargetStep(orig, size, bricks, was, j, target, off);
    ReadUpToStep(orig, size, bricks, pos, done, at, i, p, j);
    OnlyMissingStep(bricks, ChunkCount(orig, size), j);
  }

  /** The brick whose turn it is offers the chunk whose turn it is. */
  lemma {:induction false} TurnChunk(orig: File, size: nat, bricks: seq<Option<File>>, was: File,
                                     target: File, off: nat, i: nat, pos: seq<nat>, j: nat, done: seq<nat>, at: seq<nat>)
    requires size > 0 && |bricks| > 0 && LoopInv(orig, size, bricks, was, target, off, i, pos, j, done, at)
    requires bricks[i].Some? && Coalesced(orig, size, |bricks|, i, bricks[i].value)
    ensures ReadTo(bricks[i].value, size, pos[i], done[i]) && Chunk(bricks[i].value, size, done[i]) == Chunk(orig, size, j)
    ensures Chunk(orig, size, j) == [] ==> target == Restore(orig, size, bricks, was, ChunkCount(orig, size))
  {
    ScheduleStep(at, |bricks|, j, i);
    assert BrickAt(orig, size, |bricks|, i, bricks[i].value, pos[i], done[i], j);
    InCount(orig, size, j);
  }

  /** Every surviving brick is in the coalesced format. */
  ghost predicate AllCoalesced(orig: File, size: nat, bricks: seq<Option<File>>)
    requires size > 0
  {
    forall k :: 0 <= k < |bricks| && bricks[k].Some? ==> Coalesced(orig, size, |bricks|, k, bricks[k].value)
  }

  /** The turn of a brick that is present; r is what read(2) returned. */
  method CopyTurn(ghost orig: File, size: nat, bricks: seq<Option<File>>, ghost was: File, target: File, off: nat, i: nat,
                  pos: seq<nat>, ghost j: nat, ghost done: seq<nat>, ghost at: seq<nat>)
    returns (r: nat, t: File, newPos: seq<nat>, ghost newDone: seq<nat>)
    requires size > 0 && |bricks| > 0 && LoopInv(orig, size, bricks, was, target, off, i, pos, j, done, at)
    requires bricks[i].Some? && Coalesced(orig, size, |bricks|, i, bricks[i].value)
    ensures r == 0 ==> target == Restore(orig, size, bricks, was, ChunkCount(orig, size))
    ensures r > 0 ==> LoopInv(orig, size, bricks, was, t, off + r, NextBrick(i, |bricks|), newPos, j + 1, newDone, at[i := j + |bricks|])
  {
    TurnChunk(orig, size, bricks, was, target, off, i, pos, j, done, at);
    r, t := CopyChunk(bricks[i].value, size, pos[i], done[i], target, off);
    newPos, newDone := pos[i := pos[i] + r], done[i := done[i] + 1];
    if r > 0 {
      CopyKept(orig, size, bricks, was, target, off, i, pos, j, done, at, pos[i] + r);
    }
  }

  /** One turn of the loop; more is false when read(2) returned nothing. */
  method Turn(ghost orig: File, size: nat, bricks: seq<Option<File>>, ghost was: File, target: File, off: nat, i: nat,
              pos: seq<nat>, ghost j: nat, ghost done: seq<nat>, ghost at: seq<nat>)
    returns (more: bool, t: File, newOff: nat, newPos: seq<nat>, ghost newDone: seq<nat>)
    requires size > 0 && |bricks| > 0 && AllCoalesced(orig, size, bricks)
    requires LoopInv(orig, size, bricks, was, target, off, i, pos, j, done, at)
    ensures !more ==> t == Restore(orig, size, bricks, was, ChunkCount(orig, size))
    ensures more ==> LoopInv(orig, size, bricks, was, t, newOff, NextBrick(i, |bricks|), newPos, j + 1, newDone, at[i := j + |bricks|])
  {
    if bricks[i].None? {
      SkipKept(orig, size, bricks, was, target, off, i, pos, j, done, at);
      more, t, newOff, newPos, newDone := true, target, off + size, pos, done;
    } else {
      var r;
      r, t, newPos, newDone := CopyTurn(orig, size, bricks, was, target, off, i, pos, j, done, at);
      more, newOff := r > 0, off + r;
      if !more {
        t := target;
      }
    }
  }

  lemma {:induction false} LoopStart(orig: File, size: nat, bricks: seq<Option<File>>, was: File, pos: seq<nat>, at: seq<nat>)
    requires size > 0 && |bricks| > 0 && |pos| == |at| == |bricks|
    requires forall k :: 0 <= k < |bricks| ==> pos[k] == 0 && at[k] == k
    ensures LoopInv(orig, size, bricks, was, was, 0, 0, pos, 0, pos, at)
  {
    InCount(orig, size, 0);
  }

  /** The loop, from a state in which its invariant holds; brick p is present. */
  method CopyRounds(ghost orig: File, size: nat, bricks: seq<Option<File>>, ghost was: File, start: File, startPos: seq<nat>,
                    ghost startAt: seq<nat>, ghost p: nat)
    returns (target: File)
    requires size > 0 && |bricks| > 0 && AllCoalesced(orig, size, bricks)
    requires p < |bricks| && bricks[p].Some?
    requires LoopInv(orig, size, bricks, was, start, 0, 0, startPos, 0, startPos, startAt)
    ensures target == Restore(orig, size, bricks, was, ChunkCount(orig, size))
  {
    target := start;
    var off: nat, i: nat, pos: seq<nat>, more := 0, 0, startPos, true;
    ghost var j: nat, done: seq<nat>, at: seq<nat> := 0, startPos, startAt;
    while more
      invariant more ==> LoopInv(orig, size, bricks, was, target, off, i, pos, j, done, at)
      invariant !more ==> target == Restore(orig, size, bricks, was, ChunkCount(orig, size))
      decreases more, ChunkCount(orig, size) + |bricks| - j
    {
      SoonDone(bricks, ChunkCount(orig, size), j, p);
      more, target, off, pos, done := Turn(orig, size, bricks, was, target, off, i, pos, j, done, at);
      at, i, j := at[i := j + |bricks|], NextBrick(i, |bricks|), j + 1;
    }
  }

  /** generate_file_coalesce.  Since at least one source file was opened, some brick
      is present; without one the loop would not end. */
  method GenerateCoalesce(ghost orig: File, size: nat, bricks: seq<Option<File>>, was: File) returns (target: File)
    requires size > 0 && |bricks| > 0 && AllCoalesced(orig, size, bricks)
    requires exists p :: 0 <= p < |bricks| && bricks[p].Some?
    ensures target == Restore(orig, size, bricks, was, ChunkCount(orig, size))
  {
    var n := |bricks|;
    var pos: seq<nat> := seq(n, _ => 0);
    ghost var at: seq<nat> := seq(n, k => k);
    LoopStart(orig, size, bricks, was, pos, at);
    ghost var p: nat :| p < |bricks| && bricks[p].Some?;
    target := CopyRounds(orig, size, bricks, was, was, pos, at, p);
  }
}
