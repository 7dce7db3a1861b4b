/**
  The directory stream of a `struct glfs_fd`: a page of entries cached from the
  server, a cursor into it and the offset of the last entry handed out.  Against a
  directory that does not change it behaves like a bare position in the listing.
*/
module DirStream {
  import opened Options

  datatype Dirent = Dirent(name: string, off: nat)

  /** Premise on the server: offsets are distinct and not 0. */
  predicate Cookies(l: seq<Dirent>) {
    && (forall i :: 0 <= i < |l| ==> l[i].off != 0)
    && (forall i, j :: 0 <= i < j < |l| ==> l[i].off != l[j].off)
  }

  /** What syncop_readdir answers: an error, or a page of at most `more` + 1 entries;
      a page is empty only at the end of the directory. */
  datatype Reply = Failed | Upto(more: nat)

  /** The position after the entry with this offset; offset 0 is the start. */
  function PosOf(l: seq<Dirent>, off: nat): (p: nat)
    ensures p <= |l|
    ensures off != 0 && p > 0 ==> l[p - 1].off == off
    ensures off == 0 ==> p == 0
  {
    if off == 0 || l == [] then 0
    else if l[|l| - 1].off == off then |l|
    else PosOf(l[..|l| - 1], off)
  }

  predicate Known(l: seq<Dirent>, off: nat) {
    off == 0 || exists i :: 0 <= i < |l| && l[i].off == off
  }

  function CookieAt(l: seq<Dirent>, pos: nat): nat
    requires pos <= |l|
  {
    if pos == 0 then 0 else l[pos - 1].off
  }

  /** Offsets and positions determine each other. */
  lemma {:induction false} CookieRoundTrip(l: seq<Dirent>, pos: nat)
    requires Cookies(l) && pos <= |l|
    ensures PosOf(l, CookieAt(l, pos)) == pos
  {
    if 0 < pos < |l| {
      assert l[|l| - 1].off != l[pos - 1].off;
      CookieRoundTrip(l[..|l| - 1], pos);
    }
  }

  lemma {:induction false} KnownRoundTrip(l: seq<Dirent>, off: nat)
    requires Cookies(l) && Known(l, off)
    ensures CookieAt(l, PosOf(l, off)) == off
  {
    if off != 0 {
      var i :| 0 <= i < |l| && l[i].off == off;
      CookieRoundTrip(l, i + 1);
    }
  }

  function Page(l: seq<Dirent>, off: nat, more: nat): seq<Dirent> {
    var p := PosOf(l, off);
    if p + more + 1 <= |l| then l[p..p + more + 1] else l[p..]
  }

  // ---------------------------------------------------------------- operations

  /** offset, the cached entries, and the index of `next` among them. */
  datatype Stream = Stream(offset: nat, entries: seq<Dirent>, next: Option<nat>)

  const OPENED := Stream(0, [], None)

  function Refresh(l: seq<Dirent>, s: Stream, reply: Reply): (Stream, int) {
    if reply.Failed? then
      (s, -1)
    else
      var page := Page(l, s.offset, reply.more);
      (s.(entries := page, next := if |page| > 0 then Some(0) else s.next), |page|)
  }

  datatype Out = Entry(e: Dirent) | End | Error | Offset(off: nat) | Done

  /** Hand out the entry at the cursor. */
  function Take(s: Stream): Stream
    requires s.next.Some? && s.next.value < |s.entries|
  {
    var k := s.next.value;
    Stream(s.entries[k].off, s.entries, if k + 1 == |s.entries| then None else Some(k + 1))
  }

  function ReadEntry(l: seq<Dirent>, s: Stream, reply: Reply): (Stream, Out) {
    var (s1, ret) := if s.offset == 0 || s.next.None? then Refresh(l, s, reply) else (s, 0);
    if ret < 0 then
      (s1, Error)
    else if s1.next.None? || s1.next.value >= |s1.entries| then
      (s1, End)
    else
      (Take(s1), Entry(s1.entries[s1.next.value]))
  }

  /** The entry after the first cached one with this offset, if it is cached too. */
  function After(entries: seq<Dirent>, off: nat, from: nat): Option<nat>
    decreases |entries| - from
  {
    if from >= |entries| then None
    else if entries[from].off == off && from + 1 < |entries| then Some(from + 1)
    else After(entries, off, from + 1)
  }

  function Seek(s: Stream, off: nat): Stream {
    if s.offset == off then s else Stream(off, s.entries, After(s.entries, off, 0))
  }

  class DirFd {
    var offset: nat
    var entries: seq<Dirent>
    var next: Option<nat>

    function View(): Stream
      reads this
    {
      Stream(offset, entries, next)
    }

    constructor ()
      ensures View() == OPENED
    {
      offset, entries, next := 0, [], None;
    }

    /** glfd_entry_refresh, given what the server answers. */
    method EntryRefresh(l: seq<Dirent>, reply: Reply) returns (ret: int)
      modifies this
      ensures (View(), ret) == Refresh(l, old(View()), reply)
    {
      if reply.Failed? {
        return -1;
      }
      entries := Page(l, offset, reply.more);
      ret := |entries|;
      if ret > 0 {
        next := Some(0);
      }
    }

    /** glfd_entry_next. */
    method EntryNext(l: seq<Dirent>, reply: Reply) returns (out: Out)
      modifies this
      ensures (View(), out) == ReadEntry(l, old(View()), reply)
    {
      if offset == 0 || next.None? {
        var ret := EntryRefresh(l, reply);
        if ret < 0 {
          return Error;
        }
      }
      if next.None? || next.value >= |entries| {
        return End;
      }
      var entry := entries[next.value];
      if next.value + 1 == |entries| {
        next := None;
      } else {
        next := Some(next.value + 1);
      }
      offset := entry.off;
      return Entry(entry);
    }

    /** pub_glfs_telldir: the cookie of the position, which seekdir takes back to it. */
    method TellDir(ghost l: seq<Dirent>) returns (off: nat)
      ensures Perform(l, View(), Tell) == (View(), Offset(off))
      ensures Cookies(l) && Valid(l, View()) ==> off == CookieAt(l, PosOf(l, offset)) && Known(l, off)
    {
      if Cookies(l) && Valid(l, View()) {
        KnownRoundTrip(l, offset);
      }
      return offset;
    }

    /** pub_glfs_seekdir: look for the entry in the cache first. */
    method SeekDir(off: nat)
      modifies this
      ensures View() == Seek(old(View()), off)
    {
      if offset == off {
        return;
      }
      offset := off;
      next := None;
      var i := 0;
      while i < |entries|
        invariant 0 <= i <= |entries| && View() == Stream(off, old(entries), None)
        invariant After(entries, off, 0) == After(entries, off, i)
      {
        if entries[i].off == off && i + 1 < |entries| {
          next := Some(i + 1);
          return;
        }
        i := i + 1;
      }
    }
  }

  // ---------------------------------------------------------------- invariant

  /** The cached page is a stretch of the listing that starts at index a. */
  predicate CachedFrom(l: seq<Dirent>, s: Stream, a: nat) {
    && a + |s.entries| <= |l| && s.entries == l[a..a + |s.entries|]
    && (s.next.Some? ==> s.next.value < |s.entries| && a + s.next.value == PosOf(l, s.offset))
  }

  /** The cursor, where there is one, points into the page and at the position that
      the offset stands for. */
  ghost predicate Valid(l: seq<Dirent>, s: Stream) {
    Known(l, s.offset) && exists a :: CachedFrom(l, s, a)
  }

  lemma {:induction false} RefreshStep(l: seq<Dirent>, s: Stream, more: nat)
    requires Cookies(l) && Valid(l, s)
    ensures var s1 := Refresh(l, s, Upto(more)).0; var p := PosOf(l, s.offset);
            CachedFrom(l, s1, p) && s1.offset == s.offset && (p < |l| ==> s1.next == Some(0)) && (p == |l| ==> s1.next.None?)
  {
    var p, page := PosOf(l, s.offset), Page(l, s.offset, more);
    assert page == l[p..p + |page|];
    var a :| CachedFrom(l, s, a);
  }

  lemma {:induction false} TakeStep(l: seq<Dirent>, s: Stream, a: nat)
    requires Cookies(l) && CachedFrom(l, s, a) && s.next.Some?
    ensures var p := PosOf(l, s.offset);
            && p < |l| && s.entries[s.next.value] == l[p]
            && CachedFrom(l, Take(s), a) && PosOf(l, Take(s).offset) == p + 1 && Known(l, Take(s).offset)
  {
    var p := PosOf(l, s.offset);
    CookieRoundTrip(l, p + 1);
  }

  /** The server is asked at offset 0 and without a cursor. */
  predicate Asks(s: Stream) {
    s.offset == 0 || s.next.None?
  }

  /** A read hands out the entry at the position, or reports the end.  It fails exactly if
      it has to ask the server and the server fails, and then nothing changes.  A page that
      was fetched serves until its last entry has been handed out. */
  lemma {:induction false} ReadStep(l: seq<Dirent>, s: Stream, reply: Reply)
    requires Cookies(l) && Valid(l, s)
    ensures var (s', out) := ReadEntry(l, s, reply);
            var p := PosOf(l, s.offset);
            && Valid(l, s')
            && (out == Error <==> Asks(s) && reply.Failed?)
            && if out == Error then s' == s
               else if p < |l| then out == Entry(l[p]) && PosOf(l, s'.offset) == p + 1
               else out == End && s'.offset == s.offset
    ensures var (s', out) := ReadEntry(l, s, reply);
            && s'.entries == (if Asks(s) && reply.Upto? then Page(l, s.offset, reply.more) else s.entries)
            && (out.Entry? ==> s'.entries != [] && (s'.next.None? <==> s'.entries[|s'.entries| - 1] == out.e))
  {
    if Asks(s) {
      if reply.Upto? {
        RefreshStep(l, s, reply.more);
        var s1 := Refresh(l, s, reply).0;
        if s1.next.Some? {
          TakeStep(l, s1, PosOf(l, s.offset));
          LastOfPage(l, s1, PosOf(l, s.offset));
          assert ReadEntry(l, s, reply) == (Take(s1), Entry(s1.entries[s1.next.value]));
        }
      }
    } else {
      var a :| CachedFrom(l, s, a);
      TakeStep(l, s, a);
      LastOfPage(l, s, a);
    }
  }

  lemma {:induction false} LastOfPage(l: seq<Dirent>, s: Stream, a: nat)
    requires Cookies(l) && CachedFrom(l, s, a) && s.next.Some?
    ensures Take(s).next.None? <==> s.entries[|s.entries| - 1] == s.entries[s.next.value]
  {
    var k := s.next.value;
    if k + 1 < |s.entries| {
      assert s.entries[k] == l[a + k] && s.entries[|s.entries| - 1] == l[a + |s.entries| - 1];
    }
  }

  lemma {:induction false} AfterFinds(l: seq<Dirent>, s: Stream, a: nat, off: nat, from: nat)
    requires Cookies(l) && off != 0 && from <= |s.entries|
    requires a + |s.entries| <= |l| && s.entries == l[a..a + |s.entries|]
    ensures var k := After(s.entries, off, from); k.Some? ==> k.value < |s.entries| && a + k.value == PosOf(l, off)
    decreases |s.entries| - from
  {
    if from < |s.entries| {
      if s.entries[from].off == off {
        CookieRoundTrip(l, a + from + 1);
      }
      AfterFinds(l, s, a, off, from + 1);
    }
  }

  lemma {:induction false} SeekCached(l: seq<Dirent>, s: Stream, a: nat, off: nat, from: nat, k: nat)
    requires Cookies(l) && a + |s.entries| <= |l| && s.entries == l[a..a + |s.entries|]
    requires k < |s.entries| && s.entries[k].off == off
    ensures After(s.entries, off, from) == if from <= k && k + 1 < |s.entries| then Some(k + 1) else None
    decreases |s.entries| - from
  {
    if from < |s.entries| {
      assert s.entries[from] == l[a + from] && s.entries[k] == l[a + k];
      SeekCached(l, s, a, off, from + 1, k);
    }
  }

  /** A seek to a known offset sets it and keeps the page; the cursor goes behind the entry
      with that offset if the page has that entry and another behind it. */
  lemma {:induction false} SeekStep(l: seq<Dirent>, s: Stream, off: nat)
    requires Cookies(l) && Valid(l, s) && Known(l, off)
    ensures Valid(l, Seek(s, off)) && Seek(s, off).offset == off && Seek(s, off).entries == s.entries
    ensures s.offset != off ==> forall k :: 0 <= k < |s.entries| && s.entries[k].off == off ==>
              Seek(s, off).next == if k + 1 < |s.entries| then Some(k + 1) else None
  {
    var a :| CachedFrom(l, s, a);
    if s.offset != off {
      forall k | 0 <= k < |s.entries| && s.entries[k].off == off
        ensures Seek(s, off).next == if k + 1 < |s.entries| then Some(k + 1) else None
      {
        SeekCached(l, s, a, off, 0, k);
      }
      if off == 0 {
        NoZero(l, s, a, 0);
      } else {
        AfterFinds(l, s, a, off, 0);
      }
      assert CachedFrom(l, Seek(s, off), a);
    }
  }

  /** seekdir to what telldir gave returns to that position, whatever was read or sought
      in between. */
  lemma {:induction false} SeekToTold(l: seq<Dirent>, told: Stream, now: Stream, reply: Reply)
    requires Cookies(l) && Valid(l, told) && Valid(l, now) && reply.Upto?
    ensures Valid(l, Seek(now, told.offset))
    ensures ReadEntry(l, Seek(now, told.offset), reply).1 == ReadEntry(l, told, reply).1
  {
    SeekStep(l, now, told.offset);
    ReadStep(l, Seek(now, told.offset), reply);
    ReadStep(l, told, reply);
  }

  lemma {:induction false} NoZero(l: seq<Dirent>, s: Stream, a: nat, from: nat)
    requires Cookies(l) && a + |s.entries| <= |l| && s.entries == l[a..a + |s.entries|] && from <= |s.entries|
    ensures After(s.entries, 0, from).None?
    decreases |s.entries| - from
  {
    if from < |s.entries| {
      assert s.entries[from] == l[a + from];
      NoZero(l, s, a, from + 1);
    }
  }

  // --------------------------------------------------------------------- runs

  datatype Call = Read(reply: Reply) | Tell | SeekTo(off: nat)

  function Perform(l: seq<Dirent>, s: Stream, c: Call): (Stream, Out) {
    match c
    case Read(reply) => ReadEntry(l, s, reply)
    case Tell => (s, Offset(s.offset))
    case SeekTo(off) => (Seek(s, off), Done)
  }

  function Outputs(l: seq<Dirent>, s: Stream, calls: seq<Call>): seq<Out>
    decreases |calls|
  {
    if calls == [] then [] else
      var (s', out) := Perform(l, s, calls[0]);
      [out] + Outputs(l, s', calls[1..])
  }

  /** The reference: a position in the listing.  A read may fail only if the server
      failed, and then it leaves the position where it was. */
  predicate Agrees(l: seq<Dirent>, pos: nat, calls: seq<Call>, outs: seq<Out>)
    requires pos <= |l|
    decreases |calls|
  {
    && |calls| == |outs|
    && (calls == [] ||
        match calls[0]
        case Read(reply) =>
          if outs[0] == Error then reply.Failed? && Agrees(l, pos, calls[1..], outs[1..])
          else if pos < |l| then outs[0] == Entry(l[pos]) && Agrees(l, pos + 1, calls[1..], outs[1..])
          else outs[0] == End && Agrees(l, pos, calls[1..], outs[1..])
        case Tell => outs[0] == Offset(CookieAt(l, pos)) && Agrees(l, pos, calls[1..], outs[1..])
        case SeekTo(off) => outs[0] == Done && Agrees(l, PosOf(l, off), calls[1..], outs[1..]))
  }

  /** One call of the reference, and the position it leaves. */
  predicate AgreesOnce(l: seq<Dirent>, pos: nat, c: Call, out: Out, pos': nat)
    requires pos <= |l|
  {
    match c
    case Read(reply) =>
      if out == Error then reply.Failed? && pos' == pos
      else if pos < |l| then out == Entry(l[pos]) && pos' == pos + 1
      else out == End && pos' == pos
    case Tell => out == Offset(CookieAt(l, pos)) && pos' == pos
    case SeekTo(off) => out == Done && pos' == PosOf(l, off)
  }

  lemma {:induction false} PerformStep(l: seq<Dirent>, s: Stream, c: Call)
    requires Cookies(l) && Valid(l, s) && (c.SeekTo? ==> Known(l, c.off))
    ensures var (s', out) := Perform(l, s, c);
            Valid(l, s') && AgreesOnce(l, PosOf(l, s.offset), c, out, PosOf(l, s'.offset))
  {
    match c
    case Read(reply) => ReadStep(l, s, reply);
    case Tell => KnownRoundTrip(l, s.offset);
    case SeekTo(off) => SeekStep(l, s, off);
  }

  lemma {:induction false} AgreesFirst(l: seq<Dirent>, pos: nat, calls: seq<Call>, outs: seq<Out>, pos': nat)
    requires pos <= |l| && pos' <= |l| && calls != [] && outs != []
    requires AgreesOnce(l, pos, calls[0], outs[0], pos') && Agrees(l, pos', calls[1..], outs[1..])
    ensures Agrees(l, pos, calls, outs)
  {
  }

  /** Every run of reads, failed refreshes, telldir and seekdir, with every way the
      server may cut its pages, gives what a bare position would give. */
  lemma {:induction false} StreamIsPosition(l: seq<Dirent>, s: Stream, calls: seq<Call>)
    requires Cookies(l) && Valid(l, s)
    requires forall i :: 0 <= i < |calls| && calls[i].SeekTo? ==> Known(l, calls[i].off)
    ensures Agrees(l, PosOf(l, s.offset), calls, Outputs(l, s, calls))
    decreases |calls|
  {
    if calls != [] {
      var (s', out) := Perform(l, s, calls[0]);
      PerformStep(l, s, calls[0]);
      var outs := Outputs(l, s, calls);
      assert outs[0] == out && outs[1..] == Outputs(l, s', calls[1..]);
      StreamIsPosition(l, s', calls[1..]);
      AgreesFirst(l, PosOf(l, s.offset), calls, outs, PosOf(l, s'.offset));
    }
  }

  function Reads(replies: seq<Reply>): seq<Call> {
    if replies == [] then [] else [Read(replies[0])] + Reads(replies[1..])
  }

  function Remaining(l: seq<Dirent>, p: nat): seq<Out>
    decreases |l| - p
  {
    if p < |l| then [Entry(l[p])] + Remaining(l, p + 1) else [End]
  }

  /** Reading to the end returns every remaining entry once, in order, however the
      server cuts its pages. */
  lemma {:induction false} ReadsWholeListing(l: seq<Dirent>, s: Stream, replies: seq<Reply>)
    requires Cookies(l) && Valid(l, s)
    requires forall i :: 0 <= i < |replies| ==> replies[i].Upto?
    requires |replies| == |l| - PosOf(l, s.offset) + 1
    ensures Outputs(l, s, Reads(replies)) == Remaining(l, PosOf(l, s.offset))
    decreases |replies|
  {
    ReadStep(l, s, replies[0]);
    var (s', out) := ReadEntry(l, s, replies[0]);
    OutputsFirst(l, s, replies);
    if PosOf(l, s.offset) < |l| {
      ReadsWholeListing(l, s', replies[1..]);
    } else {
      assert replies[1..] == [] && Outputs(l, s', []) == [];
    }
  }

  lemma {:induction false} OutputsFirst(l: seq<Dirent>, s: Stream, replies: seq<Reply>)
    requires replies != []
    ensures var (s', out) := ReadEntry(l, s, replies[0]);
            Outputs(l, s, Reads(replies)) == [out] + Outputs(l, s', Reads(replies[1..]))
  {
    assert Reads(replies)[0] == Read(replies[0]) && Reads(replies)[1..] == Reads(replies[1..]);
  }
}
