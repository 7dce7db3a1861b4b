/**
  What a migration does to every descriptor: those it has passed are on the new graph,
  unless the network failed for them, and all others are as they were.
*/
module SwitchCarried {
  import opened Options
  import opened GraphSwitch
  import opened SwitchInvariant

  /** The walk over a's list has passed the descriptor, which was there to migrate. */
  predicate Passed(a: Fs, pos: nat, did: Did) {
    did in a.glfds && a.glfds[did].inode.gfid != 0 && exists x :: 0 <= x < pos && x < |a.openfds| && a.openfds[x] == did
  }

  /** From a to b the walk has passed the first pos descriptors of the list; `failed` are
      those that the network did not migrate. */
  ghost predicate Walked(a: Fs, b: Fs, n: Graph, pos: nat, failed: set<Did>) {
    && b.openfds == a.openfds && b.glfds.Keys == a.glfds.Keys
    && (forall did :: did in failed ==> Passed(a, pos, did))
    && forall did :: did in a.glfds ==>
         b.glfds[did] == if Passed(a, pos, did) && did !in failed then Moved(a.glfds[did], n) else a.glfds[did]
  }

  /** The whole list has been walked. */
  ghost predicate Carried(a: Fs, b: Fs, n: Graph, failed: set<Did>) {
    Walked(a, b, n, |a.openfds|, failed)
  }

  /** How far the walk of a migrating thread is. */
  function Position(pc: Pc): nat {
    if pc.MigrateFd? then pc.k else 0
  }

  predicate ToMigrate(pc: Pc) {
    pc.MigrateFd? ==> pc.from.inode.gfid != 0
  }

  lemma {:induction false} PassedMore(a: Fs, pos: nat, pos': nat, did: Did)
    requires pos <= pos' <= |a.openfds|
    requires forall x :: pos <= x < pos' ==> FdOf(a, a.openfds[x]).inode.gfid == 0
    ensures Passed(a, pos', did) <==> Passed(a, pos, did)
  {
  }

  /** Passing descriptors without a gfid changes nothing. */
  lemma {:induction false} WalkedSkip(a: Fs, b: Fs, n: Graph, pos: nat, pos': nat, failed: set<Did>)
    requires ListOk(a) && Walked(a, b, n, pos, failed) && pos <= pos' <= |a.openfds|
    requires forall x :: pos <= x < pos' ==> FdOf(b, b.openfds[x]).inode.gfid == 0
    ensures Walked(a, b, n, pos', failed)
  {
    forall x | pos <= x < pos'
      ensures FdOf(a, a.openfds[x]).inode.gfid == 0
    {
      assert FdOf(b, b.openfds[x]).inode.gfid == 0;
    }
    forall did
      ensures Passed(a, pos', did) <==> Passed(a, pos, did)
    {
      PassedMore(a, pos, pos', did);
    }
  }

  /** The descriptor at the position gets its answer. */
  lemma {:induction false} WalkedOne(a: Fs, b: Fs, n: Graph, pos: nat, failed: set<Did>, f: Option<Fd>, b': Fs)
    requires ListOk(a) && Walked(a, b, n, pos, failed) && pos < |a.openfds| && FdOf(b, b.openfds[pos]).inode.gfid != 0
    requires f.Some? ==> f.value == Moved(FdOf(b, b.openfds[pos]), n)
    requires b'.openfds == b.openfds && b'.glfds == if f.Some? then b.glfds[b.openfds[pos] := f.value] else b.glfds
    ensures Walked(a, b', n, pos + 1, failed + if f.None? then {a.openfds[pos]} else {})
  {
    var here := a.openfds[pos];
    assert !Passed(a, pos, here);
    assert Passed(a, pos + 1, here);
    forall did | did != here
      ensures Passed(a, pos + 1, did) <==> Passed(a, pos, did)
    {
    }
  }

  /** How far the walk is after a section: at its descriptor, at the start, or through. */
  function After(pc: Pc, total: nat): nat {
    if pc.MigrateFd? then pc.k else if pc.RefreshCwd? then 0 else total
  }

  /** A section of a migration from a: it gave up with every descriptor as it was, or
      carried the descriptors on. */
  ghost predicate Continues(a: Fs, o: Outcome, n: Graph, failed: set<Did>) {
    if o.pc == Idle then
      Walked(a, o.fs, n, 0, {}) && failed == {}
    else
      && Walked(a, o.fs, n, After(o.pc, |a.openfds|), failed) && ToMigrate(o.pc)
      && !o.pc.FirstLookup? && (o.pc.RefreshCwd? ==> failed == {})
  }

  /** The walk from position k found nothing to migrate before o. */
  predicate Skipped(fs: Fs, o: Outcome, k: nat) {
    && o.fs.glfds == fs.glfds && o.fs.openfds == fs.openfds && ToMigrate(o.pc)
    && !o.pc.FirstLookup? && !o.pc.RefreshCwd? && o.pc != Idle
    && (o.pc.MigrateFd? ==> k <= o.pc.k < |fs.openfds|)
    && forall x :: k <= x < (if o.pc.MigrateFd? then o.pc.k else |fs.openfds|) ==> FdOf(fs, fs.openfds[x]).inode.gfid == 0
  }

  lemma {:induction false} WalkSkips(fs: Fs, n: Graph, newCwd: Option<Inode>, k: nat)
    ensures Skipped(fs, WalkFrom(fs, n, newCwd, k), k)
    decreases |fs.openfds| - k
  {
    if k < |fs.openfds| && FdOf(fs, fs.openfds[k]).inode.gfid == 0 {
      WalkSkips(fs, n, newCwd, k + 1);
    }
  }

  lemma {:induction false} SkippedCarries(a: Fs, fs: Fs, o: Outcome, n: Graph, k: nat, failed: set<Did>)
    requires ListOk(a) && Walked(a, fs, n, k, failed) && k <= |a.openfds| && Skipped(fs, o, k)
    ensures Continues(a, o, n, failed)
  {
    WalkedSkip(a, o.fs, n, k, if o.pc.MigrateFd? then o.pc.k else |a.openfds|, failed);
  }

  lemma {:induction false} WalkFromCarries(a: Fs, fs: Fs, n: Graph, newCwd: Option<Inode>, k: nat, failed: set<Did>)
    requires ListOk(a) && Walked(a, fs, n, k, failed) && k <= |a.openfds|
    ensures Continues(a, WalkFrom(fs, n, newCwd, k), n, failed)
  {
    WalkSkips(fs, n, newCwd, k);
    SkippedCarries(a, fs, WalkFrom(fs, n, newCwd, k), n, k, failed);
  }

  /** The descriptor for which the event reports a failure. */
  function Missed(pc: Pc, e: Event): set<Did> {
    if e == FdMigrated(None) && pc.MigrateFd? && pc.k < |pc.walk| then {pc.walk[pc.k]} else {}
  }

  /** The thread is migrating to n and has carried the descriptors so far. */
  ghost predicate Carrying(a: Fs, fs: Fs, pc: Pc, n: Graph, failed: set<Did>) {
    && (pc.FirstLookup? || pc.RefreshCwd? || pc.MigrateFd?) && pc.n == n && ToMigrate(pc)
    && (pc.MigrateFd? || failed == {}) && Walked(a, fs, n, Position(pc), failed)
  }

  lemma {:induction false} LookupCarries(a: Fs, fs: Fs, n: Graph, ok: bool, failed: set<Did>)
    requires ListOk(a) && fs.oldSubvol.None? && Carrying(a, fs, FirstLookup(n), n, failed)
    ensures Continues(a, AfterLookup(fs, n, ok), n, failed + Missed(FirstLookup(n), LookupDone(ok)))
  {
    assert failed + Missed(FirstLookup(n), LookupDone(ok)) == {};
    if ok && fs.cwd.None? {
      WalkFromCarries(a, fs.(migrating := false), n, None, 0, {});
    }
  }

  lemma {:induction false} CwdCarries(a: Fs, fs: Fs, pc: Pc, i: Option<Inode>, failed: set<Did>)
    requires ListOk(a) && fs.oldSubvol.None? && pc.RefreshCwd? && Carrying(a, fs, pc, pc.n, failed)
    ensures Continues(a, AfterCwd(fs, pc.n, i), pc.n, failed + Missed(pc, CwdRefreshed(i)))
  {
    assert failed + Missed(pc, CwdRefreshed(i)) == {};
    if i.Some? {
      WalkFromCarries(a, fs.(migrating := false), pc.n, i, 0, {});
    }
  }

  lemma {:induction false} FdAnswered(a: Fs, fs: Fs, pc: Pc, f: Option<Fd>, failed: set<Did>)
    requires ListOk(a) && pc.MigrateFd? && ThreadOk(fs, pc) && Carrying(a, fs, pc, pc.n, failed)
    requires f.Some? ==> f.value == Moved(pc.from, pc.n)
    ensures Walked(a, Answered(fs, pc, f), pc.n, pc.k + 1, failed + Missed(pc, FdMigrated(f))) && pc.k < |a.openfds|
  {
    assert Missed(pc, FdMigrated(f)) == if f.None? then {pc.walk[pc.k]} else {};
    WalkedOne(a, fs, pc.n, pc.k, failed, f, Answered(fs, pc, f));
  }

  lemma {:induction false} FdCarries(a: Fs, fs: Fs, pc: Pc, f: Option<Fd>, failed: set<Did>)
    requires ListOk(a) && pc.MigrateFd? && ThreadOk(fs, pc) && Carrying(a, fs, pc, pc.n, failed)
    requires f.Some? ==> f.value == Moved(pc.from, pc.n)
    ensures Continues(a, AfterFd(fs, pc.n, pc.newCwd, pc.walk[pc.k], pc.k, f), pc.n, failed + Missed(pc, FdMigrated(f)))
  {
    var fs2 := Answered(fs, pc, f);
    FdAnswered(a, fs, pc, f, failed);
    assert AfterFd(fs, pc.n, pc.newCwd, pc.walk[pc.k], pc.k, f) == WalkFrom(fs2, pc.n, pc.newCwd, pc.k + 1);
    WalkFromCarries(a, fs2, pc.n, pc.newCwd, pc.k + 1, failed + Missed(pc, FdMigrated(f)));
  }

  /** Every section of a migration carries the descriptors on. */
  lemma {:induction false} SectionCarries(a: Fs, fs: Fs, pc: Pc, e: Event, n: Graph, failed: set<Did>)
    requires ListOk(a) && fs.oldSubvol.None? && ThreadOk(fs, pc) && Enabled(fs, pc, e) && Carrying(a, fs, pc, n, failed)
    ensures Continues(a, Section(fs, pc, e), n, failed + Missed(pc, e))
  {
    match e
    case LookupDone(ok) => LookupCarries(a, fs, n, ok, failed);
    case CwdRefreshed(i) => CwdCarries(a, fs, pc, i, failed);
    case FdMigrated(f) => FdCarries(a, fs, pc, f, failed);
  }

  lemma {:induction false} SameDescriptors(a: Fs, a': Fs, b: Fs, n: Graph, pos: nat, failed: set<Did>)
    requires a.openfds == a'.openfds && a.glfds == a'.glfds && Walked(a', b, n, pos, failed)
    ensures Walked(a, b, n, pos, failed)
    ensures pos == 0 ==> b.glfds == a.glfds
  {
    forall did
      ensures Passed(a, pos, did) <==> Passed(a', pos, did)
    {
    }
  }
}
