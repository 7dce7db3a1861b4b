/**
  `struct glfs` with its mutex-held sections as methods that update the fields in
  place.  Each is proved to be the section of GraphSwitch and, from a state in which the
  invariant holds and the calling thread's program point is sound, to leave the object
  valid, the thread's new program point sound, the flag set exactly when it must be,
  descriptors where they may be and every reference accounted for (Good).
*/
module GlfsObject {
  import opened Options
  import opened GraphSwitch
  import opened SwitchInvariant

  class Glfs {
    var init: bool
    var migrating: bool
    var active: Option<Graph>
    var next: Option<Graph>
    var mip: Option<Graph>
    var oldSubvol: Option<Graph>
    var winds: map<Graph, int>
    var switched: set<Graph>
    var cwd: Option<Inode>
    var openfds: seq<Did>
    var glfds: map<Did, Fd>

    function View(): Fs
      reads this
    {
      Fs(init, migrating, active, next, mip, oldSubvol, winds, switched, cwd, openfds, glfds)
    }

    /** What holds whenever the mutex is free: slots distinct and not retired, cwd on the
        active graph, the list without repetition. */
    ghost predicate Valid()
      reads this
    {
      SlotsOk(View()) && CwdOk(View()) && ListOk(View())
    }

    /** A thread at program point pc may take section e. */
    ghost predicate May(pc: Pc, e: Event)
      reads this
    {
      Valid() && ThreadOk(View(), pc) && Enabled(View(), pc, e)
    }

    constructor ()
      ensures View() == Init(0).fs && Valid()
    {
      init, migrating := false, false;
      active, next, mip, oldSubvol := None, None, None, None;
      winds, switched, cwd, openfds, glfds := map[], {}, None, [], map[];
    }

    /** graph_setup up to the unlock; the displaced graph is still to be released. */
    method SetupGraph(g: Graph) returns (pc: Pc)
      requires May(Idle, GraphUp(g))
      modifies this
      ensures Outcome(View(), pc) == Section(old(View()), Idle, GraphUp(g))
      ensures Valid() && Good(old(View()), Idle, GraphUp(g), Outcome(View(), pc))
    {
      SectionGood(View(), Idle, GraphUp(g));
      pc := Idle;
      if g in switched || active == Some(g) || next == Some(g) || mip == Some(g) {
        return;
      }
      if next.Some? {
        pc := Release(next.value, None);
      }
      next := Some(g);
      winds := Add(winds, g, 1);
    }

    /** The tail of priv_glfs_active_subvol. */
    method FinishSubvol(subvol: Option<Graph>) returns (pc: Pc)
      modifies this
      ensures Outcome(View(), pc) == Finish(old(View()), subvol)
    {
      pc := Resume(subvol);
      if subvol.Some? {
        winds := Add(winds, subvol.value, 1);
      }
      if oldSubvol.Some? {
        pc := Release(oldSubvol.value, subvol);
        switched := switched + {oldSubvol.value};
        oldSubvol := None;
      }
    }

    /** priv_glfs_active_subvol from its lock to its first mutex drop or its end. */
    method BeginActiveSubvol() returns (pc: Pc)
      requires May(Idle, Start)
      modifies this
      ensures Outcome(View(), pc) == Section(old(View()), Idle, Start)
      ensures Valid() && Good(old(View()), Idle, Start, Outcome(View(), pc))
    {
      SectionGood(View(), Idle, Start);
      if next.None? {
        pc := FinishSubvol(active);
      } else {
        pc := FirstLookup(next.value);
        mip := next;
        next := None;
        migrating := true;
      }
    }

    /** The end of __glfs_active_subvol: switch graph and working directory. */
    method CommitSwitch(n: Graph, newCwd: Option<Inode>) returns (pc: Pc)
      modifies this
      ensures Outcome(View(), pc) == Commit(old(View()), n, newCwd)
    {
      oldSubvol := active;
      active := mip;
      mip := None;
      if newCwd.Some? {
        if active != Some(newCwd.value.graph) {
          migrating := true;
          pc := CommitCwd(n, newCwd.value);
          return;
        }
        cwd := newCwd;
      }
      pc := FinishSubvol(Some(n));
    }

    /** __glfs_migrate_openfds from position `start` to the next network call. */
    method MigrateOpenfds(n: Graph, newCwd: Option<Inode>, start: nat) returns (pc: Pc)
      modifies this
      ensures Outcome(View(), pc) == WalkFrom(old(View()), n, newCwd, start)
    {
      var k := start;
      while k < |openfds|
        invariant View() == old(View())
        invariant WalkFrom(View(), n, newCwd, start) == WalkFrom(View(), n, newCwd, k)
        decreases |openfds| - k
      {
        if FdOf(View(), openfds[k]).inode.gfid != 0 {
          pc := MigrateFd(n, newCwd, openfds, k, FdOf(View(), openfds[k]));
          migrating := true;
          return;
        }
        k := k + 1;
      }
      pc := CommitSwitch(n, newCwd);
    }

    method FirstLookupDone(n: Graph, ok: bool) returns (pc: Pc)
      requires May(FirstLookup(n), LookupDone(ok))
      modifies this
      ensures Outcome(View(), pc) == Section(old(View()), FirstLookup(n), LookupDone(ok))
      ensures Valid() && Good(old(View()), FirstLookup(n), LookupDone(ok), Outcome(View(), pc))
    {
      SectionGood(View(), FirstLookup(n), LookupDone(ok));
      migrating := false;
      if !ok {
        pc := FinishSubvol(None);
      } else if cwd.Some? {
        migrating := true;
        pc := RefreshCwd(n, cwd.value);
      } else {
        pc := MigrateOpenfds(n, None, 0);
      }
    }

    method CwdRefreshDone(n: Graph, was: Inode, newInode: Option<Inode>) returns (pc: Pc)
      requires May(RefreshCwd(n, was), CwdRefreshed(newInode))
      modifies this
      ensures Outcome(View(), pc) == Section(old(View()), RefreshCwd(n, was), CwdRefreshed(newInode))
      ensures Valid() && Good(old(View()), RefreshCwd(n, was), CwdRefreshed(newInode), Outcome(View(), pc))
    {
      SectionGood(View(), RefreshCwd(n, was), CwdRefreshed(newInode));
      migrating := false;
      if newInode.None? {
        pc := FinishSubvol(None);
      } else {
        pc := MigrateOpenfds(n, newInode, 0);
      }
    }

    method FdMigrateDone(at: Pc, newFd: Option<Fd>) returns (pc: Pc)
      requires May(at, FdMigrated(newFd))
      modifies this
      ensures Outcome(View(), pc) == Section(old(View()), at, FdMigrated(newFd))
      ensures Valid() && Good(old(View()), at, FdMigrated(newFd), Outcome(View(), pc))
    {
      SectionGood(View(), at, FdMigrated(newFd));
      migrating := false;
      if newFd.Some? {
        glfds := glfds[at.walk[at.k] := newFd.value];
      }
      pc := MigrateOpenfds(at.n, at.newCwd, at.k + 1);
    }

    /** priv_glfs_subvol_done up to the unlock, by an operation that ends or for a
        reference that is owed. */
    method DropWind(g: Graph, held: Option<Graph>, at: Pc, e: Event) returns (pc: Pc)
      requires (at == Op(g) && e == Done && held.None?) || (at == Release(g, held) && e == ReleaseOwed)
      requires May(at, e)
      modifies this
      ensures Outcome(View(), pc) == Section(old(View()), at, e)
      ensures Valid() && Good(old(View()), at, e, Outcome(View(), pc))
    {
      SectionGood(View(), at, e);
      winds := Add(winds, g, -1);
      if At(winds, g) == 0 {
        pc := Down(g, held);
      } else {
        pc := Resume(held);
      }
    }

    /** __glfs_resolve_fd before and after its network call. */
    method BeginResolveFd(g: Graph, did: Did) returns (pc: Pc)
      requires May(Op(g), ResolveStart(did))
      modifies this
      ensures Outcome(View(), pc) == Section(old(View()), Op(g), ResolveStart(did))
      ensures Valid() && Good(old(View()), Op(g), ResolveStart(did), Outcome(View(), pc))
    {
      SectionGood(View(), Op(g), ResolveStart(did));
      if FdOf(View(), did).inode.graph == g {
        pc := Op(g);
      } else {
        pc := ResolveFd(g, did, FdOf(View(), did));
        migrating := true;
      }
    }

    method EndResolveFd(g: Graph, did: Did, from: Fd, newFd: Option<Fd>) returns (pc: Pc)
      requires May(ResolveFd(g, did, from), Resolved(newFd))
      modifies this
      ensures Outcome(View(), pc) == Section(old(View()), ResolveFd(g, did, from), Resolved(newFd))
      ensures Valid() && Good(old(View()), ResolveFd(g, did, from), Resolved(newFd), Outcome(View(), pc))
    {
      SectionGood(View(), ResolveFd(g, did, from), Resolved(newFd));
      migrating := false;
      if newFd.Some? && active == Some(g) {
        glfds := glfds[did := newFd.value];
      }
      pc := Op(g);
    }

    /** __glfs_cwd_set before and after its network call. */
    method BeginCwdSet(g: Graph, inode: Inode) returns (pc: Pc)
      requires May(Op(g), Chdir(inode))
      modifies this
      ensures Outcome(View(), pc) == Section(old(View()), Op(g), Chdir(inode))
      ensures Valid() && Good(old(View()), Op(g), Chdir(inode), Outcome(View(), pc))
    {
      SectionGood(View(), Op(g), Chdir(inode));
      pc := Op(g);
      if active != Some(inode.graph) {
        pc := CwdSet(g, active, inode);
        migrating := true;
      } else {
        cwd := Some(inode);
      }
    }

    method EndCwdSet(g: Graph, on: Option<Graph>, inode: Inode, newInode: Option<Inode>) returns (pc: Pc)
      requires May(CwdSet(g, on, inode), ChdirDone(newInode))
      modifies this
      ensures Outcome(View(), pc) == Section(old(View()), CwdSet(g, on, inode), ChdirDone(newInode))
      ensures Valid() && Good(old(View()), CwdSet(g, on, inode), ChdirDone(newInode), Outcome(View(), pc))
    {
      SectionGood(View(), CwdSet(g, on, inode), ChdirDone(newInode));
      migrating := false;
      if newInode.Some? {
        cwd := newInode;
      }
      pc := Op(g);
    }

    /** __glfs_cwd_get up to its network call; r is the inode when none is needed, which
        in a valid object is always, and then it is on the active graph. */
    method BeginCwdGet(g: Graph) returns (pc: Pc, r: Option<Inode>)
      modifies this
      ensures Outcome(View(), pc) == CwdGetStart(old(View()), g)
      ensures r == if pc.Op? then old(cwd) else None
      ensures r.Some? ==> active == Some(r.value.graph)
      ensures pc == Op(g) <==> old(cwd).None? || old(active) == Some(old(cwd).value.graph)
      ensures old(Valid()) ==> pc == Op(g) && View() == old(View()) && r == cwd && (r.Some? ==> active == Some(r.value.graph))
    {
      pc, r := Op(g), cwd;
      if cwd.Some? && active != Some(cwd.value.graph) {
        pc, r := CwdGet(g), None;
        migrating := true;
      }
    }

    /** __glfs_resolve_inode before and after its network call. */
    method BeginResolveInode(g: Graph, inode: Inode, stale: bool) returns (pc: Pc)
      requires May(Op(g), HandleStart(inode, stale))
      modifies this
      ensures Outcome(View(), pc) == Section(old(View()), Op(g), HandleStart(inode, stale))
      ensures Valid() && Good(old(View()), Op(g), HandleStart(inode, stale), Outcome(View(), pc))
    {
      SectionGood(View(), Op(g), HandleStart(inode, stale));
      pc := Op(g);
      if stale || inode.graph != g {
        pc := ResolveInode(g, active, inode);
        migrating := true;
      }
    }

    /** kept is what the handle holds afterwards: the new inode if the caller's graph is
        the active one. */
    method EndResolveInode(g: Graph, on: Option<Graph>, inode: Inode, newInode: Option<Inode>) returns (pc: Pc, kept: Inode)
      requires May(ResolveInode(g, on, inode), HandleResolved(newInode))
      modifies this
      ensures Outcome(View(), pc) == Section(old(View()), ResolveInode(g, on, inode), HandleResolved(newInode))
      ensures Valid() && Good(old(View()), ResolveInode(g, on, inode), HandleResolved(newInode), Outcome(View(), pc))
      ensures kept.gfid == inode.gfid && (kept != inode ==> kept.graph == g && active == Some(g))
      ensures newInode.Some? && active == Some(g) ==> Some(kept) == newInode
    {
      SectionGood(View(), ResolveInode(g, on, inode), HandleResolved(newInode));
      migrating := false;
      kept := if newInode.Some? && active == Some(g) then newInode.value else inode;
      pc := Op(g);
    }

    /** glfs_fd_bind of a descriptor whose fd was opened on graph fd.inode.graph. */
    method BindFd(g: Graph, did: Did, fd: Fd)
      requires May(Op(g), Bind(did, fd))
      modifies this
      ensures Outcome(View(), Op(g)) == Section(old(View()), Op(g), Bind(did, fd))
      ensures Valid() && Good(old(View()), Op(g), Bind(did, fd), Outcome(View(), Op(g)))
    {
      SectionGood(View(), Op(g), Bind(did, fd));
      openfds := openfds + [did];
      glfds := glfds[did := fd];
    }

    /** glfs_fd_destroy: unlink the descriptor and let go of its fd. */
    method DestroyFd(pc: Pc, did: Did)
      requires May(pc, Destroy(did))
      modifies this
      ensures Outcome(View(), pc) == Section(old(View()), pc, Destroy(did))
      ensures Valid() && Good(old(View()), pc, Destroy(did), Outcome(View(), pc))
      ensures did !in openfds && did !in glfds
    {
      SectionGood(View(), pc, Destroy(did));
      WithoutOk(openfds, did);
      openfds := Without(openfds, did);
      glfds := glfds - {did};
    }
  }

  // --------------------------------------------------------- network helpers

  /** What the inode table and the network answer during one refresh.  A lookup by
      gfid that succeeds answers for that gfid. */
  datatype Answers = Answers(
    found: bool,          // inode_find in the new table
    stale: bool,          // inode_needs_lookup
    created: bool,     // inode_new
    lookup: bool,
    linked: bool,
    fsync: bool,
    fdCreate: bool,
    inodePath: bool,
    open: bool,
    hasLocks: bool,
    getLocks: bool,
    lockKey: bool,
    setLocks: bool)

  /** The refresh has an inode to offer. */
  predicate RefreshWorks(subvol: Graph, i: Inode, needLookup: bool, a: Answers) {
    || (!needLookup && (i.graph == subvol || (a.found && !a.stale)))
    || ((a.found || a.created) && a.lookup && a.linked)
  }

  /** glfs_refresh_inode_safe: the same file on the graph asked for, or nothing. */
  method RefreshInodeSafe(subvol: Graph, oldInode: Option<Inode>, needLookup: bool, a: Answers) returns (r: Option<Inode>)
    ensures r.Some? <==> oldInode.Some? && RefreshWorks(subvol, oldInode.value, needLookup, a)
    ensures r.Some? ==> r.value == Inode(subvol, oldInode.value.gfid)
  {
    r := None;
    if oldInode.None? {
      return;
    }
    if !needLookup && oldInode.value.graph == subvol {
      return oldInode;
    }
    var newInode := if a.found then Some(Inode(subvol, oldInode.value.gfid)) else None;
    if !needLookup && newInode.Some? && !a.stale {
      return newInode;
    }
    var target := if newInode.Some? then newInode else if a.created then Some(Inode(subvol, oldInode.value.gfid)) else None;
    if target.None? || !a.lookup {
      return;
    }
    if a.linked {
      r := target;
    }
  }

  /** glfs_migrate_fd_locks_safe: a missing lockinfo key is not an error. */
  method MigrateLocksSafe(a: Answers) returns (ret: int)
    ensures ret == 0 <==> !a.hasLocks || (a.getLocks && (!a.lockKey || a.setLocks))
  {
    ret := 0;
    if !a.hasLocks {
      return;
    }
    ret := if a.getLocks then 0 else -1;
    if ret < 0 || !a.lockKey {
      return;
    }
    ret := if a.setLocks then 0 else -1;
  }

  /** glfs_migrate_fd_safe: the fd returned is on the new graph with gfid and flags
      kept.  A failed fsync on the old graph never makes the migration fail, and
      every other failure does. */
  method MigrateFdSafe(newSubvol: Graph, oldFd: Fd, oldSwitched: bool, a: Answers) returns (newFd: Option<Fd>)
    ensures newFd.Some? ==> newFd.value == Moved(oldFd, newSubvol)
    ensures newFd.Some? <==>
              || oldFd.inode.graph == newSubvol
              || (&& RefreshWorks(newSubvol, oldFd.inode, false, a)
                  && a.fdCreate && a.inodePath && a.open
                  && (!a.hasLocks || (a.getLocks && (!a.lockKey || a.setLocks))))
  {
    newFd := None;
    var ret := -1;
    if oldFd.inode.graph == newSubvol {
      return Some(oldFd);
    }
    if !oldSwitched {
      ret := if a.fsync then 0 else -1;
    }
    var newInode := RefreshInodeSafe(newSubvol, Some(oldFd.inode), false, a);
    if newInode.None? || !a.fdCreate {
      return;
    }
    newFd := Some(Fd(newInode.value, 0));
    ret := if a.inodePath then 1 else -1;
    if ret >= 0 {
      ret := if a.open then 0 else -1;
      if ret == 0 {
        ret := MigrateLocksSafe(a);
        if ret == 0 {
          newFd := Some(newFd.value.(flags := oldFd.flags));
        }
      }
    }
    if ret != 0 {
      newFd := None;
    }
  }
}
