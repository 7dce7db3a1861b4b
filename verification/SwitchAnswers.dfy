/**
  What each call gets from the sections it runs: the graph an operation works on, the fd
  or inode it is handed, the working directory, the list of descriptors; and that no
  thread is ever stuck.
*/
module SwitchAnswers {
  import opened Options
  import opened GraphSwitch
  import opened SwitchInvariant
  import opened SwitchCarried
  import opened SwitchRuns

  /** Nothing but counts differs, and only the count of `graph`, if any, by one more. */
  ghost predicate Counted(a: Fs, b: Fs, graph: Option<Graph>) {
    b == a.(winds := b.winds) && forall h :: At(b.winds, h) == At(a.winds, h) + One(graph, h)
  }

  // ---------------------------------------------------------------- graphs

  /** An idle thread may always deliver a graph.  One that is neither retired nor in a
      slot becomes the pending one, also while a migration is running, and takes a
      reference; the pending graph it displaces is owed a release.  Any other is ignored. */
  lemma {:induction false} GraphInstalled(s: State, t: nat, g: Graph)
    requires Reachable(s) && t < |s.threads| && s.threads[t] == Idle
    ensures CanStep(s, Label(t, GraphUp(g)))
    ensures var s' := Step(s, Label(t, GraphUp(g)));
            if g in s.fs.switched || Slots(s.fs, g) > 0 then s'.fs == s.fs && s'.threads == s.threads
            else
              && Counted(s.fs.(next := Some(g)), s'.fs, Some(g))
              && s'.threads[t] == if s.fs.next.Some? then Release(s.fs.next.value, None) else Idle
  {
    ReachableInv(s);
  }

  /** An operation that starts with no graph pending works on the active graph, whose
      count it raises by one; without an active graph it gets none. */
  lemma {:induction false} StartGetsActive(s: State, t: nat)
    requires Reachable(s) && t < |s.threads| && s.threads[t] == Idle && s.fs.init && !s.fs.migrating && s.fs.next.None?
    ensures CanStep(s, Label(t, Start))
    ensures var s' := Step(s, Label(t, Start));
            && s'.threads[t] == (if s.fs.active.Some? then Op(s.fs.active.value) else Idle)
            && Counted(s.fs, s'.fs, s.fs.active)
  {
    ReachableInv(s);
  }

  /** With a graph pending it picks that graph to migrate to, whatever became of an
      earlier attempt. */
  lemma {:induction false} StartPicks(s: State, t: nat)
    requires Reachable(s) && t < |s.threads| && s.threads[t] == Idle && s.fs.init && !s.fs.migrating && s.fs.next.Some?
    ensures CanStep(s, Label(t, Start))
    ensures var s' := Step(s, Label(t, Start));
            && s'.threads[t] == FirstLookup(s.fs.next.value)
            && s'.fs == s.fs.(mip := s.fs.next, next := None, migrating := true)
  {
    ReachableInv(s);
  }

  /** The switch itself, from any state: the migrating graph becomes active, and the new
      working directory is set in the same section if it is on that graph; otherwise it is
      refreshed first. */
  lemma {:induction false} CommitSets(fs: Fs, n: Graph, newCwd: Option<Inode>)
    ensures var o := Commit(fs, n, newCwd);
            && o.fs.active == fs.mip && o.fs.mip.None? && o.fs.glfds == fs.glfds && o.fs.openfds == fs.openfds
            && if newCwd.Some? && fs.mip != Some(newCwd.value.graph) then
                 o.pc == CommitCwd(n, newCwd.value) && o.fs.migrating && o.fs.cwd == fs.cwd && o.fs.oldSubvol == fs.active
               else
                 o.pc == Switched(fs.active, n) && o.fs.cwd == (if newCwd.Some? then newCwd else fs.cwd)
  {
  }

  /** Then it is set, if the refresh gave one. */
  lemma {:induction false} CommitRefreshed(fs: Fs, n: Graph, answer: Option<Inode>)
    ensures var o := AfterCommitCwd(fs, n, answer);
            o.fs.cwd == (if answer.Some? then answer else fs.cwd) && !o.fs.migrating && o.pc == Switched(fs.oldSubvol, n)
  {
  }

  // -------------------------------------------------- the list of descriptors

  /** Every descriptor is in the list. */
  predicate Listed(fs: Fs) {
    forall did :: did in fs.glfds ==> did in fs.openfds
  }

  lemma {:induction false} WithoutAt(s: seq<Did>, did: Did) returns (k: nat)
    requires did in s && forall i, j :: 0 <= i < j < |s| ==> s[i] != s[j]
    ensures k < |s| && s[k] == did && Without(s, did) == s[..k] + s[k + 1..]
  {
    if s[0] == did {
      k := 0;
      WithoutNone(s[1..], did);
    } else {
      k := WithoutAt(s[1..], did);
      k := k + 1;
      assert s[..k] == [s[0]] + s[1..][..k - 1] && s[k + 1..] == s[1..][k..];
    }
  }

  lemma {:induction false} WithoutNone(s: seq<Did>, did: Did)
    requires did !in s
    ensures Without(s, did) == s
  {
    if s != [] {
      assert did !in s[1..] && s == [s[0]] + s[1..];
      WithoutNone(s[1..], did);
    }
  }

  /** A section of a migration keeps the list and which descriptors there are, and gets
      further: from the lookup to the working directory to the descriptors in order. */
  predicate Goes(fs: Fs, pc: Pc, o: Outcome) {
    && o.fs.openfds == fs.openfds && o.fs.glfds.Keys == fs.glfds.Keys
    && !o.pc.FirstLookup? && (o.pc.RefreshCwd? ==> pc.FirstLookup?)
    && (o.pc.MigrateFd? ==> o.pc.k < |fs.openfds| && (pc.MigrateFd? ==> pc.k < o.pc.k))
  }

  lemma {:induction false} SkippedGoes(fs: Fs, pc: Pc, fs1: Fs, o: Outcome, k: nat)
    requires fs1.openfds == fs.openfds && fs1.glfds.Keys == fs.glfds.Keys && Skipped(fs1, o, k) && (pc.MigrateFd? ==> pc.k < k)
    ensures Goes(fs, pc, o)
  {
  }

  lemma {:induction false} LookupGoes(fs: Fs, n: Graph, ok: bool)
    ensures Goes(fs, FirstLookup(n), AfterLookup(fs, n, ok))
  {
    if ok && fs.cwd.None? {
      var fs1 := fs.(migrating := false);
      WalkSkips(fs1, n, None, 0);
      SkippedGoes(fs, FirstLookup(n), fs1, WalkFrom(fs1, n, None, 0), 0);
    }
  }

  lemma {:induction false} CwdGoes(fs: Fs, pc: Pc, i: Option<Inode>)
    requires pc.RefreshCwd?
    ensures Goes(fs, pc, AfterCwd(fs, pc.n, i))
  {
    if i.Some? {
      var fs1 := fs.(migrating := false);
      WalkSkips(fs1, pc.n, i, 0);
      SkippedGoes(fs, pc, fs1, WalkFrom(fs1, pc.n, i, 0), 0);
    }
  }

  lemma {:induction false} FdGoes(fs: Fs, pc: Pc, f: Option<Fd>)
    requires pc.MigrateFd? && pc.k < |pc.walk| && pc.walk[pc.k] in fs.glfds
    ensures Goes(fs, pc, AfterFd(fs, pc.n, pc.newCwd, pc.walk[pc.k], pc.k, f))
  {
    var fs2 := Answered(fs, pc, f);
    assert fs2.glfds.Keys == fs.glfds.Keys;
    WalkSkips(fs2, pc.n, pc.newCwd, pc.k + 1);
    SkippedGoes(fs, pc, fs2, WalkFrom(fs2, pc.n, pc.newCwd, pc.k + 1), pc.k + 1);
  }

  lemma {:induction false} MigrationGoes(fs: Fs, pc: Pc, e: Event)
    requires Base(fs, pc) && Enabled(fs, pc, e) && Target(pc).Some?
    ensures Goes(fs, pc, Section(fs, pc, e))
  {
    match e
    case LookupDone(ok) => LookupGoes(fs, pc.n, ok);
    case CwdRefreshed(i) => CwdGoes(fs, pc, i);
    case FdMigrated(f) => FdGoes(fs, pc, f);
  }

  lemma {:induction false} DestroyListed(fs: Fs, pc: Pc, did: Did)
    requires ListOk(fs) && Enabled(fs, pc, Destroy(did)) && Listed(fs)
    ensures Listed(Section(fs, pc, Destroy(did)).fs)
  {
    var k := WithoutAt(fs.openfds, did);
    forall d | d in fs.glfds && d != did
      ensures d in Without(fs.openfds, did)
    {
      var x :| 0 <= x < |fs.openfds| && fs.openfds[x] == d;
      assert Without(fs.openfds, did)[if x < k then x else x - 1] == d;
    }
  }

  lemma {:induction false} ListedSection(fs: Fs, pc: Pc, e: Event)
    requires Base(fs, pc) && Enabled(fs, pc, e) && Listed(fs)
    ensures Listed(Section(fs, pc, e).fs)
  {
    if Target(pc).Some? {
      MigrationGoes(fs, pc, e);
    } else if e.Destroy? {
      DestroyListed(fs, pc, e.did);
    }
  }

  lemma {:induction false} ListedRun(states: seq<State>, labels: seq<Label>, i: nat)
    requires IsRun(states, labels) && i < |states|
    ensures Listed(states[i].fs)
  {
    if i > 0 {
      ListedRun(states, labels, i - 1);
      RunStep(states, labels, i - 1);
      var s, l := states[i - 1], labels[i - 1];
      assert ThreadOk(s.fs, s.threads[l.t]);
      ListedSection(s.fs, s.threads[l.t], l.e);
    }
  }

  /** The list is the descriptors that exist, each once. */
  lemma {:induction false} ListIsDescriptors(s: State)
    requires Reachable(s)
    ensures forall did :: did in s.fs.glfds <==> did in s.fs.openfds
    ensures forall i, j :: 0 <= i < j < |s.fs.openfds| ==> s.fs.openfds[i] != s.fs.openfds[j]
  {
    ReachableInv(s);
    var states, labels :| IsRun(states, labels) && states[|labels|] == s;
    ListedRun(states, labels, |labels|);
  }

  /** So a switch carries every descriptor that exists when it starts: each one with a
      gfid is on the new graph afterwards, unless the network failed for it. */
  lemma {:induction false} EveryDescriptor(states: seq<State>, labels: seq<Label>, t: nat, i: nat, j: nat, did: Did)
    requires IsRun(states, labels) && i < j < |labels|
    requires labels[i] == Label(t, Start) && labels[j].t == t
    requires forall m :: i < m <= j ==> t < |states[m].threads| && Target(states[m].threads[t]).Some?
    requires t < |states[j + 1].threads| && Target(states[j + 1].threads[t]).None? && !GivesUp(labels[j].e)
    requires did in states[i].fs.glfds
    ensures states[i].fs.next.Some? && did in states[j + 1].fs.glfds
    ensures var a, b := states[i].fs, states[j + 1].fs;
            b.glfds[did] == if a.glfds[did].inode.gfid != 0 && did !in Failed(states, labels, t, i + 1, j + 1)
                            then Moved(a.glfds[did], a.next.value) else a.glfds[did]
  {
    CommittedIsPicked(states, labels, t, i, j);
    ListedRun(states, labels, i);
    var a := states[i].fs;
    var x :| 0 <= x < |a.openfds| && a.openfds[x] == did;
    assert a.glfds[did].inode.gfid != 0 ==> Passed(a, |a.openfds|, did);
  }

  /** A descriptor that is bound joins the list at its end, and nothing else changes. */
  lemma {:induction false} BoundLast(s: State, t: nat, did: Did, fd: Fd)
    requires Reachable(s) && t < |s.threads| && s.threads[t].Op? && s.fs.init && !s.fs.migrating
    requires did !in s.fs.glfds && Live(s.fs, fd.inode.graph)
    ensures CanStep(s, Label(t, Bind(did, fd)))
    ensures var s' := Step(s, Label(t, Bind(did, fd)));
            && s'.threads == s.threads && did !in s.fs.openfds
            && s'.fs == s.fs.(openfds := s.fs.openfds + [did], glfds := s.fs.glfds[did := fd])
  {
    ReachableInv(s);
  }

  /** One that is destroyed leaves it; the others stay, in order and as they were. */
  lemma {:induction false} DestroyedLeaves(s: State, t: nat, did: Did) returns (k: nat)
    requires Reachable(s) && t < |s.threads| && (s.threads[t] == Idle || s.threads[t].Op?) && s.fs.init && !s.fs.migrating
    requires did in s.fs.glfds
    ensures CanStep(s, Label(t, Destroy(did)))
    ensures k < |s.fs.openfds| && s.fs.openfds[k] == did
    ensures var s' := Step(s, Label(t, Destroy(did)));
            && s'.threads == s.threads
            && s'.fs == s.fs.(openfds := s.fs.openfds[..k] + s.fs.openfds[k + 1..], glfds := s.fs.glfds - {did})
  {
    ListIsDescriptors(s);
    k := WithoutAt(s.fs.openfds, did);
  }

  // ------------------------------------------------------- waiting for the network

  /** The next step of thread t after step i is step j. */
  ghost predicate NextOf(states: seq<State>, labels: seq<Label>, t: nat, i: nat, j: nat) {
    && IsRun(states, labels) && i < j < |labels| && labels[i].t == t == labels[j].t && t < |states[i].threads|
    && forall m :: i < m < j ==> labels[m].t != t
  }

  /** A thread that step i sends to the network finds what it left: the descriptors, the
      working directory and the active graph are those at step i. */
  lemma {:induction false} Waited(states: seq<State>, labels: seq<Label>, t: nat, i: nat, j: nat)
    requires NextOf(states, labels, t, i, j) && t < |states[i + 1].threads| && InSection(states[i + 1].threads[t])
    ensures t < |states[j].threads| && states[j].threads[t] == states[i + 1].threads[t]
    ensures SameView(states[i + 1].fs, states[j].fs) && CanStep(states[j], labels[j])
    ensures states[j + 1] == Step(states[j], labels[j]) && Reachable(states[j])
  {
    LogicalLock(states, labels, t, i + 1, j);
    RunStep(states, labels, j);
    PrefixReachable(states, labels, j);
  }

  lemma {:induction false} PrefixReachable(states: seq<State>, labels: seq<Label>, i: nat)
    requires IsRun(states, labels) && i < |states|
    ensures Reachable(states[i])
  {
    if i == 0 {
      InitReachable(|states[0].threads|);
    } else {
      PrefixReachable(states, labels, i - 1);
      assert StepAt(states, labels, i - 1);
      ReachableStep(states[i - 1], labels[i - 1]);
    }
  }

  // ------------------------------------------------------------- resolving an fd

  /** glfs_resolve_fd on graph g hands out the descriptor's own fd exactly if that is on
      g; otherwise it goes to the network with the flag set. */
  lemma {:induction false} ResolveStarts(s: State, t: nat, did: Did)
    requires Reachable(s) && t < |s.threads| && s.threads[t].Op? && s.fs.init && !s.fs.migrating && did in s.fs.glfds
    ensures CanStep(s, Label(t, ResolveStart(did)))
    ensures var g, fd, s' := s.threads[t].g, s.fs.glfds[did], Step(s, Label(t, ResolveStart(did)));
            && (s'.threads[t] == Op(g) <==> fd.inode.graph == g)
            && (fd.inode.graph == g ==> s'.fs == s.fs)
            && (fd.inode.graph != g ==> s'.threads[t] == ResolveFd(g, did, fd) && s'.fs == s.fs.(migrating := true))
  {
  }

  /** The fd that a call of glfs_resolve_fd at step i hands out, given the answer of the
      network if it had to ask. */
  function Handed(fd: Fd, g: Graph, answer: Option<Fd>): Option<Fd> {
    if fd.inode.graph == g then Some(fd) else answer
  }

  /** Whatever other threads do meanwhile, every fd handed out is on the caller's graph
      and is the file, with the flags, that the descriptor had at the call; the
      descriptor takes it over exactly if the caller's graph is the active one. */
  lemma {:induction false} ResolveAnswers(states: seq<State>, labels: seq<Label>, t: nat, i: nat, j: nat, did: Did)
    requires NextOf(states, labels, t, i, j) && labels[i].e == ResolveStart(did) && t < |states[j + 1].threads|
    ensures did in states[i].fs.glfds && states[i].threads[t].Op?
    ensures var g, fd, a, b := states[i].threads[t].g, states[i].fs.glfds[did], states[j].fs, states[j + 1].fs;
            fd.inode.graph != g ==>
              && labels[j].e.Resolved? && states[j + 1].threads[t] == Op(g) && !b.migrating
              && a.glfds == states[i].fs.glfds && a.active == states[i].fs.active
              && b.glfds == (if labels[j].e.newFd.Some? && a.active == Some(g) then a.glfds[did := labels[j].e.newFd.value] else a.glfds)
    ensures var g, fd := states[i].threads[t].g, states[i].fs.glfds[did];
            var r := Handed(fd, g, if labels[j].e.Resolved? then labels[j].e.newFd else None);
            r.Some? ==> r.value == Moved(fd, g)
  {
    PrefixReachable(states, labels, i);
    RunStep(states, labels, i);
    ResolveStarts(states[i], t, did);
    var g, fd := states[i].threads[t].g, states[i].fs.glfds[did];
    if fd.inode.graph != g {
      Waited(states, labels, t, i, j);
      ResolveReturns(states[j], labels[j]);
    }
  }

  // ---------------------------------------------------------- working directory

  /** glfs_cwd_set sets the directory at once if it is on the active graph; otherwise it
      goes to the network and leaves the working directory alone. */
  lemma {:induction false} ChdirStarts(s: State, t: nat, inode: Inode)
    requires Reachable(s) && t < |s.threads| && s.threads[t].Op? && s.fs.init && !s.fs.migrating
    ensures CanStep(s, Label(t, Chdir(inode))) && s.fs.active.Some?
    ensures var g, s' := s.threads[t].g, Step(s, Label(t, Chdir(inode)));
            if s.fs.active == Some(inode.graph) then s'.fs == s.fs.(cwd := Some(inode)) && s'.threads[t] == Op(g)
            else s'.fs == s.fs.(migrating := true) && s'.threads[t] == CwdSet(g, s.fs.active, inode)
  {
    ReachableInv(s);
    assert ThreadOk(s.fs, s.threads[t]);
  }

  /** Then the working directory is the same file on the active graph, or, if the network
      failed, what it was at the call. */
  lemma {:induction false} ChdirAnswers(states: seq<State>, labels: seq<Label>, t: nat, i: nat, j: nat, inode: Inode)
    requires NextOf(states, labels, t, i, j) && labels[i].e == Chdir(inode) && states[i].fs.active != Some(inode.graph)
    requires t < |states[j + 1].threads|
    ensures states[i].fs.active.Some? && states[i].threads[t].Op?
    ensures var a, b := states[i].fs, states[j + 1].fs;
            && labels[j].e.ChdirDone? && states[j + 1].threads[t] == states[i].threads[t] && b.active == a.active && !b.migrating
            && b.cwd == if labels[j].e.newInode.Some? then Some(Inode(a.active.value, inode.gfid)) else a.cwd
  {
    PrefixReachable(states, labels, i);
    RunStep(states, labels, i);
    ChdirStarts(states[i], t, inode);
    Waited(states, labels, t, i, j);
  }

  /** glfs_cwd_get needs no network and changes nothing. */
  lemma {:induction false} GetCwdAnswers(s: State, t: nat)
    requires Reachable(s) && t < |s.threads| && s.threads[t].Op? && s.fs.init && !s.fs.migrating
    ensures CanStep(s, Label(t, GetCwd)) && Step(s, Label(t, GetCwd)).fs == s.fs && Step(s, Label(t, GetCwd)).threads == s.threads
  {
    ReachableInv(s);
  }

  // --------------------------------------------------------------------- handles

  /** glfs_resolve_inode uses the handle's inode exactly if it is fresh and on the
      caller's graph. */
  lemma {:induction false} HandleStarts(s: State, t: nat, inode: Inode, stale: bool)
    requires Reachable(s) && t < |s.threads| && s.threads[t].Op? && s.fs.init && !s.fs.migrating
    ensures CanStep(s, Label(t, HandleStart(inode, stale)))
    ensures var g, s' := s.threads[t].g, Step(s, Label(t, HandleStart(inode, stale)));
            if inode.graph == g && !stale then s'.fs == s.fs && s'.threads[t] == Op(g)
            else s'.fs == s.fs.(migrating := true) && s'.threads[t] == ResolveInode(g, s.fs.active, inode)
  {
  }

  /** Otherwise the answer is the handle's file on the graph that was active at the call
      and still is. */
  lemma {:induction false} HandleAnswers(states: seq<State>, labels: seq<Label>, t: nat, i: nat, j: nat, inode: Inode, stale: bool)
    requires NextOf(states, labels, t, i, j) && labels[i].e == HandleStart(inode, stale) && t < |states[j + 1].threads|
    ensures states[i].threads[t].Op?
    ensures var a, b, g := states[i].fs, states[j + 1].fs, states[i].threads[t].g;
            stale || inode.graph != g ==>
              && labels[j].e.HandleResolved? && states[j + 1].threads[t] == Op(g) && !b.migrating && SameView(a, b)
              && (labels[j].e.newInode.Some? ==>
                    a.active == Some(labels[j].e.newInode.value.graph) && labels[j].e.newInode.value.gfid == inode.gfid)
  {
    PrefixReachable(states, labels, i);
    RunStep(states, labels, i);
    HandleStarts(states[i], t, inode, stale);
    if stale || inode.graph != states[i].threads[t].g {
      Waited(states, labels, t, i, j);
    }
  }

  // ----------------------------------------------------------------- no deadlock

  /** What the network may answer a waiting thread. */
  function Reply(pc: Pc, ok: bool): Event
    requires InSection(pc)
  {
    match pc
    case FirstLookup(_) => LookupDone(ok)
    case RefreshCwd(n, was) => CwdRefreshed(if ok then Some(Inode(n, was.gfid)) else None)
    case MigrateFd(n, _, _, _, from) => FdMigrated(if ok then Some(Moved(from, n)) else None)
    case ResolveFd(g, _, from) => Resolved(if ok then Some(Moved(from, g)) else None)
    case CwdSet(_, on, inode) => ChdirDone(if ok && on.Some? then Some(Inode(on.value, inode.gfid)) else None)
    case ResolveInode(_, on, inode) => HandleResolved(if ok && on.Some? then Some(Inode(on.value, inode.gfid)) else None)
    case CommitCwd(_, _) => CommitCwdDone(None)
    case CwdGet(_) => CwdGot
  }

  /** Nothing ever waits for ever: the flag is set only while some thread waits for the
      network, and that thread can go on whatever the answer; a thread that is not
      waiting for the network can end its operation, give back what it owes or deliver
      its event, with the flag set or not. */
  lemma {:induction false} NeverStuck(s: State, t: nat)
    requires Reachable(s) && s.fs.init && t < |s.threads|
    ensures s.fs.migrating <==> exists u :: 0 <= u < |s.threads| && InSection(s.threads[u])
    ensures var pc := s.threads[t];
            if InSection(pc) then CanStep(s, Label(t, Reply(pc, true))) && CanStep(s, Label(t, Reply(pc, false)))
            else CanStep(s, Label(t, if pc.Op? then Done else if pc.Release? then ReleaseOwed else if pc.Down? then SendDown else InitDone))
  {
    ReachableInv(s);
    assert ThreadOk(s.fs, s.threads[t]);
  }

  // ---------------------------------------------------------- migrations end

  /** Network calls a migration may still have to make. */
  function Left(fs: Fs, pc: Pc): nat {
    if pc.FirstLookup? then |fs.openfds| + 2
    else if pc.RefreshCwd? then |fs.openfds| + 1
    else if pc.MigrateFd? && pc.k < |fs.openfds| then |fs.openfds| - pc.k
    else 0
  }

  lemma {:induction false} LeftSection(fs: Fs, pc: Pc, e: Event)
    requires Base(fs, pc) && Enabled(fs, pc, e) && Target(pc).Some?
    ensures Left(Section(fs, pc, e).fs, Section(fs, pc, e).pc) < Left(fs, pc)
  {
    MigrationGoes(fs, pc, e);
    LeftGoes(fs, pc, Section(fs, pc, e));
  }

  lemma {:induction false} LeftGoes(fs: Fs, pc: Pc, o: Outcome)
    requires Target(pc).Some? && ThreadOk(fs, pc) && Goes(fs, pc, o)
    ensures Left(o.fs, o.pc) < Left(fs, pc)
  {
  }

  lemma {:induction false} LeftStep(states: seq<State>, labels: seq<Label>, t: nat, i: nat)
    requires IsRun(states, labels) && i < |labels| && t < |states[i].threads| && t < |states[i + 1].threads|
    requires Target(states[i].threads[t]).Some? && Target(states[i + 1].threads[t]).Some?
    ensures Left(states[i + 1].fs, states[i + 1].threads[t]) + (if labels[i].t == t then 1 else 0)
            <= Left(states[i].fs, states[i].threads[t])
  {
    RunStep(states, labels, i);
    LeftOf(states[i], labels[i], t);
  }

  lemma {:induction false} LeftOf(s: State, l: Label, t: nat)
    requires Inv(s) && CanStep(s, l) && t < |s.threads| && Target(s.threads[t]).Some?
    ensures Left(Step(s, l).fs, Step(s, l).threads[t]) + (if l.t == t then 1 else 0) <= Left(s.fs, s.threads[t])
  {
    WhileMigrating(s, t);
    if l.t == t {
      LeftSection(s.fs, s.threads[t], l.e);
    } else {
      assert !InSection(s.threads[l.t]);
      SectionFrame(s.fs, s.threads[l.t], l.e);
    }
  }

  /** Steps of thread t among steps i to j - 1. */
  ghost function StepsOf(labels: seq<Label>, t: nat, i: nat, j: nat): nat
    requires j <= |labels|
  {
    if i >= j then 0 else StepsOf(labels, t, i, j - 1) + if labels[j - 1].t == t then 1 else 0
  }

  /** A migration makes at most two network calls more than there are descriptors. */
  lemma {:induction false} MigrationBounded(states: seq<State>, labels: seq<Label>, t: nat, i: nat, j: nat)
    requires IsRun(states, labels) && i <= j < |states|
    requires forall m :: i <= m <= j ==> t < |states[m].threads| && Target(states[m].threads[t]).Some?
    ensures StepsOf(labels, t, i, j) + Left(states[j].fs, states[j].threads[t]) <= Left(states[i].fs, states[i].threads[t])
    ensures StepsOf(labels, t, i, j) < |states[i].fs.openfds| + 2
  {
    if i < j {
      MigrationBounded(states, labels, t, i, j - 1);
      LeftStep(states, labels, t, j - 1);
    }
    StillLeft(states, labels, t, j);
  }

  lemma {:induction false} StillLeft(states: seq<State>, labels: seq<Label>, t: nat, i: nat)
    requires IsRun(states, labels) && i < |states| && t < |states[i].threads| && Target(states[i].threads[t]).Some?
    ensures Left(states[i].fs, states[i].threads[t]) > 0
  {
    RunInv(states, labels, i);
    WhileMigrating(states[i], t);
  }
}
