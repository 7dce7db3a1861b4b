/**
  The live graph switch of libgfapi as a transition system.

  Every step below is one section that the C code runs with `fs->mutex` held,
  from taking the mutex to giving it up: at the end of the function, or just
  before a network call.  A thread stands for one operation (or one event
  notification) and its program point says what it does next once it gets the
  mutex again.  The results of network calls are parameters of the steps.
*/
module GraphSwitch {
  import opened Options

  type Graph = nat          // a translator graph, named by its top translator
  type Gfid = nat           // 0 is the null gfid
  type Did = nat            // identity of a `struct glfs_fd`

  datatype Inode = Inode(graph: Graph, gfid: Gfid)
  datatype Fd = Fd(inode: Inode, flags: int)

  const NULL_FD := Fd(Inode(0, 0), 0)

  /** The fields of `struct glfs` that the switch protocol reads and writes. */
  datatype Fs = Fs(
    init: bool,
    migrating: bool,                // migration_in_progress
    active: Option<Graph>,
    next: Option<Graph>,
    mip: Option<Graph>,
    oldSubvol: Option<Graph>,
    winds: map<Graph, int>,
    switched: set<Graph>,
    cwd: Option<Inode>,
    openfds: seq<Did>,
    glfds: map<Did, Fd>)

  /** Program points: where a thread is while it does not hold the mutex. */
  datatype Pc =
    | Idle
    | Op(g: Graph)                                     // owns a wind on g
    | FirstLookup(n: Graph)                            // network call, flag set
    | RefreshCwd(n: Graph, was: Inode)                 // network call, flag set
    | MigrateFd(n: Graph, newCwd: Option<Inode>, walk: seq<Did>, k: nat, from: Fd)  // network call, flag set
    | CommitCwd(n: Graph, inode: Inode)                // network call, flag set
    | ResolveFd(g: Graph, did: Did, from: Fd)          // network call, flag set
    | CwdSet(g: Graph, on: Option<Graph>, inode: Inode) // network call, flag set
    | CwdGet(g: Graph)                                 // network call, flag set
    | ResolveInode(g: Graph, on: Option<Graph>, inode: Inode) // network call, flag set
    | Release(owed: Graph, held: Option<Graph>)        // about to call glfs_subvol_done
    | Down(dead: Graph, held: Option<Graph>)           // count reached 0, PARENT_DOWN not sent yet

  /** What a thread does, with the answers of the network where it waited for one. */
  datatype Event =
    | InitDone
    | GraphUp(graph: Graph)
    | Start
    | LookupDone(ok: bool)
    | CwdRefreshed(newInode: Option<Inode>)
    | FdMigrated(newFd: Option<Fd>)
    | CommitCwdDone(newInode: Option<Inode>)
    | Done
    | ReleaseOwed
    | SendDown
    | ResolveStart(did: Did)
    | Resolved(newFd: Option<Fd>)
    | Bind(did: Did, fd: Fd)
    | Destroy(did: Did)
    | Chdir(inode: Inode)
    | ChdirDone(newInode: Option<Inode>)
    | GetCwd
    | CwdGot
    | HandleStart(inode: Inode, stale: bool)
    | HandleResolved(newInode: Option<Inode>)

  datatype Outcome = Outcome(fs: Fs, pc: Pc)

  // ---------------------------------------------------------------- sections

  function At(m: map<Graph, int>, g: Graph): int {
    if g in m then m[g] else 0
  }

  function Add(m: map<Graph, int>, g: Graph, d: int): map<Graph, int> {
    m[g := At(m, g) + d]
  }

  function FdOf(fs: Fs, did: Did): Fd {
    if did in fs.glfds then fs.glfds[did] else NULL_FD
  }

  /** A graph that is active or was active before. */
  predicate Live(fs: Fs, g: Graph) {
    fs.active == Some(g) || g in fs.switched
  }

  function Resume(held: Option<Graph>): Pc {
    if held.Some? then Op(held.value) else Idle
  }

  /** graph_setup: is the graph new enough to be installed? */
  predicate Accepts(fs: Fs, g: Graph) {
    g !in fs.switched && fs.active != Some(g) && fs.next != Some(g) && fs.mip != Some(g)
  }

  function GraphSetup(fs: Fs, g: Graph): Outcome {
    if !Accepts(fs, g) then
      Outcome(fs, Idle)
    else
      Outcome(fs.(next := Some(g), winds := Add(fs.winds, g, 1)),
              if fs.next.Some? then Release(fs.next.value, None) else Idle)
  }

  /** The tail of priv_glfs_active_subvol: take a wind, retire old_subvol. */
  function Finish(fs: Fs, subvol: Option<Graph>): Outcome {
    var fs1 := if subvol.Some? then fs.(winds := Add(fs.winds, subvol.value, 1)) else fs;
    if fs.oldSubvol.Some? then
      Outcome(fs1.(oldSubvol := None, switched := fs.switched + {fs.oldSubvol.value}),
              Release(fs.oldSubvol.value, subvol))
    else
      Outcome(fs1, Resume(subvol))
  }

  /** The switch itself: active_subvol, old_subvol and cwd change in one section. */
  function Commit(fs: Fs, n: Graph, newCwd: Option<Inode>): Outcome {
    var fs1 := fs.(oldSubvol := fs.active, active := fs.mip, mip := None);
    if newCwd.None? then
      Finish(fs1, Some(n))
    else if fs1.active == Some(newCwd.value.graph) then
      Finish(fs1.(cwd := newCwd), Some(n))
    else
      Outcome(fs1.(migrating := true), CommitCwd(n, newCwd.value))
  }

  /** __glfs_migrate_openfds from list position k: skip descriptors whose create
      is still in progress, stop at the first one to migrate or at the end. */
  function WalkFrom(fs: Fs, n: Graph, newCwd: Option<Inode>, k: nat): (o: Outcome)
    ensures o == Commit(fs, n, newCwd) ||
            (o.pc.MigrateFd? && o.fs == fs.(migrating := true) && k <= o.pc.k < |fs.openfds| &&
             o.pc == MigrateFd(n, newCwd, fs.openfds, o.pc.k, FdOf(fs, fs.openfds[o.pc.k])))
    decreases |fs.openfds| - k
  {
    if k >= |fs.openfds| then
      Commit(fs, n, newCwd)
    else if FdOf(fs, fs.openfds[k]).inode.gfid == 0 then
      WalkFrom(fs, n, newCwd, k + 1)
    else
      Outcome(fs.(migrating := true),
              MigrateFd(n, newCwd, fs.openfds, k, FdOf(fs, fs.openfds[k])))
  }

  function StartOp(fs: Fs): Outcome {
    if fs.next.None? then
      Finish(fs, fs.active)
    else
      Outcome(fs.(mip := fs.next, next := None, migrating := true), FirstLookup(fs.next.value))
  }

  function AfterLookup(fs: Fs, n: Graph, ok: bool): Outcome {
    var fs1 := fs.(migrating := false);
    if !ok then
      Finish(fs1, None)
    else if fs.cwd.Some? then
      Outcome(fs1.(migrating := true), RefreshCwd(n, fs.cwd.value))
    else
      WalkFrom(fs1, n, None, 0)
  }

  function AfterCwd(fs: Fs, n: Graph, newInode: Option<Inode>): Outcome {
    var fs1 := fs.(migrating := false);
    if newInode.None? then Finish(fs1, None) else WalkFrom(fs1, n, newInode, 0)
  }

  function AfterFd(fs: Fs, n: Graph, newCwd: Option<Inode>, did: Did, k: nat, newFd: Option<Fd>): Outcome {
    var fs1 := fs.(migrating := false);
    var fs2 := if newFd.Some? then fs1.(glfds := fs1.glfds[did := newFd.value]) else fs1;
    WalkFrom(fs2, n, newCwd, k + 1)
  }

  function AfterCommitCwd(fs: Fs, n: Graph, newInode: Option<Inode>): Outcome {
    var fs1 := fs.(migrating := false);
    Finish(if newInode.Some? then fs1.(cwd := newInode) else fs1, Some(n))
  }

  /** priv_glfs_subvol_done: drop one wind. */
  function SubvolDone(fs: Fs, g: Graph, held: Option<Graph>): Outcome {
    var fs1 := fs.(winds := Add(fs.winds, g, -1));
    Outcome(fs1, if At(fs1.winds, g) == 0 then Down(g, held) else Resume(held))
  }

  function ResolveFdStart(fs: Fs, g: Graph, did: Did): Outcome {
    if FdOf(fs, did).inode.graph == g then
      Outcome(fs, Op(g))
    else
      Outcome(fs.(migrating := true), ResolveFd(g, did, FdOf(fs, did)))
  }

  function AfterResolve(fs: Fs, g: Graph, did: Did, newFd: Option<Fd>): Outcome {
    var fs1 := fs.(migrating := false);
    Outcome(if newFd.Some? && fs.active == Some(g) then fs1.(glfds := fs1.glfds[did := newFd.value]) else fs1,
            Op(g))
  }

  function CwdSetStart(fs: Fs, g: Graph, inode: Inode): Outcome {
    if fs.active != Some(inode.graph) then
      Outcome(fs.(migrating := true), CwdSet(g, fs.active, inode))
    else
      Outcome(fs.(cwd := Some(inode)), Op(g))
  }

  function AfterCwdSet(fs: Fs, g: Graph, newInode: Option<Inode>): Outcome {
    var fs1 := fs.(migrating := false);
    Outcome(if newInode.Some? then fs1.(cwd := newInode) else fs1, Op(g))
  }

  function CwdGetStart(fs: Fs, g: Graph): Outcome {
    if fs.cwd.None? || fs.active == Some(fs.cwd.value.graph) then
      Outcome(fs, Op(g))
    else
      Outcome(fs.(migrating := true), CwdGet(g))
  }

  /** __glfs_resolve_inode on the inode of a handle: the refresh goes to the active
      graph, which need not be the caller's. */
  function ResolveInodeStart(fs: Fs, g: Graph, inode: Inode, stale: bool): Outcome {
    if !stale && inode.graph == g then
      Outcome(fs, Op(g))
    else
      Outcome(fs.(migrating := true), ResolveInode(g, fs.active, inode))
  }

  /** list_del_init: unlink every occurrence of the descriptor. */
  function Without(s: seq<Did>, did: Did): seq<Did> {
    if s == [] then [] else (if s[0] == did then [] else [s[0]]) + Without(s[1..], did)
  }

  // ------------------------------------------------------------- the system

  /** glfs_lock (fs, true): initialised and no migration in progress. */
  predicate Unlocked(fs: Fs) {
    fs.init && !fs.migrating
  }

  /** When a thread may take its next section.  The network's premises are here:
      a refreshed inode and a migrated fd lie on the graph asked for and keep
      gfid and flags; an opened descriptor lies on a graph that was active. */
  predicate Enabled(fs: Fs, pc: Pc, e: Event) {
    match e
    case InitDone => pc.Idle?
    case GraphUp(_) => pc.Idle?
    case Start => pc.Idle? && Unlocked(fs)
    case LookupDone(_) => pc.FirstLookup?
    case CwdRefreshed(i) => pc.RefreshCwd? && (i.Some? ==> i.value == Inode(pc.n, pc.was.gfid))
    case FdMigrated(f) => pc.MigrateFd? && (f.Some? ==> f.value == Moved(pc.from, pc.n))
    case CommitCwdDone(i) => pc.CommitCwd? && (i.Some? ==> fs.active == Some(i.value.graph))
    case Done => pc.Op? && fs.init
    case ReleaseOwed => pc.Release? && fs.init
    case SendDown => pc.Down?
    case ResolveStart(did) => pc.Op? && Unlocked(fs) && did in fs.glfds
    case Resolved(f) => pc.ResolveFd? && (f.Some? ==> f.value == Moved(pc.from, pc.g))
    case Bind(did, fd) => pc.Op? && Unlocked(fs) && did !in fs.glfds && Live(fs, fd.inode.graph)
    case Destroy(did) => (pc.Idle? || pc.Op?) && Unlocked(fs) && did in fs.glfds
    case Chdir(_) => pc.Op? && Unlocked(fs)
    case ChdirDone(i) => pc.CwdSet? && (i.Some? ==> pc.on == Some(i.value.graph) && i.value.gfid == pc.inode.gfid)
    case GetCwd => pc.Op? && Unlocked(fs)
    case CwdGot => pc.CwdGet?
    case HandleStart(_, _) => pc.Op? && Unlocked(fs)
    case HandleResolved(i) => pc.ResolveInode? && (i.Some? ==> pc.on == Some(i.value.graph) && i.value.gfid == pc.inode.gfid)
  }

  function Moved(fd: Fd, g: Graph): Fd {
    Fd(Inode(g, fd.inode.gfid), fd.flags)
  }

  function Section(fs: Fs, pc: Pc, e: Event): Outcome
    requires Enabled(fs, pc, e)
  {
    match e
    case InitDone => Outcome(fs.(init := true), pc)
    case GraphUp(g) => GraphSetup(fs, g)
    case Start => StartOp(fs)
    case LookupDone(ok) => AfterLookup(fs, pc.n, ok)
    case CwdRefreshed(i) => AfterCwd(fs, pc.n, i)
    case FdMigrated(f) => AfterFd(fs, pc.n, pc.newCwd, if pc.k < |pc.walk| then pc.walk[pc.k] else 0, pc.k, f)
    case CommitCwdDone(i) => AfterCommitCwd(fs, pc.n, i)
    case Done => SubvolDone(fs, pc.g, None)
    case ReleaseOwed => SubvolDone(fs, pc.owed, pc.held)
    case SendDown => Outcome(fs, Resume(pc.held))
    case ResolveStart(did) => ResolveFdStart(fs, pc.g, did)
    case Resolved(f) => AfterResolve(fs, pc.g, pc.did, f)
    case Bind(did, fd) => Outcome(fs.(openfds := fs.openfds + [did], glfds := fs.glfds[did := fd]), pc)
    case Destroy(did) => Outcome(fs.(openfds := Without(fs.openfds, did), glfds := fs.glfds - {did}), pc)
    case Chdir(inode) => CwdSetStart(fs, pc.g, inode)
    case ChdirDone(i) => AfterCwdSet(fs, pc.g, i)
    case GetCwd => CwdGetStart(fs, pc.g)
    case CwdGot => Outcome(fs.(migrating := false), Op(pc.g))
    case HandleStart(inode, stale) => ResolveInodeStart(fs, pc.g, inode, stale)
    case HandleResolved(_) => Outcome(fs.(migrating := false), Op(pc.g))
  }

  /** History counters, per graph; the code has no such variables.
      abandoned: references lost when mip_subvol is overwritten;
      accepted: times graph_setup installed the graph;
      zeros: times its count reached 0; sent: PARENT_DOWN events delivered. */
  datatype Hist = Hist(
    abandoned: map<Graph, int>,
    accepted: map<Graph, int>,
    zeros: map<Graph, int>,
    sent: map<Graph, int>)

  datatype State = State(fs: Fs, threads: seq<Pc>, h: Hist)
  datatype Label = Label(t: nat, e: Event)

  predicate Abandons(fs: Fs, e: Event) {
    e.Start? && fs.next.Some? && fs.mip.Some?
  }

  function Record(h: Hist, fs: Fs, pc: Pc, e: Event, o: Outcome): Hist {
    Hist(
      if Abandons(fs, e) then Add(h.abandoned, fs.mip.value, 1) else h.abandoned,
      if e.GraphUp? && Accepts(fs, e.graph) then Add(h.accepted, e.graph, 1) else h.accepted,
      if (e.Done? || e.ReleaseOwed?) && o.pc.Down? then Add(h.zeros, o.pc.dead, 1) else h.zeros,
      if e.SendDown? && pc.Down? then Add(h.sent, pc.dead, 1) else h.sent)
  }

  predicate CanStep(s: State, l: Label) {
    l.t < |s.threads| && Enabled(s.fs, s.threads[l.t], l.e)
  }

  function Step(s: State, l: Label): State
    requires CanStep(s, l)
  {
    var o := Section(s.fs, s.threads[l.t], l.e);
    State(o.fs, s.threads[l.t := o.pc], Record(s.h, s.fs, s.threads[l.t], l.e, o))
  }

  function Init(count: nat): State {
    State(Fs(false, false, None, None, None, None, map[], {}, None, [], map[]),
          seq(count, _ => Idle),
          Hist(map[], map[], map[], map[]))
  }

  /** State i + 1 of a run comes from state i by step i. */
  ghost predicate StepAt(states: seq<State>, labels: seq<Label>, i: nat)
    requires |states| == |labels| + 1 && i < |labels|
  {
    CanStep(states[i], labels[i]) && states[i + 1] == Step(states[i], labels[i])
  }

  /** A run: any number of threads, any interleaving of enabled steps. */
  ghost predicate IsRun(states: seq<State>, labels: seq<Label>) {
    && |states| == |labels| + 1
    && states[0] == Init(|states[0].threads|)
    && forall i {:trigger StepAt(states, labels, i)} :: 0 <= i < |labels| ==> StepAt(states, labels, i)
  }

  ghost predicate Reachable(s: State) {
    exists states, labels :: IsRun(states, labels) && states[|labels|] == s
  }
}
