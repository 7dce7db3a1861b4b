/** The invariant of the graph switch and its proof, section by section. */
module SwitchInvariant {
  import opened Options
  import opened GraphSwitch

  // ------------------------------------------------------ counting references

  function One(o: Option<Graph>, g: Graph): nat {
    if o == Some(g) then 1 else 0
  }

  /** How many of the four slots name the graph. */
  function Slots(fs: Fs, g: Graph): nat {
    One(fs.active, g) + One(fs.next, g) + One(fs.mip, g) + One(fs.oldSubvol, g)
  }

  /** Held: references to g that the thread still has to give back.
      Due: PARENT_DOWN events for g that the thread still has to deliver. */
  datatype Kind = Held | Due

  function Weigh(pc: Pc, kind: Kind, g: Graph): nat {
    match kind
    case Due => if pc.Down? && pc.dead == g then 1 else 0
    case Held =>
      match pc
      case Op(h) => One(Some(h), g)
      case ResolveFd(h, _, _) => One(Some(h), g)
      case CwdSet(h, _, _) => One(Some(h), g)
      case CwdGet(h) => One(Some(h), g)
      case ResolveInode(h, _, _) => One(Some(h), g)
      case Release(owed, held) => One(Some(owed), g) + One(held, g)
      case Down(_, held) => One(held, g)
      case _ => 0
  }

  function Total(threads: seq<Pc>, kind: Kind, g: Graph): nat {
    if threads == [] then 0 else Weigh(threads[0], kind, g) + Total(threads[1..], kind, g)
  }

  lemma {:induction false} TotalUpdate(threads: seq<Pc>, t: nat, pc: Pc, kind: Kind, g: Graph)
    requires t < |threads|
    ensures Total(threads[t := pc], kind, g) == Total(threads, kind, g) - Weigh(threads[t], kind, g) + Weigh(pc, kind, g)
  {
    if t > 0 {
      assert threads[t := pc][1..] == threads[1..][t - 1 := pc];
      TotalUpdate(threads[1..], t - 1, pc, kind, g);
    }
  }

  lemma {:induction false} TotalAtLeast(threads: seq<Pc>, t: nat, kind: Kind, g: Graph)
    requires t < |threads|
    ensures Total(threads, kind, g) >= Weigh(threads[t], kind, g)
  {
    if t > 0 {
      TotalAtLeast(threads[1..], t - 1, kind, g);
    }
  }

  lemma {:induction false} TotalIdle(threads: seq<Pc>, kind: Kind, g: Graph)
    requires forall t :: 0 <= t < |threads| ==> threads[t] == Idle
    ensures Total(threads, kind, g) == 0
  {
    if threads != [] {
      TotalIdle(threads[1..], kind, g);
    }
  }

  // ---------------------------------------------------------- the invariant

  predicate SlotsOk(fs: Fs) {
    && fs.oldSubvol.None?
    && (fs.active.Some? ==> fs.active != fs.next && fs.active != fs.mip)
    && (fs.next.Some? ==> fs.next != fs.mip)
    && (fs.active.Some? ==> fs.active.value !in fs.switched)
    && (fs.next.Some? ==> fs.next.value !in fs.switched)
    && (fs.mip.Some? ==> fs.mip.value !in fs.switched)
    && (fs.switched != {} ==> fs.active.Some?)
  }

  predicate CwdOk(fs: Fs) {
    fs.cwd.Some? ==> fs.active == Some(fs.cwd.value.graph)
  }

  predicate ListOk(fs: Fs) {
    && (forall i :: 0 <= i < |fs.openfds| ==> fs.openfds[i] in fs.glfds)
    && (forall i, j :: 0 <= i < j < |fs.openfds| ==> fs.openfds[i] != fs.openfds[j])
  }

  /** The thread waits for the network with migration_in_progress set. */
  predicate InSection(pc: Pc) {
    pc.FirstLookup? || pc.RefreshCwd? || pc.MigrateFd? || pc.CommitCwd? || pc.ResolveFd? || pc.CwdSet? || pc.CwdGet? || pc.ResolveInode?
  }

  predicate HeldLive(fs: Fs, held: Option<Graph>) {
    held.Some? ==> Live(fs, held.value)
  }

  /** What a thread may rely on when it gets the mutex back. */
  predicate ThreadOk(fs: Fs, pc: Pc) {
    match pc
    case Idle => true
    case Op(g) => Live(fs, g)
    case FirstLookup(n) => fs.mip == Some(n)
    case RefreshCwd(n, was) => fs.mip == Some(n) && fs.cwd == Some(was)
    case MigrateFd(n, newCwd, walk, k, from) =>
      && fs.mip == Some(n) && walk == fs.openfds && k < |walk| && from == FdOf(fs, walk[k])
      && (newCwd.Some? <==> fs.cwd.Some?)
      && (newCwd.Some? ==> newCwd.value == Inode(n, fs.cwd.value.gfid))
    case CommitCwd(_, _) => false
    case CwdGet(_) => false
    case ResolveFd(g, did, from) => Live(fs, g) && did in fs.glfds && fs.glfds[did] == from
    case CwdSet(g, on, _) => Live(fs, g) && on.Some? && fs.active == on
    case ResolveInode(g, on, _) => Live(fs, g) && on.Some? && fs.active == on
    case Release(_, held) => HeldLive(fs, held)
    case Down(_, held) => HeldLive(fs, held)
  }

  predicate FlagOk(fs: Fs, threads: seq<Pc>) {
    && (forall t :: 0 <= t < |threads| && InSection(threads[t]) ==> fs.migrating)
    && (forall t, u :: 0 <= t < u < |threads| ==> !(InSection(threads[t]) && InSection(threads[u])))
    && (fs.migrating ==> exists t :: 0 <= t < |threads| && InSection(threads[t]))
  }

  /** The thread has moved part of the descriptors to graph g already. */
  predicate Walking(pc: Pc, g: Graph) {
    pc.MigrateFd? && pc.n == g
  }

  ghost predicate FdsOk(fs: Fs, threads: seq<Pc>) {
    forall did :: did in fs.glfds ==>
      Live(fs, fs.glfds[did].inode.graph) ||
      exists t :: 0 <= t < |threads| && Walking(threads[t], fs.glfds[did].inode.graph)
  }

  /** winds is exactly the slots plus the held, owed and abandoned references. */
  predicate Balanced(s: State, g: Graph) {
    && At(s.h.abandoned, g) >= 0
    && At(s.fs.winds, g) == Slots(s.fs, g) + Total(s.threads, Held, g) + At(s.h.abandoned, g)
  }

  /** Every time the count reaches 0 one PARENT_DOWN becomes due; counts never
      exceed the arrivals. */
  predicate DownOk(s: State, g: Graph) {
    && At(s.h.sent, g) >= 0
    && At(s.h.zeros, g) == At(s.h.sent, g) + Total(s.threads, Due, g)
    && At(s.h.zeros, g) + (if At(s.fs.winds, g) > 0 then 1 else 0) <= At(s.h.accepted, g)
    && (At(s.h.accepted, g) == 0 || At(s.h.zeros, g) + (if At(s.fs.winds, g) > 0 then 1 else 0) >= 1)
  }

  ghost predicate Inv(s: State) {
    && SlotsOk(s.fs)
    && CwdOk(s.fs)
    && ListOk(s.fs)
    && FlagOk(s.fs, s.threads)
    && FdsOk(s.fs, s.threads)
    && (forall t :: 0 <= t < |s.threads| ==> ThreadOk(s.fs, s.threads[t]))
    && (forall g :: Balanced(s, g))
    && (forall g :: DownOk(s, g))
  }

  // ------------------------------------------- what one section does to `fs`

  /** References that are neither in a slot nor held by this thread. */
  function Rest(fs: Fs, pc: Pc, g: Graph): int {
    At(fs.winds, g) - Slots(fs, g) - Weigh(pc, Held, g)
  }

  /** A section started consistently ends consistently:
      slots, cwd, list and the thread's own program point; the flag is set on
      exit exactly when the thread goes on to the network or another thread had
      set it; graphs once active stay known as such; descriptors; accounting. */
  ghost predicate Good(fs: Fs, pc: Pc, e: Event, o: Outcome) {
    && SlotsOk(o.fs) && CwdOk(o.fs) && ListOk(o.fs) && ThreadOk(o.fs, o.pc)
    && (if InSection(pc) || !fs.migrating then o.fs.migrating == InSection(o.pc) else o.fs.migrating && !InSection(o.pc))
    && fs.switched <= o.fs.switched
    && HeldLive(o.fs, fs.active)
    && (forall did :: did in o.fs.glfds ==> FdGood(fs, pc, o, did))
    && (forall g :: Rest(o.fs, o.pc, g) == Rest(fs, pc, g) + (if Abandons(fs, e) then One(fs.mip, g) else 0))
  }

  /** A descriptor ends up where it was, or on the graph its thread migrates to,
      or on a graph that is or was active; one that existed before is unchanged
      or moved, with gfid and flags kept, to a graph that is not retired. */
  predicate FdGood(fs: Fs, pc: Pc, o: Outcome, did: Did)
    requires did in o.fs.glfds
  {
    var f := o.fs.glfds[did];
    var h := f.inode.graph;
    && (|| Live(o.fs, h)
        || Walking(o.pc, h)
        || (did in fs.glfds && fs.glfds[did] == f && !Walking(pc, h)))
    && (did in fs.glfds ==>
          fs.glfds[did] == f || (f == Moved(fs.glfds[did], h) && h !in o.fs.switched))
  }

  /** How the rest of a migration, from the descriptor walk on, may end. */
  ghost predicate WalkEnds(fs: Fs, o: Outcome, n: Graph) {
    && SlotsOk(o.fs) && CwdOk(o.fs) && ListOk(o.fs) && ThreadOk(o.fs, o.pc)
    && o.fs.migrating == InSection(o.pc)
    && fs.switched <= o.fs.switched && HeldLive(o.fs, fs.active)
    && o.fs.glfds == fs.glfds
    && (Live(o.fs, n) || Walking(o.pc, n)) && n !in o.fs.switched
    && forall g :: Rest(o.fs, o.pc, g) == At(fs.winds, g) - Slots(fs, g)
  }

  predicate WalkMay(fs: Fs, n: Graph, newCwd: Option<Inode>) {
    && SlotsOk(fs) && CwdOk(fs) && ListOk(fs) && !fs.migrating && fs.mip == Some(n)
    && (newCwd.Some? <==> fs.cwd.Some?)
    && (newCwd.Some? ==> newCwd.value == Inode(n, fs.cwd.value.gfid))
  }

  lemma {:induction false} CommitGood(fs: Fs, n: Graph, newCwd: Option<Inode>)
    requires WalkMay(fs, n, newCwd)
    ensures WalkEnds(fs, Commit(fs, n, newCwd), n)
  {
  }

  lemma {:induction false} PauseGood(fs: Fs, n: Graph, newCwd: Option<Inode>, k: nat)
    requires WalkMay(fs, n, newCwd) && k < |fs.openfds|
    ensures WalkEnds(fs, Outcome(fs.(migrating := true), MigrateFd(n, newCwd, fs.openfds, k, FdOf(fs, fs.openfds[k]))), n)
  {
  }

  lemma {:induction false} WalkGood(fs: Fs, n: Graph, newCwd: Option<Inode>, k: nat)
    requires WalkMay(fs, n, newCwd)
    ensures WalkEnds(fs, WalkFrom(fs, n, newCwd, k), n)
  {
    var o := WalkFrom(fs, n, newCwd, k);
    if o == Commit(fs, n, newCwd) {
      CommitGood(fs, n, newCwd);
    } else {
      PauseGood(fs, n, newCwd, o.pc.k);
    }
  }

  /** What every section may assume. */
  predicate Base(fs: Fs, pc: Pc) {
    SlotsOk(fs) && CwdOk(fs) && ListOk(fs) && ThreadOk(fs, pc)
  }

  lemma {:induction false} SetupGood(fs: Fs, g: Graph)
    requires Base(fs, Idle)
    ensures Good(fs, Idle, GraphUp(g), GraphSetup(fs, g))
  {
  }

  lemma {:induction false} StartGood(fs: Fs)
    requires Base(fs, Idle) && Unlocked(fs)
    ensures Good(fs, Idle, Start, StartOp(fs))
  {
  }

  /** A migration that goes on to its walk, with descriptors as in fs. */
  lemma {:induction false} EndsGood(fs: Fs, pc: Pc, e: Event, o: Outcome, n: Graph)
    requires (pc.FirstLookup? || pc.RefreshCwd?) && !e.Start? && WalkEnds(fs.(migrating := false), o, n)
    ensures Good(fs, pc, e, o)
  {
    forall did | did in o.fs.glfds
      ensures FdGood(fs, pc, o, did)
    {
      assert o.fs.glfds[did] == fs.glfds[did];
    }
    forall g
      ensures Rest(o.fs, o.pc, g) == Rest(fs, pc, g)
    {
      assert Slots(fs.(migrating := false), g) == Slots(fs, g);
    }
  }

  lemma {:induction false} LookupGood(fs: Fs, n: Graph, ok: bool)
    requires Base(fs, FirstLookup(n))
    ensures Good(fs, FirstLookup(n), LookupDone(ok), AfterLookup(fs, n, ok))
  {
    if ok && fs.cwd.None? {
      WalkGood(fs.(migrating := false), n, None, 0);
      EndsGood(fs, FirstLookup(n), LookupDone(ok), WalkFrom(fs.(migrating := false), n, None, 0), n);
    }
  }

  lemma {:induction false} CwdGood(fs: Fs, n: Graph, was: Inode, i: Option<Inode>)
    requires Base(fs, RefreshCwd(n, was)) && (i.Some? ==> i.value == Inode(n, was.gfid))
    ensures Good(fs, RefreshCwd(n, was), CwdRefreshed(i), AfterCwd(fs, n, i))
  {
    if i.Some? {
      WalkGood(fs.(migrating := false), n, i, 0);
      EndsGood(fs, RefreshCwd(n, was), CwdRefreshed(i), WalkFrom(fs.(migrating := false), n, i, 0), n);
    }
  }

  /** The descriptors once the answer for the current one has come. */
  function Answered(fs: Fs, pc: Pc, f: Option<Fd>): Fs
    requires pc.MigrateFd? && pc.k < |pc.walk|
  {
    var fs1 := fs.(migrating := false);
    if f.Some? then fs1.(glfds := fs1.glfds[pc.walk[pc.k] := f.value]) else fs1
  }

  lemma {:induction false} AnsweredGood(fs: Fs, pc: Pc, f: Option<Fd>, o: Outcome)
    requires Base(fs, pc) && pc.MigrateFd? && (f.Some? ==> f.value == Moved(pc.from, pc.n))
    requires WalkEnds(Answered(fs, pc, f), o, pc.n)
    ensures Good(fs, pc, FdMigrated(f), o)
  {
    forall did | did in o.fs.glfds
      ensures FdGood(fs, pc, o, did)
    {
      assert (did == pc.walk[pc.k] && f.Some?) || o.fs.glfds[did] == fs.glfds[did];
    }
    var fs2 := Answered(fs, pc, f);
    forall g
      ensures Rest(o.fs, o.pc, g) == Rest(fs, pc, g)
    {
      assert Slots(fs2, g) == Slots(fs, g) && fs2.winds == fs.winds;
    }
  }

  lemma {:induction false} FdStepGood(fs: Fs, pc: Pc, f: Option<Fd>)
    requires Base(fs, pc) && pc.MigrateFd? && (f.Some? ==> f.value == Moved(pc.from, pc.n))
    ensures Good(fs, pc, FdMigrated(f), AfterFd(fs, pc.n, pc.newCwd, pc.walk[pc.k], pc.k, f))
  {
    var fs2 := Answered(fs, pc, f);
    WalkGood(fs2, pc.n, pc.newCwd, pc.k + 1);
    AnsweredGood(fs, pc, f, WalkFrom(fs2, pc.n, pc.newCwd, pc.k + 1));
  }

  lemma {:induction false} DoneGood(fs: Fs, g: Graph)
    requires Base(fs, Op(g))
    ensures Good(fs, Op(g), Done, SubvolDone(fs, g, None))
  {
  }

  lemma {:induction false} ReleaseGood(fs: Fs, g: Graph, held: Option<Graph>)
    requires Base(fs, Release(g, held))
    ensures Good(fs, Release(g, held), ReleaseOwed, SubvolDone(fs, g, held))
  {
  }

  lemma {:induction false} ResolveGood(fs: Fs, g: Graph, did: Did)
    requires Base(fs, Op(g)) && Unlocked(fs) && did in fs.glfds
    ensures Good(fs, Op(g), ResolveStart(did), ResolveFdStart(fs, g, did))
  {
  }

  lemma {:induction false} ResolvedGood(fs: Fs, g: Graph, did: Did, from: Fd, f: Option<Fd>)
    requires Base(fs, ResolveFd(g, did, from)) && (f.Some? ==> f.value == Moved(from, g))
    ensures Good(fs, ResolveFd(g, did, from), Resolved(f), AfterResolve(fs, g, did, f))
  {
  }

  lemma {:induction false} BindGood(fs: Fs, g: Graph, did: Did, fd: Fd)
    requires Base(fs, Op(g)) && Enabled(fs, Op(g), Bind(did, fd))
    ensures Good(fs, Op(g), Bind(did, fd), Section(fs, Op(g), Bind(did, fd)))
  {
  }

  lemma {:induction false} WithoutOk(s: seq<Did>, did: Did)
    ensures forall i :: 0 <= i < |Without(s, did)| ==> Without(s, did)[i] in s && Without(s, did)[i] != did
    ensures (forall i, j :: 0 <= i < j < |s| ==> s[i] != s[j]) ==>
              forall i, j :: 0 <= i < j < |Without(s, did)| ==> Without(s, did)[i] != Without(s, did)[j]
  {
    if s != [] {
      WithoutOk(s[1..], did);
    }
  }

  lemma {:induction false} DestroyGood(fs: Fs, pc: Pc, did: Did)
    requires Base(fs, pc) && Enabled(fs, pc, Destroy(did))
    ensures Good(fs, pc, Destroy(did), Section(fs, pc, Destroy(did)))
  {
    WithoutOk(fs.openfds, did);
  }

  lemma {:induction false} ChdirGood(fs: Fs, g: Graph, inode: Inode)
    requires Base(fs, Op(g)) && Unlocked(fs)
    ensures Good(fs, Op(g), Chdir(inode), CwdSetStart(fs, g, inode))
  {
  }

  lemma {:induction false} ChdirDoneGood(fs: Fs, pc: Pc, i: Option<Inode>)
    requires Base(fs, pc) && Enabled(fs, pc, ChdirDone(i))
    ensures Good(fs, pc, ChdirDone(i), AfterCwdSet(fs, pc.g, i))
  {
  }

  lemma {:induction false} HandleGood(fs: Fs, g: Graph, inode: Inode, stale: bool)
    requires Base(fs, Op(g)) && Unlocked(fs)
    ensures Good(fs, Op(g), HandleStart(inode, stale), ResolveInodeStart(fs, g, inode, stale))
  {
  }

  lemma {:induction false} HandleDoneGood(fs: Fs, pc: Pc, i: Option<Inode>)
    requires Base(fs, pc) && pc.ResolveInode?
    ensures Good(fs, pc, HandleResolved(i), Outcome(fs.(migrating := false), Op(pc.g)))
  {
  }

  lemma {:induction false} PlainGood(fs: Fs, pc: Pc, e: Event)
    requires Base(fs, pc) && Enabled(fs, pc, e)
    requires e.InitDone? || e.SendDown? || e.GetCwd?
    ensures Good(fs, pc, e, Section(fs, pc, e))
  {
  }

  lemma {:induction false} SectionGood(fs: Fs, pc: Pc, e: Event)
    requires Base(fs, pc) && Enabled(fs, pc, e)
    ensures Good(fs, pc, e, Section(fs, pc, e))
  {
    match e
    case GraphUp(g) => SetupGood(fs, g);
    case Start => StartGood(fs);
    case LookupDone(ok) => LookupGood(fs, pc.n, ok);
    case CwdRefreshed(i) => CwdGood(fs, pc.n, pc.was, i);
    case FdMigrated(f) => FdStepGood(fs, pc, f);
    case Done => DoneGood(fs, pc.g);
    case ReleaseOwed => ReleaseGood(fs, pc.owed, pc.held);
    case ResolveStart(did) => ResolveGood(fs, pc.g, did);
    case Resolved(f) => ResolvedGood(fs, pc.g, pc.did, pc.from, f);
    case Bind(did, fd) => BindGood(fs, pc.g, did, fd);
    case Destroy(did) => DestroyGood(fs, pc, did);
    case Chdir(inode) => ChdirGood(fs, pc.g, inode);
    case ChdirDone(i) => ChdirDoneGood(fs, pc, i);
    case HandleStart(inode, stale) => HandleGood(fs, pc.g, inode, stale);
    case HandleResolved(i) => HandleDoneGood(fs, pc, i);
    case CommitCwdDone(_) =>
    case CwdGot =>
    case _ => PlainGood(fs, pc, e);
  }

  predicate Zeroes(e: Event, o: Outcome, g: Graph) {
    (e.Done? || e.ReleaseOwed?) && o.pc.Down? && o.pc.dead == g
  }

  predicate Arrives(fs: Fs, e: Event, g: Graph) {
    e == GraphUp(g) && Accepts(fs, g)
  }

  /** How the count of g moves: only an arrival makes it positive, only a
      release that finds it at 1 makes it 0, and only the active graph can be
      retired, while it is still referenced. */
  ghost predicate Counts(fs: Fs, pc: Pc, e: Event, o: Outcome, g: Graph) {
    var w, w' := At(fs.winds, g), At(o.fs.winds, g);
    && (if Arrives(fs, e, g) then w' == w + 1 && g !in fs.switched
        else if Zeroes(e, o, g) then w == 1 && w' == 0
        else w' > 0 <==> w > 0)
    && (g in fs.switched ==> w' <= w)
    && (g in o.fs.switched && g !in fs.switched ==> fs.active == Some(g) && w' > 0 && !e.GraphUp? && !Zeroes(e, o, g))
    && (pc.Down? ==> e.SendDown?)
    && (o.pc.Down? ==> e.Done? || e.ReleaseOwed?)
  }

  lemma {:induction false} WalkCounts(fs: Fs, n: Graph, newCwd: Option<Inode>, k: nat, g: Graph)
    requires SlotsOk(fs) && fs.mip == Some(n) && At(fs.winds, g) >= Slots(fs, g)
    ensures var o := WalkFrom(fs, n, newCwd, k);
            && (At(o.fs.winds, g) > 0 <==> At(fs.winds, g) > 0)
            && (g in fs.switched ==> At(o.fs.winds, g) == At(fs.winds, g))
            && (g in o.fs.switched && g !in fs.switched ==> fs.active == Some(g) && At(o.fs.winds, g) > 0)
            && !o.pc.Down?
  {
  }

  lemma {:induction false} LookupCounts(fs: Fs, n: Graph, ok: bool, g: Graph)
    requires Base(fs, FirstLookup(n)) && At(fs.winds, g) >= Slots(fs, g)
    ensures Counts(fs, FirstLookup(n), LookupDone(ok), AfterLookup(fs, n, ok), g)
  {
    WalkCounts(fs.(migrating := false), n, None, 0, g);
  }

  lemma {:induction false} CwdCounts(fs: Fs, pc: Pc, i: Option<Inode>, g: Graph)
    requires Base(fs, pc) && pc.RefreshCwd? && At(fs.winds, g) >= Slots(fs, g)
    ensures Counts(fs, pc, CwdRefreshed(i), AfterCwd(fs, pc.n, i), g)
  {
    WalkCounts(fs.(migrating := false), pc.n, i, 0, g);
  }

  lemma {:induction false} FdCounts(fs: Fs, pc: Pc, f: Option<Fd>, g: Graph)
    requires Base(fs, pc) && pc.MigrateFd? && At(fs.winds, g) >= Slots(fs, g)
    ensures Counts(fs, pc, FdMigrated(f), AfterFd(fs, pc.n, pc.newCwd, pc.walk[pc.k], pc.k, f), g)
  {
    var fs1 := fs.(migrating := false);
    var fs2 := if f.Some? then fs1.(glfds := fs1.glfds[pc.walk[pc.k] := f.value]) else fs1;
    WalkCounts(fs2, pc.n, pc.newCwd, pc.k + 1, g);
  }

  lemma {:induction false} SectionCounts(fs: Fs, pc: Pc, e: Event, g: Graph)
    requires Base(fs, pc) && Enabled(fs, pc, e) && At(fs.winds, g) >= Slots(fs, g) + Weigh(pc, Held, g)
    ensures Counts(fs, pc, e, Section(fs, pc, e), g)
  {
    match e
    case LookupDone(ok) => LookupCounts(fs, pc.n, ok, g);
    case CwdRefreshed(i) => CwdCounts(fs, pc, i, g);
    case FdMigrated(f) => FdCounts(fs, pc, f, g);
    case GraphUp(_) =>
    case Start =>
    case Done =>
    case ReleaseOwed =>
    case _ =>
  }

  /** The logical lock: while somebody else has the flag set, a section leaves
      everything a migration depends on alone. */
  lemma {:induction false} SectionFrame(fs: Fs, pc: Pc, e: Event)
    requires Enabled(fs, pc, e) && fs.migrating && !InSection(pc)
    ensures var o := Section(fs, pc, e);
            o.fs == fs.(init := o.fs.init, next := o.fs.next, winds := o.fs.winds)
  {
  }
}
