/** What holds in every state of every run of the graph switch. */
module SwitchRuns {
  import opened Options
  import opened GraphSwitch
  import opened SwitchInvariant
  import opened SwitchCarried

  // ------------------------------------------------- one step keeps the invariant

  lemma {:induction false} StepFlag(s: State, l: Label)
    requires Inv(s) && CanStep(s, l)
    ensures FlagOk(Step(s, l).fs, Step(s, l).threads)
  {
    var pc := s.threads[l.t];
    var s' := Step(s, l);
    SectionGood(s.fs, pc, l.e);
    if s'.fs.migrating && !InSection(s'.threads[l.t]) {
      var u :| 0 <= u < |s.threads| && InSection(s.threads[u]);
      assert s'.threads[u] == s.threads[u];
    }
  }

  lemma {:induction false} StepThreads(s: State, l: Label, u: nat)
    requires Inv(s) && CanStep(s, l) && u < |s.threads|
    ensures ThreadOk(Step(s, l).fs, Step(s, l).threads[u])
  {
    var pc := s.threads[l.t];
    SectionGood(s.fs, pc, l.e);
    if u != l.t && InSection(s.threads[u]) {
      SectionFrame(s.fs, pc, l.e);
    }
  }

  lemma {:induction false} StepFds(s: State, l: Label)
    requires Inv(s) && CanStep(s, l)
    ensures FdsOk(Step(s, l).fs, Step(s, l).threads)
  {
    var pc := s.threads[l.t];
    var s' := Step(s, l);
    SectionGood(s.fs, pc, l.e);
    forall did | did in s'.fs.glfds
      ensures Live(s'.fs, s'.fs.glfds[did].inode.graph) ||
              exists t :: 0 <= t < |s'.threads| && Walking(s'.threads[t], s'.fs.glfds[did].inode.graph)
    {
      var h := s'.fs.glfds[did].inode.graph;
      assert FdGood(s.fs, pc, Section(s.fs, pc, l.e), did);
      if !Live(s'.fs, h) {
        if Walking(s'.threads[l.t], h) {
        } else {
          assert !Live(s.fs, h);
          var t :| 0 <= t < |s.threads| && Walking(s.threads[t], h);
          assert Walking(s'.threads[t], h);
        }
      }
    }
  }

  lemma {:induction false} StepBalance(s: State, l: Label, g: Graph)
    requires Inv(s) && CanStep(s, l)
    ensures Balanced(Step(s, l), g)
  {
    var pc := s.threads[l.t];
    var o := Section(s.fs, pc, l.e);
    SectionGood(s.fs, pc, l.e);
    TotalUpdate(s.threads, l.t, o.pc, Held, g);
    assert Balanced(s, g);
    assert Rest(o.fs, o.pc, g) == Rest(s.fs, pc, g) + (if Abandons(s.fs, l.e) then One(s.fs.mip, g) else 0);
  }

  /** How the history counters follow the count, whatever the section did. */
  lemma {:induction false} RecordCounts(h: Hist, fs: Fs, pc: Pc, e: Event, o: Outcome, g: Graph)
    requires Counts(fs, pc, e, o, g)
    requires e.SendDown? ==> pc.Down?
    ensures var h' := Record(h, fs, pc, e, o);
            && At(h'.zeros, g) == At(h.zeros, g) + (if Zeroes(e, o, g) then 1 else 0)
            && At(h'.accepted, g) == At(h.accepted, g) + (if Arrives(fs, e, g) then 1 else 0)
            && At(h'.sent, g) == At(h.sent, g) + Weigh(pc, Due, g)
            && Weigh(o.pc, Due, g) == (if Zeroes(e, o, g) then 1 else 0)
  {
  }

  lemma {:induction false} DownKept(s: State, t: nat, e: Event, o: Outcome, g: Graph)
    requires t < |s.threads| && Balanced(s, g) && DownOk(s, g)
    requires Counts(s.fs, s.threads[t], e, o, g) && At(o.fs.winds, g) >= 0 && (e.SendDown? ==> s.threads[t].Down?)
    ensures DownOk(State(o.fs, s.threads[t := o.pc], Record(s.h, s.fs, s.threads[t], e, o)), g)
  {
    RecordCounts(s.h, s.fs, s.threads[t], e, o, g);
    TotalUpdate(s.threads, t, o.pc, Due, g);
  }

  lemma {:induction false} StepDown(s: State, l: Label, g: Graph)
    requires Inv(s) && CanStep(s, l)
    ensures DownOk(Step(s, l), g)
  {
    var pc := s.threads[l.t];
    assert Balanced(s, g) && DownOk(s, g);
    TotalAtLeast(s.threads, l.t, Held, g);
    StepBalance(s, l, g);
    SectionCounts(s.fs, pc, l.e, g);
    DownKept(s, l.t, l.e, Section(s.fs, pc, l.e), g);
  }

  lemma {:induction false} StepInv(s: State, l: Label)
    requires Inv(s) && CanStep(s, l)
    ensures Inv(Step(s, l))
  {
    SectionGood(s.fs, s.threads[l.t], l.e);
    StepFlag(s, l);
    StepFds(s, l);
    forall u | 0 <= u < |s.threads| ensures ThreadOk(Step(s, l).fs, Step(s, l).threads[u]) {
      StepThreads(s, l, u);
    }
    forall g ensures Balanced(Step(s, l), g) && DownOk(Step(s, l), g) {
      StepBalance(s, l, g);
      StepDown(s, l, g);
    }
  }

  lemma {:induction false} InitInv(count: nat)
    ensures Inv(Init(count))
  {
    forall g ensures Balanced(Init(count), g) && DownOk(Init(count), g) {
      TotalIdle(Init(count).threads, Held, g);
      TotalIdle(Init(count).threads, Due, g);
    }
  }

  /** The invariant holds throughout every run. */
  lemma {:induction false} RunInv(states: seq<State>, labels: seq<Label>, i: nat)
    requires IsRun(states, labels) && i < |states|
    ensures Inv(states[i])
  {
    if i == 0 {
      InitInv(|states[0].threads|);
    } else {
      RunInv(states, labels, i - 1);
      assert StepAt(states, labels, i - 1);
      StepInv(states[i - 1], labels[i - 1]);
    }
  }

  lemma {:induction false} ReachableInv(s: State)
    requires Reachable(s)
    ensures Inv(s)
  {
    var states, labels :| IsRun(states, labels) && states[|labels|] == s;
    RunInv(states, labels, |labels|);
  }

  lemma {:induction false} RunStep(states: seq<State>, labels: seq<Label>, i: nat)
    requires IsRun(states, labels) && i < |labels|
    ensures Inv(states[i]) && CanStep(states[i], labels[i]) && states[i + 1] == Step(states[i], labels[i]) && Inv(states[i + 1])
  {
    RunInv(states, labels, i);
    assert StepAt(states, labels, i);
    StepInv(states[i], labels[i]);
  }

  // ------------------------------------------------------------- reference counts

  /** Every count is the slots plus the held and owed references plus the ones
      lost with an abandoned migration; it never goes below zero; no graph is in
      two slots. */
  lemma {:induction false} Accounting(s: State, g: Graph)
    requires Reachable(s)
    ensures At(s.fs.winds, g) == Slots(s.fs, g) + Total(s.threads, Held, g) + At(s.h.abandoned, g)
    ensures At(s.fs.winds, g) >= 0 && Slots(s.fs, g) <= 1
  {
    ReachableInv(s);
    assert Balanced(s, g);
  }

  /** The assertion in priv_glfs_subvol_done cannot fail: a release that brings
      the count to 0 is never a release of the active graph. */
  lemma {:induction false} AssertionHolds(s: State, l: Label)
    requires Reachable(s) && CanStep(s, l) && (l.e.Done? || l.e.ReleaseOwed?)
    requires Step(s, l).threads[l.t].Down?
    ensures var g := Step(s, l).threads[l.t].dead;
            && At(Step(s, l).fs.winds, g) == 0
            && Slots(Step(s, l).fs, g) == 0 && s.fs.active != Some(g)
            && Total(Step(s, l).threads, Held, g) == 0
  {
    ReachableInv(s);
    StepInv(s, l);
    assert Balanced(Step(s, l), Step(s, l).threads[l.t].dead);
  }

  // -------------------------------------------------------------- the logical lock

  /** What a migration relies on besides the mutex. */
  predicate SameView(a: Fs, b: Fs) {
    && a.active == b.active && a.mip == b.mip && a.cwd == b.cwd
    && a.openfds == b.openfds && a.glfds == b.glfds && a.switched == b.switched
  }

  /** From one mutex drop of thread t to its return, whatever the others do, the
      flag stays set and nothing the thread relies on changes. */
  lemma {:induction false} LogicalLock(states: seq<State>, labels: seq<Label>, t: nat, i: nat, j: nat)
    requires IsRun(states, labels) && i <= j < |states| && t < |states[i].threads|
    requires InSection(states[i].threads[t])
    requires forall m :: i <= m < j ==> labels[m].t != t
    ensures t < |states[j].threads| && states[j].threads[t] == states[i].threads[t]
    ensures states[j].fs.migrating && SameView(states[i].fs, states[j].fs)
  {
    if i == j {
      RunInv(states, labels, i);
    } else {
      LogicalLock(states, labels, t, i, j - 1);
      RunStep(states, labels, j - 1);
      var s, l := states[j - 1], labels[j - 1];
      assert !InSection(s.threads[l.t]);
      SectionFrame(s.fs, s.threads[l.t], l.e);
    }
  }

  /** The graph a thread is migrating to. */
  function Target(pc: Pc): Option<Graph> {
    if pc.FirstLookup? || pc.RefreshCwd? || pc.MigrateFd? then Some(pc.n) else None
  }

  /** The answers that end a migration without a switch. */
  predicate GivesUp(e: Event) {
    e == LookupDone(false) || e == CwdRefreshed(None)
  }

  /** Where a switch from `was` to n leaves its thread: holding n, with the reference of
      the graph it replaced to give back. */
  function Switched(was: Option<Graph>, n: Graph): Pc {
    if was.Some? then Release(was.value, Some(n)) else Op(n)
  }

  /** The ways a migration can go on: to the next network call with everything
      in place, to a failure that leaves the old graph in charge, or to the
      switch to the graph picked at the start, with the same working directory. */
  predicate MigrationStep(fs: Fs, o: Outcome, n: Graph) {
    || (Target(o.pc) == Some(n) && o.fs == fs.(glfds := o.fs.glfds))
    || (o.pc == Idle && o.fs == fs.(migrating := false))
    || (&& o.pc == Switched(fs.active, n)
        && o.fs.active == Some(n) && o.fs.mip.None? && !o.fs.migrating
        && o.fs.openfds == fs.openfds && o.fs.next == fs.next
        && o.fs.switched == fs.switched + (if fs.active.Some? then {fs.active.value} else {})
        && o.fs.cwd == (if fs.cwd.Some? then Some(Inode(n, fs.cwd.value.gfid)) else None))
  }

  lemma {:induction false} WalkOutcome(fs: Fs, newCwd: Option<Inode>, k: nat, n: Graph)
    requires SlotsOk(fs) && !fs.migrating && fs.mip == Some(n)
    requires newCwd == if fs.cwd.Some? then Some(Inode(n, fs.cwd.value.gfid)) else None
    ensures MigrationStep(fs.(migrating := true), WalkFrom(fs, n, newCwd, k), n) && WalkFrom(fs, n, newCwd, k).pc != Idle
  {
  }

  lemma {:induction false} LookupMigrates(fs: Fs, n: Graph, ok: bool)
    requires Base(fs, FirstLookup(n)) && fs.migrating
    ensures MigrationStep(fs, AfterLookup(fs, n, ok), n) && (AfterLookup(fs, n, ok).pc == Idle <==> !ok)
  {
    if ok && fs.cwd.None? {
      WalkOutcome(fs.(migrating := false), None, 0, n);
    }
  }

  lemma {:induction false} CwdMigrates(fs: Fs, n: Graph, was: Inode, i: Option<Inode>)
    requires Base(fs, RefreshCwd(n, was)) && fs.migrating && (i.Some? ==> i.value == Inode(n, was.gfid))
    ensures MigrationStep(fs, AfterCwd(fs, n, i), n) && (AfterCwd(fs, n, i).pc == Idle <==> i.None?)
  {
    if i.Some? {
      WalkOutcome(fs.(migrating := false), i, 0, n);
    }
  }

  lemma {:induction false} FdMigrates(fs: Fs, pc: Pc, f: Option<Fd>)
    requires Base(fs, pc) && pc.MigrateFd? && fs.migrating
    ensures var o := AfterFd(fs, pc.n, pc.newCwd, pc.walk[pc.k], pc.k, f); MigrationStep(fs, o, pc.n) && o.pc != Idle
  {
    WalkOutcome(Answered(fs, pc, f), pc.newCwd, pc.k + 1, pc.n);
  }

  lemma {:induction false} MigrationSection(fs: Fs, pc: Pc, e: Event)
    requires Base(fs, pc) && Enabled(fs, pc, e) && fs.migrating && Target(pc).Some?
    ensures MigrationStep(fs, Section(fs, pc, e), pc.n) && (Section(fs, pc, e).pc == Idle <==> GivesUp(e))
  {
    match e
    case LookupDone(ok) => LookupMigrates(fs, pc.n, ok);
    case CwdRefreshed(i) => CwdMigrates(fs, pc.n, pc.was, i);
    case FdMigrated(f) => FdMigrates(fs, pc, f);
  }

  /** While thread t migrates, through all its network calls, the graph it picked,
      the active graph, the working directory and the list of open descriptors
      stay as they were. */
  lemma {:induction false} MigrationFrozen(states: seq<State>, labels: seq<Label>, t: nat, i: nat, j: nat)
    requires IsRun(states, labels) && i <= j < |states|
    requires forall m :: i <= m <= j ==> t < |states[m].threads| && Target(states[m].threads[t]).Some?
    ensures Target(states[j].threads[t]) == Target(states[i].threads[t]) == states[j].fs.mip == states[i].fs.mip
    ensures var a, b := states[i].fs, states[j].fs;
            a.active == b.active && a.cwd == b.cwd && a.openfds == b.openfds && a.switched == b.switched
  {
    if i == j {
      RunMigrating(states, labels, t, i);
    } else {
      MigrationFrozen(states, labels, t, i, j - 1);
      RunFrozen(states, labels, t, j - 1);
    }
  }

  lemma {:induction false} RunMigrating(states: seq<State>, labels: seq<Label>, t: nat, i: nat)
    requires IsRun(states, labels) && i < |states| && t < |states[i].threads| && Target(states[i].threads[t]).Some?
    ensures Target(states[i].threads[t]) == states[i].fs.mip
  {
    RunInv(states, labels, i);
    WhileMigrating(states[i], t);
  }

  lemma {:induction false} RunFrozen(states: seq<State>, labels: seq<Label>, t: nat, i: nat)
    requires IsRun(states, labels) && i < |labels| && t < |states[i].threads| && t < |states[i + 1].threads|
    requires Target(states[i].threads[t]).Some? && Target(states[i + 1].threads[t]).Some?
    ensures var a, b := states[i].fs, states[i + 1].fs;
            && Target(states[i + 1].threads[t]) == Target(states[i].threads[t]) && a.mip == b.mip
            && a.active == b.active && a.cwd == b.cwd && a.openfds == b.openfds && a.switched == b.switched
  {
    RunStep(states, labels, i);
    FrozenStep(states[i], labels[i], t);
  }

  lemma {:induction false} FrozenStep(s: State, l: Label, t: nat)
    requires Inv(s) && CanStep(s, l) && t < |s.threads| && Target(s.threads[t]).Some? && Target(Step(s, l).threads[t]).Some?
    ensures var a, b := s.fs, Step(s, l).fs;
            && Target(Step(s, l).threads[t]) == Target(s.threads[t]) && a.mip == b.mip
            && a.active == b.active && a.cwd == b.cwd && a.openfds == b.openfds && a.switched == b.switched
  {
    if l.t == t {
      MigratesOn(s, l);
    } else {
      assert !InSection(s.threads[l.t]);
      SectionFrame(s.fs, s.threads[l.t], l.e);
    }
  }

  /** The descriptor for which this step reports a failure to thread t. */
  function FailedBy(s: State, l: Label, t: nat): set<Did> {
    if l.t == t && t < |s.threads| then Missed(s.threads[t], l.e) else {}
  }

  /** The descriptors that thread t could not migrate in steps i to j - 1. */
  ghost function Failed(states: seq<State>, labels: seq<Label>, t: nat, i: nat, j: nat): set<Did>
    requires j <= |labels| < |states|
  {
    if i >= j then {} else Failed(states, labels, t, i, j - 1) + FailedBy(states[j - 1], labels[j - 1], t)
  }

  lemma {:induction false} FailedMeans(states: seq<State>, labels: seq<Label>, t: nat, i: nat, j: nat, did: Did)
    requires j <= |labels| < |states|
    ensures did in Failed(states, labels, t, i, j) <==> exists m :: i <= m < j && did in FailedBy(states[m], labels[m], t)
  {
    if i < j {
      FailedMeans(states, labels, t, i, j - 1, did);
      assert did in FailedBy(states[j - 1], labels[j - 1], t) ==> i <= j - 1 < j;
    }
  }

  lemma {:induction false} OwnStep(a: Fs, s: State, l: Label, failed: set<Did>)
    requires Inv(s) && CanStep(s, l) && ListOk(a) && Target(s.threads[l.t]).Some?
    requires Carrying(a, s.fs, s.threads[l.t], s.threads[l.t].n, failed)
    ensures Continues(a, Section(s.fs, s.threads[l.t], l.e), s.threads[l.t].n, failed + FailedBy(s, l, l.t))
    ensures Section(s.fs, s.threads[l.t], l.e) == Outcome(Step(s, l).fs, Step(s, l).threads[l.t])
  {
    assert ThreadOk(s.fs, s.threads[l.t]);
    SectionCarries(a, s.fs, s.threads[l.t], l.e, s.threads[l.t].n, failed);
  }

  lemma {:induction false} OtherStep(a: Fs, s: State, l: Label, t: nat, n: Graph, failed: set<Did>)
    requires Inv(s) && CanStep(s, l) && t < |s.threads| && l.t != t && Carrying(a, s.fs, s.threads[t], n, failed)
    ensures Carrying(a, Step(s, l).fs, Step(s, l).threads[t], n, failed)
  {
    assert !InSection(s.threads[l.t]);
    SectionFrame(s.fs, s.threads[l.t], l.e);
  }

  lemma {:induction false} MigratesOn(s: State, l: Label)
    requires Inv(s) && CanStep(s, l) && Target(s.threads[l.t]).Some?
    ensures MigrationStep(s.fs, Outcome(Step(s, l).fs, Step(s, l).threads[l.t]), s.threads[l.t].n)
    ensures Step(s, l).threads[l.t] == Idle <==> GivesUp(l.e)
  {
    WhileMigrating(s, l.t);
    MigrationSection(s.fs, s.threads[l.t], l.e);
  }

  lemma {:induction false} WhileMigrating(s: State, t: nat)
    requires Inv(s) && t < |s.threads| && Target(s.threads[t]).Some?
    ensures Base(s.fs, s.threads[t]) && s.fs.migrating && Target(s.threads[t]) == s.fs.mip
  {
    assert ThreadOk(s.fs, s.threads[t]) && InSection(s.threads[t]);
  }

  lemma {:induction false} CarriesOn(a: Fs, s: State, l: Label, t: nat, n: Graph, failed: set<Did>)
    requires Inv(s) && CanStep(s, l) && ListOk(a) && t < |s.threads| && Carrying(a, s.fs, s.threads[t], n, failed)
    requires Target(Step(s, l).threads[t]).Some?
    ensures Carrying(a, Step(s, l).fs, Step(s, l).threads[t], n, failed + FailedBy(s, l, t))
  {
    if l.t == t {
      OwnStep(a, s, l, failed);
      MigratesOn(s, l);
    } else {
      OtherStep(a, s, l, t, n, failed);
      assert failed + FailedBy(s, l, t) == failed;
    }
  }

  /** Through all network calls of a migration that starts at state i. */
  lemma {:induction false} RunCarries(states: seq<State>, labels: seq<Label>, t: nat, i: nat, j: nat)
    requires IsRun(states, labels) && i <= j < |states|
    requires forall m :: i <= m <= j ==> t < |states[m].threads| && Target(states[m].threads[t]).Some?
    requires states[i].threads[t].FirstLookup?
    ensures Carrying(states[i].fs, states[j].fs, states[j].threads[t], states[i].threads[t].n, Failed(states, labels, t, i, j))
  {
    if i < j {
      RunCarries(states, labels, t, i, j - 1);
      RunCarriesOn(states, labels, t, i, j - 1, states[i].threads[t].n, Failed(states, labels, t, i, j - 1));
    }
  }

  lemma {:induction false} RunCarriesOn(states: seq<State>, labels: seq<Label>, t: nat, i: nat, j: nat, n: Graph, failed: set<Did>)
    requires IsRun(states, labels) && i <= j < |labels| && t < |states[j].threads| && t < |states[j + 1].threads|
    requires Carrying(states[i].fs, states[j].fs, states[j].threads[t], n, failed) && Target(states[j + 1].threads[t]).Some?
    ensures Carrying(states[i].fs, states[j + 1].fs, states[j + 1].threads[t], n, failed + FailedBy(states[j], labels[j], t))
  {
    RunInv(states, labels, i);
    RunStep(states, labels, j);
    CarriesOn(states[i].fs, states[j], labels[j], t, n, failed);
  }

  lemma {:induction false} PickedAt(states: seq<State>, labels: seq<Label>, t: nat, i: nat)
    requires IsRun(states, labels) && i < |labels| && labels[i] == Label(t, Start) && t < |states[i + 1].threads|
    requires Target(states[i + 1].threads[t]).Some?
    ensures var a, b := states[i].fs, states[i + 1].fs;
            a.next.Some? && states[i + 1].threads[t] == FirstLookup(a.next.value) && b == a.(mip := a.next, next := None, migrating := true)
  {
    RunStep(states, labels, i);
  }

  /** What a migration that started at step i and ends at step j did to descriptors. */
  lemma {:induction false} CommittedDescriptors(states: seq<State>, labels: seq<Label>, t: nat, i: nat, j: nat)
    requires IsRun(states, labels) && i < j < |labels| && labels[i] == Label(t, Start) && labels[j].t == t
    requires forall m :: i < m <= j ==> t < |states[m].threads| && Target(states[m].threads[t]).Some?
    requires t < |states[j + 1].threads| && Target(states[j + 1].threads[t]).None?
    ensures states[i].fs.next.Some?
    ensures var a, b := states[i].fs, states[j + 1].fs;
            if states[j + 1].threads[t] == Idle then b.glfds == a.glfds
            else Carried(a, b, a.next.value, Failed(states, labels, t, i + 1, j + 1))
  {
    assert Target(states[i + 1].threads[t]).Some?;
    PickedAt(states, labels, t, i);
    RunCarries(states, labels, t, i + 1, j);
    RunInv(states, labels, i + 1);
    RunStep(states, labels, j);
    var failed := Failed(states, labels, t, i + 1, j);
    OwnStep(states[i + 1].fs, states[j], labels[j], failed);
    var a, b, n := states[i].fs, states[j + 1].fs, states[j].threads[t].n;
    if states[j + 1].threads[t] == Idle {
      SameDescriptors(a, states[i + 1].fs, b, n, 0, {});
    } else {
      SameDescriptors(a, states[i + 1].fs, b, n, |a.openfds|, Failed(states, labels, t, i + 1, j + 1));
    }
  }

  /** The graph committed is exactly the one picked at the start, and everything is as if
      the migration had run in one piece: every descriptor of the list that has a gfid is
      on the new graph, except those for which a network call failed, and every other
      one is as it was, and the operation holds the new graph.  An attempt fails exactly
      if the first lookup or the refresh of the working directory does; it leaves
      everything but the pending graph as it was. */
  lemma {:induction false} CommittedIsPicked(states: seq<State>, labels: seq<Label>, t: nat, i: nat, j: nat)
    requires IsRun(states, labels) && i < j < |labels|
    requires labels[i] == Label(t, Start) && labels[j].t == t
    requires forall m :: i < m <= j ==> t < |states[m].threads| && Target(states[m].threads[t]).Some?
    requires t < |states[j + 1].threads| && Target(states[j + 1].threads[t]).None?
    ensures states[i].fs.next.Some?
    ensures var a, b := states[i].fs, states[j + 1].fs;
            || (&& GivesUp(labels[j].e) && states[j + 1].threads[t] == Idle
                && b.active == a.active && b.cwd == a.cwd && b.openfds == a.openfds
                && b.glfds == a.glfds && b.switched == a.switched && b.mip == a.next)
            || (&& !GivesUp(labels[j].e) && states[j + 1].threads[t] == Switched(a.active, a.next.value)
                && b.active == a.next && b.mip.None? && b.openfds == a.openfds
                && Carried(a, b, a.next.value, Failed(states, labels, t, i + 1, j + 1))
                && b.switched == a.switched + (if a.active.Some? then {a.active.value} else {})
                && b.cwd == (if a.cwd.Some? then Some(Inode(a.next.value, a.cwd.value.gfid)) else None))
  {
    assert Target(states[i + 1].threads[t]).Some?;
    PickedAt(states, labels, t, i);
    MigrationFrozen(states, labels, t, i + 1, j);
    LastSection(states, labels, t, j);
    CommittedDescriptors(states, labels, t, i, j);
  }

  lemma {:induction false} LastSection(states: seq<State>, labels: seq<Label>, t: nat, j: nat)
    requires IsRun(states, labels) && j < |labels| && labels[j].t == t && t < |states[j].threads| && t < |states[j + 1].threads|
    requires Target(states[j].threads[t]).Some?
    ensures MigrationStep(states[j].fs, Outcome(states[j + 1].fs, states[j + 1].threads[t]), states[j].threads[t].n)
    ensures states[j + 1].threads[t] == Idle <==> GivesUp(labels[j].e)
  {
    RunStep(states, labels, j);
    MigratesOn(states[j], labels[j]);
  }

  // ------------------------------------------------------------------ descriptors

  /** A descriptor refers to the same file with the same flags for as long as it
      exists, through any number of graph switches. */
  lemma {:induction false} DescriptorKeepsFile(states: seq<State>, labels: seq<Label>, did: Did, i: nat, j: nat)
    requires IsRun(states, labels) && i <= j < |states|
    requires forall m :: i <= m <= j ==> did in states[m].fs.glfds
    ensures states[j].fs.glfds[did] == Moved(states[i].fs.glfds[did], states[j].fs.glfds[did].inode.graph)
  {
    if i < j {
      DescriptorKeepsFile(states, labels, did, i, j - 1);
      RunStep(states, labels, j - 1);
      var s, l := states[j - 1], labels[j - 1];
      SectionGood(s.fs, s.threads[l.t], l.e);
      assert FdGood(s.fs, s.threads[l.t], Section(s.fs, s.threads[l.t], l.e), did);
    }
  }

  /** A descriptor is never dragged back: whenever it changes graph, the new graph
      is not a retired one. */
  lemma {:induction false} NeverDraggedBack(s: State, l: Label, did: Did)
    requires Reachable(s) && CanStep(s, l) && did in s.fs.glfds && did in Step(s, l).fs.glfds
    requires Step(s, l).fs.glfds[did] != s.fs.glfds[did]
    ensures Step(s, l).fs.glfds[did].inode.graph !in Step(s, l).fs.switched
  {
    ReachableInv(s);
    var pc := s.threads[l.t];
    SectionGood(s.fs, pc, l.e);
    assert FdGood(s.fs, pc, Section(s.fs, pc, l.e), did);
  }

  /** Unless a migration is walking the list, every descriptor lies on a graph
      that is or was active. */
  lemma {:induction false} DescriptorsLive(s: State, did: Did)
    requires Reachable(s) && did in s.fs.glfds
    requires forall t :: 0 <= t < |s.threads| ==> !s.threads[t].MigrateFd?
    ensures Live(s.fs, s.fs.glfds[did].inode.graph)
  {
    ReachableInv(s);
  }

  /** glfs_resolve_fd by an operation on graph g: the fd returned is on g and is
      the descriptor's file; the descriptor itself moves exactly when g is the
      active graph, and a failure leaves it alone. */
  lemma {:induction false} ResolveReturns(s: State, l: Label)
    requires Reachable(s) && CanStep(s, l) && l.e.Resolved?
    ensures var pc := s.threads[l.t];
            && pc.did in s.fs.glfds
            && (l.e.newFd.Some? ==> l.e.newFd.value == Moved(s.fs.glfds[pc.did], pc.g))
            && Step(s, l).fs.glfds ==
                 (if l.e.newFd.Some? && s.fs.active == Some(pc.g) then s.fs.glfds[pc.did := l.e.newFd.value] else s.fs.glfds)
  {
    ReachableInv(s);
    assert ThreadOk(s.fs, s.threads[l.t]);
  }

  // ---------------------------------------------------------- working directory

  /** Whenever the mutex is free the working directory is unset or on the active
      graph; reading it never needs the network, and the switch sets it in the
      same section as the active graph. */
  lemma {:induction false} CwdOnActive(s: State)
    requires Reachable(s)
    ensures s.fs.cwd.Some? ==> s.fs.active == Some(s.fs.cwd.value.graph)
    ensures forall t :: 0 <= t < |s.threads| ==> !s.threads[t].CwdGet? && !s.threads[t].CommitCwd?
  {
    ReachableInv(s);
    forall t | 0 <= t < |s.threads| ensures !s.threads[t].CwdGet? && !s.threads[t].CommitCwd? {
      assert ThreadOk(s.fs, s.threads[t]);
    }
  }

  // -------------------------------------------------------------- retired graphs

  /** PARENT_DOWN events decided for g before its count last reached 0. */
  function Earlier(s: State, g: Graph): int {
    At(s.h.zeros, g) - (if At(s.fs.winds, g) == 0 then 1 else 0)
  }

  lemma {:induction false} RetiredKept(s: State, t: nat, e: Event, o: Outcome, g: Graph)
    requires t < |s.threads| && SlotsOk(s.fs) && SlotsOk(o.fs) && g in s.fs.switched && g in o.fs.switched
    requires Rest(o.fs, o.pc, g) == Rest(s.fs, s.threads[t], g) + (if Abandons(s.fs, e) then One(s.fs.mip, g) else 0)
    requires Counts(s.fs, s.threads[t], e, o, g) && At(s.fs.winds, g) >= Weigh(s.threads[t], Held, g)
    requires At(o.fs.winds, g) >= 0
    requires e.SendDown? ==> s.threads[t].Down?
    ensures var s' := State(o.fs, s.threads[t := o.pc], Record(s.h, s.fs, s.threads[t], e, o));
            && Slots(s'.fs, g) == 0
            && Total(s'.threads, Held, g) <= Total(s.threads, Held, g)
            && Earlier(s', g) == Earlier(s, g)
  {
    RecordCounts(s.h, s.fs, s.threads[t], e, o, g);
    TotalUpdate(s.threads, t, o.pc, Held, g);
  }

  /** One step never takes a graph out of `switched`, puts a retired graph in a
      slot, or lets a thread take a new reference to it. */
  lemma {:induction false} RetiredStep(s: State, l: Label, g: Graph)
    requires Inv(s) && CanStep(s, l) && g in s.fs.switched
    ensures var s' := Step(s, l);
            && g in s'.fs.switched && Slots(s'.fs, g) == 0
            && Total(s'.threads, Held, g) <= Total(s.threads, Held, g)
            && Earlier(s', g) == Earlier(s, g)
  {
    var pc := s.threads[l.t];
    assert Balanced(s, g);
    TotalAtLeast(s.threads, l.t, Held, g);
    StepBalance(s, l, g);
    SectionGood(s.fs, pc, l.e);
    SectionCounts(s.fs, pc, l.e, g);
    RetiredKept(s, l.t, l.e, Section(s.fs, pc, l.e), g);
  }

  /** Once marked switched, a graph never enters a slot again and no operation
      takes a new reference to it. */
  lemma {:induction false} SwitchedForever(states: seq<State>, labels: seq<Label>, g: Graph, i: nat, j: nat)
    requires IsRun(states, labels) && i <= j < |states| && g in states[i].fs.switched
    ensures g in states[j].fs.switched && Slots(states[j].fs, g) == 0
    ensures Total(states[j].threads, Held, g) <= Total(states[i].threads, Held, g)
    ensures Earlier(states[j], g) == Earlier(states[i], g)
  {
    if i == j {
      RunInv(states, labels, i);
    } else {
      SwitchedForever(states, labels, g, i, j - 1);
      RunStep(states, labels, j - 1);
      RetiredStep(states[j - 1], labels[j - 1], g);
    }
  }

  // ----------------------------------------------------------------- PARENT_DOWN

  /** The step that retires g: it decides and sends no event for g, and leaves g
      referenced. */
  lemma {:induction false} RetiringStep(s: State, l: Label, g: Graph)
    requires Inv(s) && CanStep(s, l) && g !in s.fs.switched && g in Step(s, l).fs.switched
    ensures Earlier(Step(s, l), g) == At(s.h.zeros, g)
  {
    assert Balanced(s, g);
    TotalAtLeast(s.threads, l.t, Held, g);
    var o := Section(s.fs, s.threads[l.t], l.e);
    SectionCounts(s.fs, s.threads[l.t], l.e, g);
    RecordCounts(s.h, s.fs, s.threads[l.t], l.e, o, g);
  }

  /** Exactly how many PARENT_DOWN events a retired graph gets.  Step i retires g;
      at any later point j, the events sent since then plus those still due are
      the ones that were already due when it retired, plus one if the last
      reference is gone.  So it is sent at most once, and only after the last
      operation has let go of it, precisely for graphs with none due at step i. */
  lemma {:induction false} ParentDownCount(states: seq<State>, labels: seq<Label>, g: Graph, i: nat, j: nat)
    requires IsRun(states, labels) && i < j < |states|
    requires g !in states[i].fs.switched && g in states[i + 1].fs.switched
    ensures var a, b := states[i], states[j];
            var since := At(b.h.sent, g) - At(a.h.sent, g);
            var gone := At(b.fs.winds, g) == 0;
            && since + Total(b.threads, Due, g) == Total(a.threads, Due, g) + (if gone then 1 else 0)
            && (Total(a.threads, Due, g) == 0 && since > 0 ==> since == 1 && gone && Total(b.threads, Held, g) == 0)
            && (gone && Total(b.threads, Due, g) == 0 ==> (since == 1 <==> Total(a.threads, Due, g) == 0))
  {
    RetiredSince(states, labels, g, i, j);
    DownCounts(states, labels, i, g);
    DownCounts(states, labels, j, g);
  }

  lemma {:induction false} RetiredSince(states: seq<State>, labels: seq<Label>, g: Graph, i: nat, j: nat)
    requires IsRun(states, labels) && i < j < |states|
    requires g !in states[i].fs.switched && g in states[i + 1].fs.switched
    ensures Earlier(states[j], g) == At(states[i].h.zeros, g) && Slots(states[j].fs, g) == 0
  {
    RetiredAt(states, labels, g, i);
    SwitchedForever(states, labels, g, i + 1, j);
  }

  lemma {:induction false} RetiredAt(states: seq<State>, labels: seq<Label>, g: Graph, i: nat)
    requires IsRun(states, labels) && i < |labels|
    requires g !in states[i].fs.switched && g in states[i + 1].fs.switched
    ensures Earlier(states[i + 1], g) == At(states[i].h.zeros, g)
  {
    RunStep(states, labels, i);
    RetiringStep(states[i], labels[i], g);
  }

  lemma {:induction false} DownCounts(states: seq<State>, labels: seq<Label>, i: nat, g: Graph)
    requires IsRun(states, labels) && i < |states|
    ensures var s := states[i];
            && At(s.h.zeros, g) == At(s.h.sent, g) + Total(s.threads, Due, g)
            && At(s.fs.winds, g) == Slots(s.fs, g) + Total(s.threads, Held, g) + At(s.h.abandoned, g)
            && At(s.h.abandoned, g) >= 0
  {
    RunInv(states, labels, i);
    assert Balanced(states[i], g) && DownOk(states[i], g);
  }

  /** A graph that graph_setup installed only once gets one PARENT_DOWN at most in
      its life, and none while a slot or an operation refers to it. */
  lemma {:induction false} InstalledOnce(s: State, g: Graph)
    requires Reachable(s) && At(s.h.accepted, g) == 1
    ensures At(s.h.sent, g) + Total(s.threads, Due, g) == (if At(s.fs.winds, g) == 0 then 1 else 0)
    ensures At(s.h.sent, g) + Total(s.threads, Due, g) > 0 ==> Slots(s.fs, g) == 0 && Total(s.threads, Held, g) == 0
  {
    ReachableInv(s);
    assert Balanced(s, g) && DownOk(s, g);
  }

  lemma {:induction false} ReachableStep(s: State, l: Label)
    requires Reachable(s) && CanStep(s, l)
    ensures Reachable(Step(s, l))
  {
    var states, labels :| IsRun(states, labels) && states[|labels|] == s;
    var states', labels' := states + [Step(s, l)], labels + [l];
    assert IsRun(states', labels') by {
      forall i | 0 <= i < |labels'|
        ensures StepAt(states', labels', i)
      {
        if i < |labels| {
          assert StepAt(states, labels, i);
        }
      }
    }
    assert states'[|labels'|] == Step(s, l);
  }

  lemma {:induction false} InitReachable(count: nat)
    ensures Reachable(Init(count))
  {
    var none: seq<Label> := [];
    assert IsRun([Init(count)], none) && [Init(count)][|none|] == Init(count);
  }

  lemma {:induction false} Go(s: State, t: nat, e: Event, fs': Fs, pc': Pc) returns (s': State)
    requires Reachable(s) && t < |s.threads| && Enabled(s.fs, s.threads[t], e)
    requires Section(s.fs, s.threads[t], e) == Outcome(fs', pc')
    ensures Reachable(s') && s'.fs == fs' && s'.threads == s.threads[t := pc']
  {
    ReachableStep(s, Label(t, e));
    s' := Step(s, Label(t, e));
  }

  /** An initialised file system without descriptors. */
  function Plain(active: Option<Graph>, next: Option<Graph>, winds: map<Graph, int>): Fs {
    Fs(true, false, active, next, None, None, winds, {}, None, [], map[])
  }

  lemma {:induction false} FirstArrival() returns (s: State)
    ensures Reachable(s) && s.threads == [Idle, Idle, Idle]
    ensures s.fs == Plain(None, Some(1), map[1 := 1])
  {
    InitReachable(3);
    s := Go(Init(3), 0, InitDone, Plain(None, None, map[]), Idle);
    s := Go(s, 0, GraphUp(1), Plain(None, Some(1), map[1 := 1]), Idle);
  }

  /** Thread 0 brings the count of graph 1, displaced by graph 2, to 0. */
  lemma {:induction false} DisplacedGraph() returns (s: State)
    ensures Reachable(s) && s.threads == [Down(1, None), Idle, Idle]
    ensures s.fs == Plain(None, Some(2), map[1 := 0, 2 := 1])
  {
    s := FirstArrival();
    s := Go(s, 0, GraphUp(2), Plain(None, Some(2), map[1 := 1, 2 := 1]), Release(1, None));
    assert s.threads == [Release(1, None), Idle, Idle];
    s := Go(s, 0, ReleaseOwed, Plain(None, Some(2), map[1 := 0, 2 := 1]), Down(1, None));
  }

  /** Graph 1 comes up again before thread 0 has delivered its PARENT_DOWN, and
      becomes active. */
  lemma {:induction false} DueAndActive() returns (s: State)
    ensures Reachable(s) && s.threads == [Down(1, None), Release(2, None), Op(1)]
    ensures s.fs == Plain(Some(1), None, map[1 := 2, 2 := 1])
  {
    s := DisplacedGraph();
    s := Go(s, 1, GraphUp(1), Plain(None, Some(1), map[1 := 1, 2 := 1]), Release(2, None));
    var picked := Plain(None, None, map[1 := 1, 2 := 1]).(mip := Some(1), migrating := true);
    s := Go(s, 2, Start, picked, FirstLookup(1));
    s := Go(s, 2, LookupDone(true), Plain(Some(1), None, map[1 := 2, 2 := 1]), Op(1));
  }

  /** Without that condition it fails: the active graph receives PARENT_DOWN. */
  lemma {:induction false} DownReachesActiveGraph()
    ensures exists s, l :: Reachable(s) && CanStep(s, l) && l.e.SendDown? && s.fs.active == Some(s.threads[l.t].dead)
  {
    var s := DueAndActive();
    assert CanStep(s, Label(0, SendDown));
  }

  // --------------------------------------------------- two events for one graph

  /** One more step at the end of a run. */
  lemma {:induction false} Extend(states: seq<State>, labels: seq<Label>, t: nat, e: Event, fs': Fs, pc': Pc)
    returns (states': seq<State>, labels': seq<Label>)
    requires IsRun(states, labels) && t < |states[|labels|].threads| && Enabled(states[|labels|].fs, states[|labels|].threads[t], e)
    requires Section(states[|labels|].fs, states[|labels|].threads[t], e) == Outcome(fs', pc')
    ensures IsRun(states', labels') && |labels'| == |labels| + 1 && states'[..|states|] == states
    ensures states'[|labels'|].fs == fs' && states'[|labels'|].threads == states[|labels|].threads[t := pc']
  {
    var s, l := states[|labels|], Label(t, e);
    states', labels' := states + [Step(s, l)], labels + [l];
    forall i | 0 <= i < |labels'|
      ensures StepAt(states', labels', i)
    {
      if i < |labels| {
        assert StepAt(states, labels, i);
      }
    }
  }

  /** Graph 3 is about to replace graph 1, whose PARENT_DOWN thread 0 still owes from
      the time before it came up again. */
  lemma {:induction false} AboutToRetire() returns (states: seq<State>, labels: seq<Label>)
    ensures IsRun(states, labels) && states[|labels|].threads == [Down(1, None), FirstLookup(3), Op(1)]
    ensures states[|labels|].fs == Plain(Some(1), None, map[1 := 2, 2 := 0, 3 := 1]).(mip := Some(3), migrating := true)
  {
    var s := DueAndActive();
    s := Go(s, 1, ReleaseOwed, Plain(Some(1), None, map[1 := 2, 2 := 0]), Down(2, None));
    s := Go(s, 1, SendDown, Plain(Some(1), None, map[1 := 2, 2 := 0]), Idle);
    s := Go(s, 1, GraphUp(3), Plain(Some(1), Some(3), map[1 := 2, 2 := 0, 3 := 1]), Idle);
    var picked := Plain(Some(1), None, map[1 := 2, 2 := 0, 3 := 1]).(mip := Some(3), migrating := true);
    s := Go(s, 1, Start, picked, FirstLookup(3));
    states, labels :| IsRun(states, labels) && states[|labels|] == s;
  }

  /** Graph 1 is retired at step i and its old PARENT_DOWN is delivered at once, while
      thread 2 still works on it. */
  lemma {:induction false} DownWhileHeld() returns (states: seq<State>, labels: seq<Label>, i: nat)
    ensures IsRun(states, labels) && i + 2 == |labels| && states[i].threads == [Down(1, None), FirstLookup(3), Op(1)]
    ensures 1 !in states[i].fs.switched && 1 in states[i + 1].fs.switched
    ensures states[i + 2].threads == [Idle, Release(1, Some(3)), Op(1)]
    ensures states[i + 2].fs == Plain(Some(3), None, map[1 := 2, 2 := 0, 3 := 2]).(switched := {1})
  {
    states, labels := AboutToRetire();
    i := |labels|;
    var retired := Plain(Some(3), None, map[1 := 2, 2 := 0, 3 := 2]).(switched := {1});
    ghost var before := states[i];
    states, labels := Extend(states, labels, 1, LookupDone(true), retired, Release(1, Some(3)));
    assert states[i] == before;
    ghost var after := states[i + 1];
    states, labels := Extend(states, labels, 0, SendDown, retired, Idle);
    assert states[i] == states[..i + 2][i] && states[i + 1] == states[..i + 2][i + 1];
  }

  lemma {:induction false} LastHolderGone() returns (states: seq<State>, labels: seq<Label>, i: nat)
    ensures IsRun(states, labels) && i + 5 == |labels| && states[i].threads == [Down(1, None), FirstLookup(3), Op(1)]
    ensures 1 !in states[i].fs.switched && 1 in states[i + 1].fs.switched
    ensures states[i + 2].threads == [Idle, Release(1, Some(3)), Op(1)] && At(states[i + 2].fs.winds, 1) == 2
    ensures states[i + 5].threads == [Idle, Op(3), Idle] && At(states[i + 5].fs.winds, 1) == 0
  {
    states, labels, i := DownWhileHeld();
    ghost var run := states;
    var fs1 := Plain(Some(3), None, map[1 := 1, 2 := 0, 3 := 2]).(switched := {1});
    var fs0 := Plain(Some(3), None, map[1 := 0, 2 := 0, 3 := 2]).(switched := {1});
    states, labels := Extend(states, labels, 1, ReleaseOwed, fs1, Op(3));
    ghost var run1 := states;
    states, labels := Extend(states, labels, 2, Done, fs0, Down(1, None));
    ghost var run2 := states;
    states, labels := Extend(states, labels, 2, SendDown, fs0, Idle);
    assert states[..i + 3] == run2[..i + 3] == run1[..i + 3] == run;
    assert forall m :: 0 <= m < i + 3 ==> states[m] == states[..i + 3][m];
  }

  lemma {:induction false} TotalOfThree(a: Pc, b: Pc, c: Pc, kind: Kind, g: Graph)
    ensures Total([a, b, c], kind, g) == Weigh(a, kind, g) + Weigh(b, kind, g) + Weigh(c, kind, g)
  {
    assert [a, b, c][1..] == [b, c] && [b, c][1..] == [c] && [c][1..] == [];
    assert Total([c], kind, g) == Weigh(c, kind, g);
  }

  lemma {:induction false} SentSince(states: seq<State>, labels: seq<Label>, i: nat, j: nat, a: Pc, b: Pc, c: Pc)
    requires IsRun(states, labels) && i < j < |states| && 1 !in states[i].fs.switched && 1 in states[i + 1].fs.switched
    requires Total(states[i].threads, Due, 1) == 1 && states[j].threads == [a, b, c]
    ensures At(states[j].h.sent, 1) - At(states[i].h.sent, 1) ==
            1 + (if At(states[j].fs.winds, 1) == 0 then 1 else 0) - Weigh(a, Due, 1) - Weigh(b, Due, 1) - Weigh(c, Due, 1)
  {
    ParentDownCount(states, labels, 1, i, j);
    TotalOfThree(a, b, c, Due, 1);
  }

  /** So a retired graph can get two PARENT_DOWN events, the first while an operation
      still holds it: step i retires graph 1 with one event due. */
  lemma {:induction false} TwoParentDowns() returns (states: seq<State>, labels: seq<Label>, i: nat)
    ensures IsRun(states, labels) && i + 5 < |states|
    ensures 1 !in states[i].fs.switched && 1 in states[i + 1].fs.switched && Total(states[i].threads, Due, 1) == 1
    ensures At(states[i + 2].h.sent, 1) - At(states[i].h.sent, 1) == 1 && Total(states[i + 2].threads, Held, 1) == 2
    ensures At(states[i + 5].h.sent, 1) - At(states[i].h.sent, 1) == 2
  {
    states, labels, i := LastHolderGone();
    TotalOfThree(Down(1, None), FirstLookup(3), Op(1), Due, 1);
    TotalOfThree(Idle, Release(1, Some(3)), Op(1), Held, 1);
    SentSince(states, labels, i, i + 2, Idle, Release(1, Some(3)), Op(1));
    SentSince(states, labels, i, i + 5, Idle, Op(3), Idle);
  }

  // --------------------------------------------------------------------- handles

  /** glfs_resolve_inode by an operation on graph g: the inode returned is the handle's
      file on the graph that is active, all through the call; it is on the caller's
      graph exactly if that graph is still the active one. */
  lemma {:induction false} HandleOnActive(s: State, l: Label)
    requires Reachable(s) && CanStep(s, l) && l.e.HandleResolved? && l.e.newInode.Some?
    ensures var pc, i := s.threads[l.t], l.e.newInode.value;
            && s.fs.active == Some(i.graph) && i.gfid == pc.inode.gfid
            && (i.graph == pc.g <==> pc.g !in s.fs.switched)
            && Step(s, l).fs == s.fs.(migrating := false)
  {
    ReachableInv(s);
    assert ThreadOk(s.fs, s.threads[l.t]);
  }

  /** An operation on a retired graph is given an inode of another graph. */
  lemma {:induction false} HandleOnOtherGraph() returns (s: State, l: Label)
    ensures Reachable(s) && CanStep(s, l) && l.e.HandleResolved? && l.e.newInode.Some?
    ensures s.threads[l.t].ResolveInode? && l.e.newInode.value.graph != s.threads[l.t].g
  {
    var states, labels, i := DownWhileHeld();
    s := states[|labels|];
    assert Reachable(s);
    s := Go(s, 2, HandleStart(Inode(1, 7), true), s.fs.(migrating := true), ResolveInode(1, Some(3), Inode(1, 7)));
    l := Label(2, HandleResolved(Some(Inode(3, 7))));
  }
}
