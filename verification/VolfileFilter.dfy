/**
  Inserting filters above translators (push_filter and the two passes of
  extras/prot_filter.py; delete of extras/volfilter.py): what a pass does to the store,
  and what that means for the graph.
*/
module VolfileFilter {
  import opened Options
  import opened Volfile
  import opened VolfilePrint

  // ---------------------------------------------------------------------- naming

  predicate Occurs(s: string, pat: string, k: nat) {
    k + |pat| <= |s| && s[k..k + |pat|] == pat
  }

  lemma {:induction false} OccursTail(s: string, pat: string, k: nat)
    requires s != []
    ensures Occurs(s, pat, k + 1) <==> Occurs(s[1..], pat, k)
  {
    if k + 1 + |pat| <= |s| {
      assert s[k + 1..k + 1 + |pat|] == s[1..][k..k + |pat|];
    }
  }

  /** Position of the first occurrence of pat in s. */
  function Find(s: string, pat: string): (r: Option<nat>)
    ensures r.Some? ==> Occurs(s, pat, r.value)
    decreases |s|
  {
    if |s| < |pat| then None
    else if s[..|pat|] == pat then Some(0)
    else if s == [] then None
    else
      match Find(s[1..], pat)
      case None => None
      case Some(k) =>
        OccursTail(s, pat, k);
        Some(k + 1)
  }

  /** What it finds is an occurrence with none before it; it finds nothing only if there
      is none. */
  lemma {:induction false} FindFirst(s: string, pat: string)
    ensures match Find(s, pat)
            case Some(k) => forall j: nat :: j < k ==> !Occurs(s, pat, j)
            case None => forall j: nat :: !Occurs(s, pat, j)
    decreases |s|
  {
    if |s| >= |pat| && s[..|pat|] != pat && s != [] {
      FindFirst(s[1..], pat);
      forall j: nat
        ensures Occurs(s, pat, j) <==> j > 0 && Occurs(s[1..], pat, j - 1)
      {
        if j > 0 {
          OccursTail(s, pat, j - 1);
        } else {
          assert s[0..0 + |pat|] == s[..|pat|];
        }
      }
    }
  }

  /** "-" and the part of a type after its first slash; None when it has no slash. */
  function Suffix(kind: string): Option<string> {
    match Find(kind, "/")
    case None => None
    case Some(k) =>
      var rest := kind[k + 1..];
      match Find(rest, "/")
      case None => Some("-" + rest)
      case Some(n) => Some("-" + rest[..n])
  }

  /** The first slash is where the part without one ends. */
  lemma {:induction false} FirstSlash(a: string, rest: string)
    requires '/' !in a
    ensures Find(a, "/").None? && Find(a + "/" + rest, "/") == Some(|a|)
  {
    FindFirst(a, "/");
    FindFirst(a + "/" + rest, "/");
    var s := a + "/" + rest;
    assert s[|a|..|a| + 1] == "/" && Occurs(s, "/", |a|);
    forall j: nat | j < |a|
      ensures !Occurs(s, "/", j) && !Occurs(a, "/", j)
    {
      assert s[j] == a[j] != '/';
      assert s[j..j + 1] == [s[j]] && a[j..j + 1] == [a[j]];
    }
  }

  lemma {:induction false} AfterSlash(a: string, rest: string)
    ensures (a + "/" + rest)[|a| + 1..] == rest && (a + "/" + rest)[..|a|] == a
  {
  }

  lemma {:induction false} SuffixRest(kind: string, k: nat, rest: string)
    requires Find(kind, "/") == Some(k) && kind[k + 1..] == rest
    ensures Suffix(kind) == Some("-" + if Find(rest, "/").Some? then rest[..Find(rest, "/").value] else rest)
  {
  }

  /** The suffix is "-" and what stands between the first slash and the next, or the end. */
  lemma {:induction false} SuffixIs(a: string, b: string, c: string)
    requires '/' !in a && '/' !in b
    ensures Suffix(a + "/" + b) == Some("-" + b)
    ensures Suffix(a + "/" + (b + "/" + c)) == Some("-" + b)
  {
    FirstSlash(b, c);
    FirstSlash(a, b);
    AfterSlash(a, b);
    SuffixRest(a + "/" + b, |a|, b);
    var rest := b + "/" + c;
    FirstSlash(a, rest);
    AfterSlash(a, rest);
    AfterSlash(b, c);
    SuffixRest(a + "/" + rest, |a|, rest);
  }

  /** There is one exactly if the type has a slash. */
  lemma {:induction false} SuffixIff(kind: string)
    ensures Suffix(kind).Some? <==> '/' in kind
  {
    FindFirst(kind, "/");
    if Find(kind, "/").Some? {
      var k := Find(kind, "/").value;
      assert kind[k..k + 1][0] == kind[k] == '/';
    }
    if '/' in kind {
      var j :| 0 <= j < |kind| && kind[j] == '/';
      assert kind[j..j + 1] == "/" && Occurs(kind, "/", j);
    }
  }

  /** The name that the translator moved down gets. */
  function NewName(name: string, oldType: string): string {
    if Find(name, oldType).Some? then name else name + oldType
  }

  /** The name that the filter above it gets. */
  function FilterName(name: string, oldType: string, newType: string): string {
    match Find(name, oldType)
    case None => name + newType
    case Some(k) => name[..k] + newType + name[k + |oldType|..]
  }

  /** If the name mentions its type, the filter's name is the same with the first mention
      replaced and the translator keeps its name; otherwise both get a suffix. */
  lemma {:induction false} PushedNames(name: string, oldType: string, newType: string, pre: string, post: string)
    ensures name == pre + oldType + post && (forall j: nat :: j < |pre| ==> !Occurs(name, oldType, j)) ==>
              NewName(name, oldType) == name && FilterName(name, oldType, newType) == pre + newType + post
    ensures (forall j: nat :: !Occurs(name, oldType, j)) ==>
              NewName(name, oldType) == name + oldType && FilterName(name, oldType, newType) == name + newType
  {
    FindFirst(name, oldType);
    if name == pre + oldType + post {
      assert name[|pre|..|pre| + |oldType|] == oldType;
      assert Occurs(name, oldType, |pre|);
      assert name[..|pre|] == pre && name[|pre| + |oldType|..] == post;
    }
  }

  /** Object i becomes the filter; a new object takes its place below. */
  function Push(g: Store, i: nat, newName: string, filterName: string, kind: string, opts: map<string, string>): Store
    requires i < |g|
  {
    g[i := Xlator(filterName, kind, opts, [|g|])] + [g[i].(name := newName)]
  }

  // ---------------------------------------------------------------------- passes

  datatype Pass = First | Second

  /** The filter that a pass puts above translators of a type. */
  function Filter(pass: Pass, kind: string): Option<string> {
    match pass
    case First =>
      if kind == "cluster/distribute" then Some("features/prot_dht")
      else if kind == "protocol/client" then Some("features/prot_client")
      else None
    case Second =>
      if kind == "features/prot_client" then Some("debug/trace") else None
  }

  lemma {:induction false} SlashSuffix(kind: string, i: nat)
    requires i < |kind| && kind[i] == '/'
    ensures Suffix(kind).Some?
  {
    SuffixIff(kind);
  }

  /** No pass filters its own filters. */
  lemma {:induction false} NotAgain(pass: Pass, kind: string)
    requires Filter(pass, kind).Some?
    ensures Filter(pass, Filter(pass, kind).value).None?
  {
  }

  lemma {:induction false} WantedSuffix(pass: Pass, kind: string)
    requires Filter(pass, kind).Some?
    ensures Suffix(kind).Some?
  {
    if kind == "cluster/distribute" {
      SlashSuffix(kind, 7);
    } else if kind == "protocol/client" {
      SlashSuffix(kind, 8);
    } else {
      SlashSuffix(kind, 8);
    }
  }

  lemma {:induction false} GivenSuffix(pass: Pass, kind: string, filter: string)
    requires Filter(pass, kind) == Some(filter)
    ensures Suffix(filter).Some?
  {
    if filter == "debug/trace" {
      SlashSuffix(filter, 5);
    } else if filter == "features/prot_dht" {
      SlashSuffix(filter, 8);
    } else {
      SlashSuffix(filter, 8);
    }
  }

  /** Types as the passes use them have a suffix. */
  lemma {:induction false} PassSuffix(pass: Pass, kind: string, filter: string)
    requires Filter(pass, kind) == Some(filter)
    ensures Suffix(kind).Some? && Suffix(filter).Some?
  {
    WantedSuffix(pass, kind);
    GivenSuffix(pass, kind, filter);
  }

  /** What a pass intends for every object: the filter to put above it, if any, and
      the names that it and the filter then have. */
  datatype Plan = Plan(filter: seq<Option<string>>, moved: seq<string>, above: seq<string>)

  predicate PlanFits(pass: Pass, x: Xlator, filter: Option<string>, moved: string, above: string) {
    && filter == Filter(pass, x.kind)
    && (filter.Some? ==>
          && Suffix(x.kind).Some? && Suffix(filter.value).Some?
          && moved == NewName(x.name, Suffix(x.kind).value)
          && above == FilterName(x.name, Suffix(x.kind).value, Suffix(filter.value).value))
  }

  predicate Sized(plan: Plan, g0: Store) {
    |plan.filter| == |plan.moved| == |plan.above| == |g0|
  }

  predicate IsPlan(pass: Pass, g0: Store, plan: Plan) {
    && Sized(plan, g0)
    && forall i {:trigger PlanFits(pass, g0[i], plan.filter[i], plan.moved[i], plan.above[i])} :: 0 <= i < |g0| ==>
         PlanFits(pass, g0[i], plan.filter[i], plan.moved[i], plan.above[i])
  }

  function PlanName(pass: Pass, x: Xlator, up: bool): (name: string)
    ensures up ==> PlanFits(pass, x, Filter(pass, x.kind), PlanName(pass, x, false), name)
  {
    match Filter(pass, x.kind)
    case None => x.name
    case Some(kind) =>
      PassSuffix(pass, x.kind, kind);
      if up then FilterName(x.name, Suffix(x.kind).value, Suffix(kind).value) else NewName(x.name, Suffix(x.kind).value)
  }

  /** Every pass has its plan for every store. */
  function PlanOf(pass: Pass, g0: Store): (plan: Plan)
    ensures IsPlan(pass, g0, plan)
  {
    Plan(seq(|g0|, i requires 0 <= i < |g0| => Filter(pass, g0[i].kind)),
         seq(|g0|, i requires 0 <= i < |g0| => PlanName(pass, g0[i], false)),
         seq(|g0|, i requires 0 <= i < |g0| => PlanName(pass, g0[i], true)))
  }

  /** Object i is now the filter above object n, which holds what i was. */
  predicate Slot(plan: Plan, g0: Store, g: Store, i: nat, n: nat)
    requires Sized(plan, g0)
  {
    && i < |g0| && i < |g| && n < |g| && plan.filter[i].Some?
    && g[i] == Xlator(plan.above[i], plan.filter[i].value, map[], [n])
    && g[n] == g0[i].(name := plan.moved[i])
  }

  /** The store after a pass has filtered the objects in origin, in that order. */
  predicate Filtered(plan: Plan, g0: Store, g: Store, origin: seq<nat>)
    requires Sized(plan, g0)
  {
    && |g| == |g0| + |origin| && Distinct(origin)
    && (forall t :: 0 <= t < |origin| ==> Slot(plan, g0, g, origin[t], |g0| + t))
    && forall i :: 0 <= i < |g0| && i !in origin ==> g[i] == g0[i]
  }

  /** Every object that the plan has a filter for has been filtered. */
  predicate Complete(plan: Plan, g0: Store, origin: seq<nat>)
    requires Sized(plan, g0)
  {
    forall i :: 0 <= i < |g0| && plan.filter[i].Some? ==> i in origin
  }

  lemma {:induction false} FilteredPush(plan: Plan, g0: Store, g: Store, origin: seq<nat>, i: nat, g1: Store)
    requires Sized(plan, g0) && Filtered(plan, g0, g, origin) && i < |g0| && i !in origin
    requires |g1| == |g| + 1 && Slot(plan, g0, g1, i, |g|) && forall j :: 0 <= j < |g| && j != i ==> g1[j] == g[j]
    ensures Filtered(plan, g0, g1, origin + [i])
  {
    var o := origin + [i];
    forall t | 0 <= t < |o|
      ensures Slot(plan, g0, g1, o[t], |g0| + t)
    {
      if t < |origin| {
        assert Slot(plan, g0, g, origin[t], |g0| + t);
      }
    }
    forall j | 0 <= j < |g0| && j !in o
      ensures g1[j] == g0[j]
    {
      assert o[|origin|] == i;
      assert j !in origin;
    }
  }

  // ---------------------------------------------------------------- what is kept

  /** A rank for the filtered graph: filters go between a translator and its parents. */
  function Ranks(g0: Store, origin: seq<nat>, rank: seq<nat>): (r: seq<nat>)
    requires |rank| == |g0| && forall t :: 0 <= t < |origin| ==> origin[t] < |g0|
    ensures |r| == |g0| + |origin|
    ensures forall i :: 0 <= i < |g0| ==> r[i] == rank[i] + rank[i] + 1
    ensures forall t :: 0 <= t < |origin| ==> r[|g0| + t] == rank[origin[t]] + rank[origin[t]]
  {
    seq(|g0| + |origin|, j requires 0 <= j < |g0| + |origin| =>
      if j < |g0| then rank[j] + rank[j] + 1 else rank[origin[j - |g0|]] + rank[origin[j - |g0|]])
  }

  lemma {:induction false} Positions(plan: Plan, g0: Store, g: Store, origin: seq<nat>, i: nat) returns (t: nat)
    requires Sized(plan, g0) && Filtered(plan, g0, g, origin) && i < |g| && (i >= |g0| || i in origin)
    ensures t < |origin| && Slot(plan, g0, g, origin[t], |g0| + t) && i == (if i >= |g0| then |g0| + t else origin[t])
  {
    if i >= |g0| {
      t := i - |g0|;
    } else {
      t :| 0 <= t < |origin| && origin[t] == i;
    }
  }

  /** A pass keeps the graph acyclic. */
  lemma {:induction false} FilteredAcyclic(plan: Plan, g0: Store, g: Store, origin: seq<nat>, rank: seq<nat>)
    requires Sized(plan, g0) && Filtered(plan, g0, g, origin) && Acyclic(g0, rank)
    ensures (forall t :: 0 <= t < |origin| ==> origin[t] < |g0|) && Acyclic(g, Ranks(g0, origin, rank))
  {
    forall t | 0 <= t < |origin|
      ensures origin[t] < |g0|
    {
      assert Slot(plan, g0, g, origin[t], |g0| + t);
    }
    var r := Ranks(g0, origin, rank);
    forall i, k | 0 <= i < |g| && 0 <= k < |g[i].subvols|
      ensures g[i].subvols[k] < |g| && r[g[i].subvols[k]] < r[i]
    {
      if i >= |g0| || i in origin {
        var t := Positions(plan, g0, g, origin, i);
      }
    }
  }

  /** Where object i's own content is once filters are above it: the end of the chain
      of objects the passes made (those from n on). */
  function Core(g: Store, rank: seq<nat>, n: nat, i: nat): (c: nat)
    requires Acyclic(g, rank) && i < |g|
    ensures c < |g|
    decreases rank[i]
  {
    if |g[i].subvols| == 1 && g[i].subvols[0] >= n then Core(g, rank, n, g[i].subvols[0]) else i
  }

  predicate SameContent(x: Xlator, y: Xlator) {
    x.kind == y.kind && x.opts == y.opts && x.subvols == y.subvols
  }

  /** In the original there is nothing to contract. */
  lemma {:induction false} CoreOriginal(g0: Store, rank: seq<nat>, i: nat)
    requires Acyclic(g0, rank) && i < |g0|
    ensures Core(g0, rank, |g0|, i) == i
  {
  }

  /** Inserting filters does not change what contracting the chains gives. */
  lemma {:induction false} CoreKept(plan: Plan, g0: Store, g: Store, origin: seq<nat>, r0: seq<nat>, r: seq<nat>, n: nat, i: nat)
    requires Sized(plan, g0) && Filtered(plan, g0, g, origin) && Acyclic(g0, r0) && Acyclic(g, r) && n <= |g0| && i < |g0|
    ensures SameContent(g[Core(g, r, n, i)], g0[Core(g0, r0, n, i)])
    decreases r0[i]
  {
    if i in origin {
      var t := Positions(plan, g0, g, origin, i);
      assert Core(g, r, n, i) == Core(g, r, n, |g0| + t);
    }
    if |g0[i].subvols| == 1 && g0[i].subvols[0] >= n {
      CoreKept(plan, g0, g, origin, r0, r, n, g0[i].subvols[0]);
    }
  }

  /** Contracting what both passes inserted gives back the original graph: at the end of
      the chain that begins at object i are i's own type, options and subvolumes, the
      subvolumes being the very objects they were. */
  lemma {:induction false} Contracted(p1: Plan, p2: Plan, g0: Store, g1: Store, g2: Store, o1: seq<nat>, o2: seq<nat>,
                                      r0: seq<nat>, r1: seq<nat>, r2: seq<nat>, i: nat)
    requires Sized(p1, g0) && Filtered(p1, g0, g1, o1) && Sized(p2, g1) && Filtered(p2, g1, g2, o2)
    requires Acyclic(g0, r0) && Acyclic(g1, r1) && Acyclic(g2, r2) && i < |g0|
    ensures SameContent(g2[Core(g2, r2, |g0|, i)], g0[i])
  {
    CoreOriginal(g0, r0, i);
    CoreKept(p1, g0, g1, o1, r0, r1, |g0|, i);
    CoreKept(p2, g1, g2, o2, r1, r2, |g0|, i);
  }

  lemma {:induction false} PlanFilter(pass: Pass, g0: Store, plan: Plan, i: nat)
    requires IsPlan(pass, g0, plan) && i < |g0|
    ensures plan.filter[i] == Filter(pass, g0[i].kind)
  {
    assert PlanFits(pass, g0[i], plan.filter[i], plan.moved[i], plan.above[i]);
  }

  /** Every original client is under prot_client, and that under trace; the object its
      parents refer to is the trace. */
  lemma {:induction false} ClientChain(p1: Plan, p2: Plan, g0: Store, g1: Store, g2: Store, o1: seq<nat>, o2: seq<nat>, i: nat)
    returns (m: nat, n: nat)
    requires IsPlan(First, g0, p1) && Filtered(p1, g0, g1, o1) && Complete(p1, g0, o1)
    requires IsPlan(Second, g1, p2) && Filtered(p2, g1, g2, o2) && Complete(p2, g1, o2)
    requires i < |g0| && g0[i].kind == "protocol/client"
    ensures |g0| <= n < m < |g2| && SameContent(g2[n], g0[i])
    ensures g2[i].kind == "debug/trace" && g2[i].subvols == [m]
    ensures g2[m].kind == "features/prot_client" && g2[m].subvols == [n]
  {
    PlanFilter(First, g0, p1, i);
    var t := Positions(p1, g0, g1, o1, i);
    n := |g0| + t;
    assert g1[i].kind == "features/prot_client" && g1[n].kind == "protocol/client";
    m := TraceAbove(p2, g1, g2, o2, i);
    SecondLeaves(p2, g1, g2, o2, n);
  }

  /** The second pass puts trace above a prot_client. */
  lemma {:induction false} TraceAbove(plan: Plan, g1: Store, g2: Store, origin: seq<nat>, i: nat) returns (m: nat)
    requires IsPlan(Second, g1, plan) && Filtered(plan, g1, g2, origin) && Complete(plan, g1, origin)
    requires i < |g1| && g1[i].kind == "features/prot_client"
    ensures |g1| <= m < |g2| && g2[i].kind == "debug/trace" && g2[i].subvols == [m] && SameContent(g2[m], g1[i])
  {
    PlanFilter(Second, g1, plan, i);
    var u := Positions(plan, g1, g2, origin, i);
    m := |g1| + u;
  }

  /** Objects the plan has no filter for stay as they are. */
  lemma {:induction false} Untouched(plan: Plan, g0: Store, g: Store, origin: seq<nat>, i: nat)
    requires Sized(plan, g0) && Filtered(plan, g0, g, origin) && i < |g0| && plan.filter[i].None?
    ensures g[i] == g0[i]
  {
    if i in origin {
      var t := Positions(plan, g0, g, origin, i);
    }
  }

  /** A distribute is under prot_dht alone, and unchanged below. */
  lemma {:induction false} DistributeChain(p1: Plan, p2: Plan, g0: Store, g1: Store, g2: Store, o1: seq<nat>, o2: seq<nat>, i: nat)
    returns (n: nat)
    requires IsPlan(First, g0, p1) && Filtered(p1, g0, g1, o1) && Complete(p1, g0, o1)
    requires IsPlan(Second, g1, p2) && Filtered(p2, g1, g2, o2)
    requires i < |g0| && g0[i].kind == "cluster/distribute"
    ensures |g0| <= n < |g1| && SameContent(g2[n], g0[i])
    ensures g2[i].kind == "features/prot_dht" && g2[i].subvols == [n]
  {
    PlanFilter(First, g0, p1, i);
    var t := Positions(p1, g0, g1, o1, i);
    n := |g0| + t;
    SecondLeaves(p2, g1, g2, o2, i);
    SecondLeaves(p2, g1, g2, o2, n);
  }

  /** The second pass leaves everything but a prot_client alone. */
  lemma {:induction false} SecondLeaves(plan: Plan, g1: Store, g2: Store, origin: seq<nat>, i: nat)
    requires IsPlan(Second, g1, plan) && Filtered(plan, g1, g2, origin) && i < |g1| && g1[i].kind != "features/prot_client"
    ensures g2[i] == g1[i]
  {
    PlanFilter(Second, g1, plan, i);
    Untouched(plan, g1, g2, origin, i);
  }

  /** The first pass leaves everything but a distribute and a client alone. */
  lemma {:induction false} FirstLeaves(plan: Plan, g0: Store, g1: Store, origin: seq<nat>, i: nat)
    requires IsPlan(First, g0, plan) && Filtered(plan, g0, g1, origin) && i < |g0|
    requires g0[i].kind != "cluster/distribute" && g0[i].kind != "protocol/client"
    ensures g1[i] == g0[i]
  {
    PlanFilter(First, g0, plan, i);
    Untouched(plan, g0, g1, origin, i);
  }

  /** A prot_client that was there before is under trace alone, and unchanged below. */
  lemma {:induction false} EarlierFilterChain(p1: Plan, p2: Plan, g0: Store, g1: Store, g2: Store, o1: seq<nat>, o2: seq<nat>, i: nat)
    returns (n: nat)
    requires IsPlan(First, g0, p1) && Filtered(p1, g0, g1, o1)
    requires IsPlan(Second, g1, p2) && Filtered(p2, g1, g2, o2) && Complete(p2, g1, o2)
    requires i < |g0| && g0[i].kind == "features/prot_client"
    ensures |g1| <= n < |g2| && SameContent(g2[n], g0[i])
    ensures g2[i].kind == "debug/trace" && g2[i].subvols == [n]
  {
    FirstLeaves(p1, g0, g1, o1, i);
    n := TraceAbove(p2, g1, g2, o2, i);
  }

  /** Every other translator is as it was. */
  lemma {:induction false} OthersStay(p1: Plan, p2: Plan, g0: Store, g1: Store, g2: Store, o1: seq<nat>, o2: seq<nat>, i: nat)
    requires IsPlan(First, g0, p1) && Filtered(p1, g0, g1, o1) && IsPlan(Second, g1, p2) && Filtered(p2, g1, g2, o2)
    requires i < |g0| && g0[i].kind != "cluster/distribute" && g0[i].kind != "protocol/client" && g0[i].kind != "features/prot_client"
    ensures g2[i] == g0[i]
  {
    FirstLeaves(p1, g0, g1, o1, i);
    SecondLeaves(p2, g1, g2, o2, i);
  }

  // ----------------------------------------------------------------------- names

  /** The name object j has after the pass. */
  function FinalName(plan: Plan, g0: Store, j: nat): string
    requires Sized(plan, g0) && j < |g0|
  {
    if plan.filter[j].Some? then plan.above[j] else g0[j].name
  }

  /** The names a pass gives and those it leaves are all different. */
  predicate Fresh(plan: Plan, g0: Store)
    requires Sized(plan, g0)
  {
    && (forall i, j :: 0 <= i < j < |g0| ==> FinalName(plan, g0, i) != FinalName(plan, g0, j))
    && (forall i, j :: 0 <= i < j < |g0| && plan.filter[i].Some? && plan.filter[j].Some? ==> plan.moved[i] != plan.moved[j])
    && (forall i, j :: 0 <= i < |g0| && 0 <= j < |g0| && plan.filter[i].Some? ==> plan.moved[i] != FinalName(plan, g0, j))
  }

  predicate UniquelyNamed(g: Store) {
    forall i, j :: 0 <= i < j < |g| ==> g[i].name != g[j].name
  }

  lemma {:induction false} NameAfter(plan: Plan, g0: Store, g: Store, origin: seq<nat>, j: nat)
    requires Sized(plan, g0) && Filtered(plan, g0, g, origin) && Complete(plan, g0, origin) && j < |g|
    ensures j < |g0| ==> g[j].name == FinalName(plan, g0, j)
    ensures j >= |g0| ==> var i := origin[j - |g0|]; i < |g0| && plan.filter[i].Some? && g[j].name == plan.moved[i]
  {
    if j >= |g0| || j in origin {
      var t := Positions(plan, g0, g, origin, j);
    }
  }

  lemma {:induction false} FreshUnique(plan: Plan, g0: Store, g: Store, origin: seq<nat>)
    requires Sized(plan, g0) && Filtered(plan, g0, g, origin) && Complete(plan, g0, origin) && Fresh(plan, g0)
    ensures UniquelyNamed(g)
  {
    forall i, j | 0 <= i < j < |g|
      ensures g[i].name != g[j].name
    {
      NameAfter(plan, g0, g, origin, i);
      NameAfter(plan, g0, g, origin, j);
    }
  }

  lemma {:induction false} UniqueFresh(plan: Plan, g0: Store, g: Store, origin: seq<nat>)
    requires Sized(plan, g0) && Filtered(plan, g0, g, origin) && Complete(plan, g0, origin) && UniquelyNamed(g)
    ensures Fresh(plan, g0)
  {
    forall i, j | 0 <= i < j < |g0|
      ensures FinalName(plan, g0, i) != FinalName(plan, g0, j)
    {
      NameAfter(plan, g0, g, origin, i);
      NameAfter(plan, g0, g, origin, j);
    }
    forall i, j | 0 <= i < |g0| && 0 <= j < |g0| && plan.filter[i].Some?
      ensures plan.moved[i] != FinalName(plan, g0, j)
      ensures i < j && plan.filter[j].Some? ==> plan.moved[i] != plan.moved[j]
    {
      NameAfter(plan, g0, g, origin, j);
      var t := Positions(plan, g0, g, origin, i);
      if i < j && plan.filter[j].Some? {
        var u := Positions(plan, g0, g, origin, j);
      }
    }
  }

  /** A complete pass leaves the names unique if and only if the names it generates are
      fresh. */
  lemma {:induction false} UniqueIffFresh(plan: Plan, g0: Store, g: Store, origin: seq<nat>)
    requires Sized(plan, g0) && Filtered(plan, g0, g, origin) && Complete(plan, g0, origin)
    ensures UniquelyNamed(g) <==> Fresh(plan, g0)
  {
    if Fresh(plan, g0) {
      FreshUnique(plan, g0, g, origin);
    } else if UniquelyNamed(g) {
      UniqueFresh(plan, g0, g, origin);
    }
  }

  // ------------------------------------------------------------------ the dictionary

  /** The dictionary finds every object under its own name. */
  predicate Indexed(g: Store, graph: map<string, nat>) {
    forall i :: 0 <= i < |g| ==> g[i].name in graph && graph[g[i].name] == i
  }

  /** Objects that the pass will not rename any more. */
  predicate Settled(plan: Plan, g0: Store, origin: seq<nat>, j: nat)
    requires Sized(plan, g0)
  {
    j >= |g0| || j in origin || plan.filter[j].None?
  }

  predicate SettledIndexed(plan: Plan, g0: Store, g: Store, origin: seq<nat>, graph: map<string, nat>)
    requires Sized(plan, g0)
  {
    forall j :: 0 <= j < |g| && Settled(plan, g0, origin, j) ==> g[j].name in graph && graph[g[j].name] == j
  }

  lemma {:induction false} SettledName(plan: Plan, g0: Store, g: Store, origin: seq<nat>, j: nat)
    requires Sized(plan, g0) && Filtered(plan, g0, g, origin) && j < |g| && Settled(plan, g0, origin, j)
    ensures j < |g0| ==> g[j].name == FinalName(plan, g0, j)
    ensures j >= |g0| ==> var i := origin[j - |g0|]; i < |g0| && i in origin && plan.filter[i].Some? && g[j].name == plan.moved[i]
  {
    if j >= |g0| || j in origin {
      var t := Positions(plan, g0, g, origin, j);
    }
  }

  /** Entries made by a push do not disturb those of settled objects. */
  lemma {:induction false} IndexPush(plan: Plan, g0: Store, g: Store, origin: seq<nat>, graph: map<string, nat>, i: nat, g1: Store)
    requires Sized(plan, g0) && Filtered(plan, g0, g, origin) && SettledIndexed(plan, g0, g, origin, graph) && Fresh(plan, g0)
    requires i < |g0| && i !in origin
    requires |g1| == |g| + 1 && Slot(plan, g0, g1, i, |g|) && forall j :: 0 <= j < |g| && j != i ==> g1[j] == g[j]
    ensures SettledIndexed(plan, g0, g1, origin + [i], graph[plan.moved[i] := |g|][plan.above[i] := i])
  {
    forall j | 0 <= j < |g1| && Settled(plan, g0, origin + [i], j)
      ensures g1[j].name in graph[plan.moved[i] := |g|][plan.above[i] := i]
      ensures graph[plan.moved[i] := |g|][plan.above[i] := i][g1[j].name] == j
    {
      assert FinalName(plan, g0, i) == plan.above[i];
      if j != i && j < |g| {
        SettledName(plan, g0, g, origin, j);
        assert g1[j] == g[j];
      }
    }
  }

  // ------------------------------------------------------------------- one visit

  /** The store and dictionary after push_filter of a filter of the given type. */
  predicate Pushed(g: Store, graph: map<string, nat>, i: nat, kind: string, opts: map<string, string>, g1: Store, graph1: map<string, nat>) {
    && i < |g| && Suffix(g[i].kind).Some? && Suffix(kind).Some?
    && var moved := NewName(g[i].name, Suffix(g[i].kind).value);
       var above := FilterName(g[i].name, Suffix(g[i].kind).value, Suffix(kind).value);
       g1 == Push(g, i, moved, above, kind, opts) && graph1 == graph[moved := |g|][above := i]
  }

  /** push_filter on a translator of type a/b with a filter of type c/d.  If its name
      mentions "-b", first after pre, it keeps the name and the filter is called the same
      with "-d" there; otherwise "-b" and "-d" are appended. */
  lemma {:induction false} PushedAs(g: Store, graph: map<string, nat>, i: nat, opts: map<string, string>, g1: Store, graph1: map<string, nat>,
                                    a: string, b: string, c: string, d: string, pre: string, post: string)
    requires Pushed(g, graph, i, c + "/" + d, opts, g1, graph1) && g[i].kind == a + "/" + b
    requires '/' !in a && '/' !in b && '/' !in c && '/' !in d
    ensures |g1| == |g| + 1 && g1[i] == Xlator(g1[i].name, c + "/" + d, opts, [|g|]) && g1[|g|] == g[i].(name := g1[|g|].name)
    ensures graph1 == graph[g1[|g|].name := |g|][g1[i].name := i] && forall j :: 0 <= j < |g| && j != i ==> g1[j] == g[j]
    ensures g[i].name == pre + ("-" + b) + post && (forall j: nat :: j < |pre| ==> !Occurs(g[i].name, "-" + b, j)) ==>
              g1[|g|].name == g[i].name && g1[i].name == pre + ("-" + d) + post
    ensures (forall j: nat :: !Occurs(g[i].name, "-" + b, j)) ==>
              g1[|g|].name == g[i].name + ("-" + b) && g1[i].name == g[i].name + ("-" + d)
  {
    SuffixIs(a, b, "");
    SuffixIs(c, d, "");
    PushedNames(g[i].name, "-" + b, "-" + d, pre, post);
  }

  /** An object that still asks for a filter has not been given one. */
  lemma {:induction false} StillWanted(pass: Pass, plan: Plan, g0: Store, g: Store, origin: seq<nat>, v: nat)
    requires IsPlan(pass, g0, plan) && Filtered(plan, g0, g, origin) && v < |g0|
    ensures Filter(pass, g[v].kind).Some? <==> plan.filter[v].Some? && v !in origin
    ensures Filter(pass, g[v].kind).Some? ==> g[v] == g0[v] && plan.filter[v] == Filter(pass, g[v].kind)
  {
    assert PlanFits(pass, g0[v], plan.filter[v], plan.moved[v], plan.above[v]);
    if v in origin {
      var t := Positions(plan, g0, g, origin, v);
      NotAgain(pass, g0[v].kind);
    }
  }

  lemma {:induction false} PushedSlot(pass: Pass, plan: Plan, g0: Store, g: Store, graph: map<string, nat>,
                                      v: nat, kind: string, g1: Store, graph1: map<string, nat>)
    requires IsPlan(pass, g0, plan) && v < |g0| && v < |g| && g[v] == g0[v] && plan.filter[v] == Some(kind)
    requires Pushed(g, graph, v, kind, map[], g1, graph1)
    ensures Slot(plan, g0, g1, v, |g|) && graph1 == graph[plan.moved[v] := |g|][plan.above[v] := v]
    ensures |g1| == |g| + 1 && forall j :: 0 <= j < |g| && j != v ==> g1[j] == g[j]
  {
    assert PlanFits(pass, g0[v], plan.filter[v], plan.moved[v], plan.above[v]);
  }

  /** The pass so far: which objects it has filtered, and, if the names are fresh, that
      the dictionary finds every object it will not rename any more. */
  predicate Progress(plan: Plan, g0: Store, named: bool, g: Store, origin: seq<nat>, graph: map<string, nat>)
    requires Sized(plan, g0)
  {
    && Filtered(plan, g0, g, origin)
    && (forall n :: n in graph ==> graph[n] < |g|)
    && (named ==> SettledIndexed(plan, g0, g, origin, graph))
  }

  /** The dictionary after the objects in origin have been filtered in that order, from
      graph0: the t-th push enters the translator it made, then the filter. */
  function Recorded(plan: Plan, g0: Store, graph0: map<string, nat>, origin: seq<nat>): map<string, nat>
    requires Sized(plan, g0) && forall t :: 0 <= t < |origin| ==> origin[t] < |g0|
  {
    if origin == [] then graph0
    else
      var n := |origin| - 1;
      Recorded(plan, g0, graph0, origin[..n])[plan.moved[origin[n]] := |g0| + n][plan.above[origin[n]] := origin[n]]
  }

  lemma {:induction false} RecordedNext(plan: Plan, g0: Store, graph0: map<string, nat>, origin: seq<nat>, v: nat)
    requires Sized(plan, g0) && v < |g0| && forall t :: 0 <= t < |origin| ==> origin[t] < |g0|
    ensures forall t :: 0 <= t < |origin + [v]| ==> (origin + [v])[t] < |g0|
    ensures Recorded(plan, g0, graph0, origin + [v]) ==
            Recorded(plan, g0, graph0, origin)[plan.moved[v] := |g0| + |origin|][plan.above[v] := v]
  {
    assert (origin + [v])[..|origin|] == origin;
  }

  predicate InRange(ids: seq<nat>, graph: map<string, nat>, n: nat) {
    (forall t :: 0 <= t < |ids| ==> ids[t] < n) && forall name :: name in graph ==> graph[name] < n
  }

  /** A pass over a store with dictionary graph0 filtered exactly the objects that the
      dictionary held and the plan has a filter for, and entered them in the dictionary. */
  ghost predicate PassDone(plan: Plan, g0: Store, graph0: map<string, nat>, origin: seq<nat>, graph: map<string, nat>) {
    && Sized(plan, g0) && InRange(origin, graph0, |g0|)
    && (forall i :: i in origin <==> i in graph0.Values && plan.filter[i].Some?)
    && graph == Recorded(plan, g0, graph0, origin)
  }

  lemma {:induction false} VisitKept(pass: Pass, plan: Plan, g0: Store, named: bool, g: Store, origin: seq<nat>, graph: map<string, nat>,
                                     v: nat, kind: string, g1: Store, graph1: map<string, nat>)
    requires IsPlan(pass, g0, plan) && Progress(plan, g0, named, g, origin, graph) && v < |g0| && (named ==> Fresh(plan, g0))
    requires Filter(pass, g[v].kind) == Some(kind) && Pushed(g, graph, v, kind, map[], g1, graph1)
    ensures v !in origin && Progress(plan, g0, named, g1, origin + [v], graph1)
  {
    StillWanted(pass, plan, g0, g, origin, v);
    PushedSlot(pass, plan, g0, g, graph, v, kind, g1, graph1);
    FilteredPush(plan, g0, g, origin, v, g1);
    if named {
      IndexPush(plan, g0, g, origin, graph, v, g1);
    }
  }

  /** Once every object in the dictionary has been visited. */
  lemma {:induction false} AllVisited(pass: Pass, plan: Plan, g0: Store, g: Store, origin: seq<nat>, graph: map<string, nat>)
    requires IsPlan(pass, g0, plan) && Progress(plan, g0, true, g, origin, graph) && Complete(plan, g0, origin)
    ensures Indexed(g, graph)
  {
    forall j | 0 <= j < |g|
      ensures g[j].name in graph && graph[g[j].name] == j
    {
      assert Settled(plan, g0, origin, j);
    }
  }

  /** The pass has visited the first k of the objects listed in values. */
  ghost predicate SoFar(plan: Plan, g0: Store, graph0: map<string, nat>, named: bool, values: seq<nat>, k: nat,
                        g: Store, origin: seq<nat>, graph: map<string, nat>)
    requires Sized(plan, g0)
  {
    && k <= |values| && (forall t :: 0 <= t < |values| ==> values[t] < |g0|)
    && Progress(plan, g0, named, g, origin, graph) && InRange(origin, graph0, |g0|) && graph == Recorded(plan, g0, graph0, origin)
    && (forall i :: i in origin ==> i in values && plan.filter[i].Some?)
    && (forall t :: 0 <= t < k && plan.filter[values[t]].Some? ==> values[t] in origin)
  }

  lemma {:induction false} SoFarStart(plan: Plan, g0: Store, graph0: map<string, nat>, named: bool, values: seq<nat>)
    requires Sized(plan, g0) && (forall t :: 0 <= t < |values| ==> values[t] < |g0|) && (forall n :: n in graph0 ==> graph0[n] < |g0|)
    requires named ==> Indexed(g0, graph0)
    ensures SoFar(plan, g0, graph0, named, values, 0, g0, [], graph0)
  {
  }

  lemma {:induction false} SoFarNext(plan: Plan, g0: Store, graph0: map<string, nat>, named: bool, values: seq<nat>, k: nat,
                                     g: Store, origin: seq<nat>, graph: map<string, nat>, g1: Store, after: seq<nat>, graph1: map<string, nat>)
    requires Sized(plan, g0) && SoFar(plan, g0, graph0, named, values, k, g, origin, graph) && k < |values|
    requires after == if plan.filter[values[k]].Some? && values[k] !in origin then origin + [values[k]] else origin
    requires Progress(plan, g0, named, g1, after, graph1) && InRange(after, graph0, |g0|) && graph1 == Recorded(plan, g0, graph0, after)
    ensures SoFar(plan, g0, graph0, named, values, k + 1, g1, after, graph1)
  {
    forall i | i in origin
      ensures i in after
    {
    }
    forall t | 0 <= t < k + 1 && plan.filter[values[t]].Some?
      ensures values[t] in after
    {
      if t == k && values[k] !in origin {
        assert after[|origin|] == values[k];
      }
    }
  }

  /** When all objects of the dictionary have been visited. */
  lemma {:induction false} SoFarEnd(pass: Pass, plan: Plan, g0: Store, graph0: map<string, nat>, named: bool, values: seq<nat>,
                                    g: Store, origin: seq<nat>, graph: map<string, nat>)
    requires IsPlan(pass, g0, plan) && SoFar(plan, g0, graph0, named, values, |values|, g, origin, graph)
    requires forall v :: v in values <==> v in graph0.Values
    ensures PassDone(plan, g0, graph0, origin, graph)
    ensures Indexed(g0, graph0) ==> Complete(plan, g0, origin)
    ensures Indexed(g0, graph0) && named ==> Indexed(g, graph)
  {
    if Indexed(g0, graph0) {
      forall i | 0 <= i < |g0| && plan.filter[i].Some?
        ensures i in origin
      {
        assert g0[i].name in graph0 && graph0[g0[i].name] == i;
        assert i in graph0.Values;
      }
      if named {
        AllVisited(pass, plan, g0, g, origin, graph);
      }
    }
  }

  // -------------------------------------------------------------------- deleting

  /** Every reference to one object replaced by another. */
  function Redirect(ids: seq<nat>, victim: nat, child: nat): (r: seq<nat>)
    ensures |r| == |ids|
    ensures forall k :: 0 <= k < |ids| ==> r[k] == if ids[k] == victim then child else ids[k]
  {
    seq(|ids|, k requires 0 <= k < |ids| => if ids[k] == victim then child else ids[k])
  }

  /** What delete of the victim, whose one subvolume is child, does to the store. */
  predicate Redirected(g: Store, graph: map<string, nat>, victim: nat, child: nat, g2: Store) {
    && |g2| == |g|
    && forall j :: 0 <= j < |g| ==>
         g2[j] == if j in graph.Values then g[j].(subvols := Redirect(g[j].subvols, victim, child)) else g[j]
  }

  // --------------------------------------------- push_filter as volfilter.py has it

  /** The name without the suffix of its type, if something is left in front of it. */
  function Stem(name: string, oldType: string): string {
    if |name| > |oldType| && name[|name| - |oldType|..] == oldType then name[..|name| - |oldType|] else name
  }

  lemma {:induction false} StemIs(p: string, t: string, name: string)
    ensures p != "" ==> Stem(p + t, t) == p
    ensures |name| <= |t| || name[|name| - |t|..] != t ==> Stem(name, t) == name
  {
    assert (p + t)[|p|..] == t && (p + t)[..|p|] == p;
  }

  /** The store and dictionary after volfilter.py's push_filter. */
  predicate VolPushed(g: Store, graph: map<string, nat>, i: nat, kind: string, opts: map<string, string>, g1: Store, graph1: map<string, nat>) {
    && i < |g| && Suffix(g[i].kind).Some? && Suffix(kind).Some?
    && var stem := Stem(g[i].name, Suffix(g[i].kind).value);
       var moved, above := stem + Suffix(g[i].kind).value, stem + Suffix(kind).value;
       g1 == Push(g, i, moved, above, kind, opts) && graph1 == graph[moved := |g|][above := i]
  }

  /** volfilter.py's push_filter on a translator of type a/b with a filter of type c/d.  If
      its name ends in "-b", with something in front, it keeps the name and the filter has
      "-d" instead; otherwise "-b" and "-d" are appended. */
  lemma {:induction false} VolPushedAs(g: Store, graph: map<string, nat>, i: nat, opts: map<string, string>, g1: Store, graph1: map<string, nat>,
                                       a: string, b: string, c: string, d: string, pre: string)
    requires VolPushed(g, graph, i, c + "/" + d, opts, g1, graph1) && g[i].kind == a + "/" + b
    requires '/' !in a && '/' !in b && '/' !in c && '/' !in d
    ensures |g1| == |g| + 1 && g1[i] == Xlator(g1[i].name, c + "/" + d, opts, [|g|]) && g1[|g|] == g[i].(name := g1[|g|].name)
    ensures graph1 == graph[g1[|g|].name := |g|][g1[i].name := i] && forall j :: 0 <= j < |g| && j != i ==> g1[j] == g[j]
    ensures pre != "" && g[i].name == pre + ("-" + b) ==> g1[|g|].name == g[i].name && g1[i].name == pre + ("-" + d)
    ensures |g[i].name| <= |b| + 1 || g[i].name[|g[i].name| - |b| - 1..] != "-" + b ==>
              g1[|g|].name == g[i].name + ("-" + b) && g1[i].name == g[i].name + ("-" + d)
  {
    SuffixIs(a, b, "");
    SuffixIs(c, d, "");
    StemIs(pre, "-" + b, g[i].name);
  }

  /** A push that raises because the filter's type has no slash has begun: the object is
      renamed and a copy of it below is in the dictionary, but not yet under it. */
  predicate VolHalfPushed(g: Store, graph: map<string, nat>, i: nat, g1: Store, graph1: map<string, nat>) {
    && i < |g| && Suffix(g[i].kind).Some?
    && var stem := Stem(g[i].name, Suffix(g[i].kind).value);
       var moved := stem + Suffix(g[i].kind).value;
       g1 == g[i := g[i].(name := stem)] + [g[i].(name := moved)] && graph1 == graph[moved := |g|]
  }

  lemma {:induction false} VolHalfPushedAs(g: Store, graph: map<string, nat>, i: nat, g1: Store, graph1: map<string, nat>,
                                           a: string, b: string, pre: string)
    requires VolHalfPushed(g, graph, i, g1, graph1) && g[i].kind == a + "/" + b && '/' !in a && '/' !in b
    ensures |g1| == |g| + 1 && g1[i] == g[i].(name := g1[i].name) && g1[|g|] == g[i].(name := g1[i].name + ("-" + b))
    ensures graph1 == graph[g1[|g|].name := |g|] && forall j :: 0 <= j < |g| && j != i ==> g1[j] == g[j]
    ensures pre != "" && g[i].name == pre + ("-" + b) ==> g1[i].name == pre
    ensures |g[i].name| <= |b| + 1 || g[i].name[|g[i].name| - |b| - 1..] != "-" + b ==> g1[i].name == g[i].name
  {
    SuffixIs(a, b, "");
    StemIs(pre, "-" + b, g[i].name);
  }

  /** No subvolume of any object is the object i. */
  predicate Unreferenced(g: Store, i: nat) {
    forall j, k :: 0 <= j < |g| && 0 <= k < |g[j].subvols| ==> g[j].subvols[k] != i
  }

  /** Deleting a pushed filter: every parent that the dictionary still holds gets its
      old content back, with the object below in the filter's place; that object is
      what i was.  No reference to the filter is left if and only if every parent is
      still in the dictionary. */
  lemma {:induction false} DeleteUndoesPush(g: Store, graph: map<string, nat>, i: nat, kind: string, opts: map<string, string>,
                                            g1: Store, graph1: map<string, nat>, g2: Store)
    requires VolPushed(g, graph, i, kind, opts, g1, graph1) && Redirected(g1, graph1, i, |g|, g2)
    requires i !in g[i].subvols && forall j, k :: 0 <= j < |g| && 0 <= k < |g[j].subvols| ==> g[j].subvols[k] < |g|
    ensures g1[i].subvols == [|g|]
    ensures forall j :: 0 <= j < |g| && j != i ==>
              g2[j] == if j in graph1.Values then g[j].(subvols := Redirect(g[j].subvols, i, |g|)) else g[j]
    ensures SameContent(g2[|g|], g[i])
    ensures Unreferenced(g2, i) <==> forall j :: 0 <= j < |g| && j != i && i in g[j].subvols ==> j in graph1.Values
  {
    assert Redirect(g[i].subvols, i, |g|) == g[i].subvols;
    forall j | 0 <= j < |g| && j != i && i in g[j].subvols && j !in graph1.Values
      ensures !Unreferenced(g2, i)
    {
      var k :| 0 <= k < |g[j].subvols| && g[j].subvols[k] == i;
      assert g2[j].subvols[k] == i;
    }
  }

  /** With names in order beforehand and new ones that no other object has, every object
      is still in the dictionary after the push, so the deletion is complete. */
  lemma {:induction false} PushKeepsEntries(g: Store, graph: map<string, nat>, i: nat, kind: string, opts: map<string, string>,
                                            g1: Store, graph1: map<string, nat>, j: nat)
    requires VolPushed(g, graph, i, kind, opts, g1, graph1) && Indexed(g, graph) && j < |g| && j != i
    requires g[j].name != g1[i].name && g[j].name != g1[|g|].name
    ensures j in graph1.Values
  {
    assert g[j].name in graph1 && graph1[g[j].name] == j;
  }
}
