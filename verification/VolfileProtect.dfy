/**
  What extras/prot_filter.py writes back can be loaded again, and is the filtered graph.
*/
module VolfileProtect {
  import opened Options
  import opened Tokens
  import opened Volfile
  import opened VolfilePrint
  import opened VolfileRoundTrip
  import opened VolfileFilter
  import opened VolfileGraph

  predicate NoSpace(s: string) {
    forall i :: 0 <= i < |s| ==> !IsSpace(s[i])
  }

  lemma {:induction false} SuffixWord(kind: string)
    requires NoSpace(kind) && Suffix(kind).Some?
    ensures Word(Suffix(kind).value)
  {
  }

  lemma {:induction false} NamesWord(name: string, oldType: string, newType: string)
    requires Word(name) && Word(oldType) && Word(newType)
    ensures Word(NewName(name, oldType)) && Word(FilterName(name, oldType, newType))
  {
  }

  lemma {:induction false} FilteredWord(pass: Pass, kind: string)
    requires Filter(pass, kind).Some?
    ensures Word(Filter(pass, kind).value)
  {
  }

  lemma {:induction false} PlanWords(pass: Pass, x: Xlator, filter: Option<string>, moved: string, above: string)
    requires Word(x.name) && Word(x.kind) && PlanFits(pass, x, filter, moved, above) && filter.Some?
    ensures Word(moved) && Word(above) && Word(filter.value)
  {
    FilteredWord(pass, x.kind);
    SuffixWord(x.kind);
    SuffixWord(filter.value);
    NamesWord(x.name, Suffix(x.kind).value, Suffix(filter.value).value);
  }

  /** A pass over printable translators leaves printable translators. */
  lemma {:induction false} FilteredReadable(pass: Pass, plan: Plan, g0: Store, g: Store, origin: seq<nat>)
    requires IsPlan(pass, g0, plan) && Filtered(plan, g0, g, origin)
    requires forall i :: 0 <= i < |g0| ==> Readable(g0[i])
    ensures forall j :: 0 <= j < |g| ==> Readable(g[j])
  {
    forall j | 0 <= j < |g|
      ensures Readable(g[j])
    {
      if j >= |g0| || j in origin {
        var t := Positions(plan, g0, g, origin, j);
        var i := origin[t];
        assert PlanFits(pass, g0[i], plan.filter[i], plan.moved[i], plan.above[i]);
        PlanWords(pass, g0[i], plan.filter[i], plan.moved[i], plan.above[i]);
      }
    }
  }

  /** Both passes keep the graph acyclic. */
  lemma {:induction false} BothAcyclic(p1: Plan, p2: Plan, g0: Store, g1: Store, g2: Store, o1: seq<nat>, o2: seq<nat>, rank: seq<nat>)
    returns (r2: seq<nat>)
    requires Sized(p1, g0) && Filtered(p1, g0, g1, o1) && Sized(p2, g1) && Filtered(p2, g1, g2, o2) && Acyclic(g0, rank)
    ensures Acyclic(g2, r2)
  {
    FilteredAcyclic(p1, g0, g1, o1, rank);
    FilteredAcyclic(p2, g1, g2, o2, Ranks(g0, o1, rank));
    r2 := Ranks(g1, o2, Ranks(g0, o1, rank));
  }

  /** Loading the file that is written back gives the filtered graph below the root,
      which is still the object it was, provided the input was printable and the names
      of the second pass are fresh. */
  lemma {:induction false} WrittenBack(p1: Plan, p2: Plan, g0: Store, g1: Store, g2: Store, o1: seq<nat>, o2: seq<nat>,
                                       r2: seq<nat>, keys: seq<seq<string>>, texts: seq<seq<string>>, root: nat)
    returns (q: Parser)
    requires IsPlan(First, g0, p1) && Filtered(p1, g0, g1, o1)
    requires IsPlan(Second, g1, p2) && Filtered(p2, g1, g2, o2) && Complete(p2, g1, o2) && Fresh(p2, g1)
    requires Acyclic(g2, r2) && KeyOrders(g2, keys) && Texts(g2, r2, keys, texts) && root < |g0|
    requires forall i :: 0 <= i < |g0| ==> Readable(g0[i])
    ensures Parse(Printed(g2, r2, texts, root)) == Ok(q)
    ensures var o := Order(g2, r2, root); (forall i :: 0 <= i < |o| ==> o[i] < |g2|) && Rebuilt(q, g2, o, |o|) && o[|o| - 1] == root
  {
    FilteredReadable(First, p1, g0, g1, o1);
    FilteredReadable(Second, p2, g1, g2, o2);
    FreshUnique(p2, g1, g2, o2);
    OrderFacts(g2, r2, root);
    PrintableAll(g2, Order(g2, r2, root));
    q := RoundTrip(g2, r2, keys, texts, root);
  }

  lemma {:induction false} PrintableAll(g: Store, o: seq<nat>)
    requires WellOrdered(g, o) && UniquelyNamed(g) && forall j :: 0 <= j < |g| ==> Readable(g[j])
    ensures Printable(g, o)
  {
    forall i, j | 0 <= i < j < |o|
      ensures g[o[i]].name != g[o[j]].name
    {
      assert o[i] != o[j];
      assert o[i] < o[j] || o[j] < o[i];
    }
  }

  // --------------------------------------------------------------- the main block

  /** What happened to a file: its translators, those after each pass, and the root. */
  datatype Passes = Passes(g0: Store, g1: Store, g2: Store, p1: Plan, p2: Plan, o1: seq<nat>, o2: seq<nat>, root: nat)

  ghost predicate Passed(t: Passes) {
    && IsPlan(First, t.g0, t.p1) && Filtered(t.p1, t.g0, t.g1, t.o1)
    && IsPlan(Second, t.g1, t.p2) && Filtered(t.p2, t.g1, t.g2, t.o2) && t.root < |t.g0|
  }

  /** Translators that are typed and uniquely named, and names that stay so. */
  ghost predicate Orderly(t: Passes)
    requires Passed(t)
  {
    && (forall i :: 0 <= i < |t.g0| ==> t.g0[i].kind != "") && UniquelyNamed(t.g0)
    && Fresh(t.p1, t.g0) && Fresh(t.p2, t.g1)
  }

  /** Translator x of a loaded file is translator y of the original; o says which object
      each translator of the file was. */
  predicate Like(x: Xlator, y: Xlator, o: seq<nat>) {
    && x.kind == y.kind && x.opts == y.opts && |x.subvols| == |y.subvols|
    && forall k :: 0 <= k < |x.subvols| ==> x.subvols[k] < |o| && o[x.subvols[k]] == y.subvols[k]
  }

  /** Object i of the original is in the loaded file, and below the filters above it is a
      translator like the original. */
  ghost predicate Contracts(q: Store, o: seq<nat>, g2: Store, r2: seq<nat>, g0: Store, i: nat)
    requires Acyclic(g2, r2) && i < |g0| <= |g2|
  {
    i in o && |q| == |o| && exists y :: 0 <= y < |o| && o[y] == Core(g2, r2, |g0|, i) && Like(q[y], g0[i], o)
  }

  lemma {:induction false} CoreInside(g: Store, rank: seq<nat>, n: nat, i: nat, d: set<nat>)
    requires Acyclic(g, rank) && i < |g| && Closed(g, d) && i in d
    ensures Core(g, rank, n, i) in d
    decreases rank[i]
  {
    if |g[i].subvols| == 1 && g[i].subvols[0] >= n {
      CoreInside(g, rank, n, g[i].subvols[0], d);
    }
  }

  /** A closed part of the filtered graph holds a closed part of the original. */
  lemma {:induction false} KeptClosed(g0: Store, r0: seq<nat>, g2: Store, r2: seq<nat>, all: set<nat>, kept: set<nat>)
    requires Acyclic(g0, r0) && Acyclic(g2, r2) && |g0| <= |g2| && Closed(g2, all) && kept == (set x | x in all && x < |g0|)
    requires forall j :: 0 <= j < |g0| ==> SameContent(g2[Core(g2, r2, |g0|, j)], g0[j])
    ensures Closed(g0, kept)
  {
    forall x | x in kept
      ensures forall k :: 0 <= k < |g0[x].subvols| ==> g0[x].subvols[k] in kept
    {
      CoreInside(g2, r2, |g0|, x, all);
      assert SameContent(g2[Core(g2, r2, |g0|, x)], g0[x]);
    }
  }

  lemma {:induction false} OrderInside(g: Store, rank: seq<nat>, root: nat, d: set<nat>, i: nat)
    requires Acyclic(g, rank) && root < |g| && Closed(g, d) && root in d && i in Order(g, rank, root)
    ensures i in d
  {
    OrderFacts(g, rank, root);
  }

  lemma {:induction false} OrderClosed(g: Store, rank: seq<nat>, root: nat) returns (all: set<nat>)
    requires Acyclic(g, rank) && root < |g|
    ensures Closed(g, all) && root in all && forall x :: x in all <==> x in Order(g, rank, root)
  {
    OrderFacts(g, rank, root);
    var o := Order(g, rank, root);
    all := set x | x in o;
    assert o[|o| - 1] == root;
  }

  /** What the root reached in the original it reaches through the filters. */
  lemma {:induction false} StillReached(g0: Store, r0: seq<nat>, g2: Store, r2: seq<nat>, root: nat, i: nat)
    requires Acyclic(g0, r0) && Acyclic(g2, r2) && root < |g0| <= |g2| && i in Order(g0, r0, root)
    requires forall j :: 0 <= j < |g0| ==> SameContent(g2[Core(g2, r2, |g0|, j)], g0[j])
    ensures i < |g0| && i in Order(g2, r2, root) && Core(g2, r2, |g0|, i) in Order(g2, r2, root)
  {
    var all := OrderClosed(g2, r2, root);
    var kept := set x | x in all && x < |g0|;
    KeptClosed(g0, r0, g2, r2, all, kept);
    OrderInside(g0, r0, root, kept, i);
    CoreInside(g2, r2, |g0|, i, all);
  }

  lemma {:induction false} ReadBack(q: Parser, o: seq<nat>, g2: Store, r2: seq<nat>, g0: Store, i: nat)
    requires Acyclic(g2, r2) && i < |g0| <= |g2| && (forall x :: 0 <= x < |o| ==> o[x] < |g2|) && Rebuilt(q, g2, o, |o|)
    requires i in o && Core(g2, r2, |g0|, i) in o && SameContent(g2[Core(g2, r2, |g0|, i)], g0[i])
    ensures Contracts(q.xlators, o, g2, r2, g0, i)
  {
    var y :| 0 <= y < |o| && o[y] == Core(g2, r2, |g0|, i);
    assert Same(q.xlators, g2, o, y);
  }

  lemma {:induction false} LoadedIndexed(p: Parser)
    requires Formed(p) && UniquelyNamed(p.xlators)
    ensures Indexed(p.xlators, p.graph)
  {
    forall i | 0 <= i < |p.xlators|
      ensures p.xlators[i].name in p.graph && p.graph[p.xlators[i].name] == i
    {
      var j := p.graph[p.xlators[i].name];
      assert p.xlators[j].name == p.xlators[i].name;
      assert j < i || i < j || i == j;
    }
  }

  /** Every translator's contraction, whatever the names. */
  lemma {:induction false} AllContracted(t: Passes, r0: seq<nat>, r2: seq<nat>)
    requires Passed(t) && Acyclic(t.g0, r0) && Acyclic(t.g2, r2)
    ensures |t.g0| <= |t.g2| && forall j :: 0 <= j < |t.g0| ==> SameContent(t.g2[Core(t.g2, r2, |t.g0|, j)], t.g0[j])
  {
    FilteredAcyclic(t.p1, t.g0, t.g1, t.o1, r0);
    forall j | 0 <= j < |t.g0|
      ensures SameContent(t.g2[Core(t.g2, r2, |t.g0|, j)], t.g0[j])
    {
      Contracted(t.p1, t.p2, t.g0, t.g1, t.g2, t.o1, t.o2, r0, Ranks(t.g0, t.o1, r0), r2, j);
    }
  }

  /** The text loads as the filtered graph with the same root, and contracting that gives
      back everything the root reached in the original. */
  ghost predicate Faithful(t: Passes, r0: seq<nat>, r2: seq<nat>, text: seq<string>, q: Parser)
    requires Passed(t) && Acyclic(t.g0, r0) && Acyclic(t.g2, r2) && |t.g0| <= |t.g2|
  {
    var o := Order(t.g2, r2, t.root);
    && Parse(text) == Ok(q)
    && (forall x :: 0 <= x < |o| ==> o[x] < |t.g2|) && Rebuilt(q, t.g2, o, |o|) && o[|o| - 1] == t.root
    && forall i :: i in Order(t.g0, r0, t.root) ==> i < |t.g0| && Contracts(q.xlators, o, t.g2, r2, t.g0, i)
  }

  lemma {:induction false} PrintedFaithful(t: Passes, r0: seq<nat>, r2: seq<nat>, keys: seq<seq<string>>, texts: seq<seq<string>>) returns (q: Parser)
    requires Passed(t) && Orderly(t) && Complete(t.p2, t.g1, t.o2) && Acyclic(t.g0, r0) && Acyclic(t.g2, r2)
    requires KeyOrders(t.g2, keys) && Texts(t.g2, r2, keys, texts) && forall i :: 0 <= i < |t.g0| ==> Readable(t.g0[i])
    ensures |t.g0| <= |t.g2| && Faithful(t, r0, r2, Printed(t.g2, r2, texts, t.root), q)
  {
    AllContracted(t, r0, r2);
    q := WrittenBack(t.p1, t.p2, t.g0, t.g1, t.g2, t.o1, t.o2, r2, keys, texts, t.root);
    forall i | i in Order(t.g0, r0, t.root)
      ensures i < |t.g0| && Contracts(q.xlators, Order(t.g2, r2, t.root), t.g2, r2, t.g0, i)
    {
      StillReached(t.g0, r0, t.g2, r2, t.root, i);
      ReadBack(q, Order(t.g2, r2, t.root), t.g2, r2, t.g0, i);
    }
  }

  /** The keys of one dictionary in some order. */
  method Keys(x: Xlator) returns (keys: seq<string>)
    ensures KeyOrder(x, keys)
  {
    keys := [];
    var left := x.opts.Keys;
    while left != {}
      invariant left <= x.opts.Keys && forall k :: k in x.opts ==> (k in left || k in keys)
      invariant forall i :: 0 <= i < |keys| ==> keys[i] in x.opts && keys[i] !in left
      invariant forall i, j :: 0 <= i < j < |keys| ==> keys[i] != keys[j]
      decreases |left|
    {
      var k :| k in left;
      left := left - {k};
      keys := keys + [k];
    }
  }

  method AllKeys(g: Store) returns (keys: seq<seq<string>>)
    ensures KeyOrders(g, keys)
  {
    keys := [];
    for i := 0 to |g|
      invariant |keys| == i && forall j :: 0 <= j < i ==> KeyOrder(g[j], keys[j])
    {
      var ks := Keys(g[i]);
      keys := keys + [ks];
    }
  }

  lemma {:induction false} RankBoth(p: Parser, t: Passes) returns (r0: seq<nat>, r2: seq<nat>)
    requires Formed(p) && Passed(t) && t.g0 == p.xlators
    ensures Acyclic(t.g0, r0) && Acyclic(t.g2, r2)
  {
    r0 := seq(|p.xlators|, i => i);
    LoadedAcyclic(p, r0);
    r2 := BothAcyclic(t.p1, t.p2, t.g0, t.g1, t.g2, t.o1, t.o2, r0);
  }

  lemma {:induction false} Concluded(p: Parser, t: Passes, r0: seq<nat>, r2: seq<nat>, keys: seq<seq<string>>, texts: seq<seq<string>>)
    returns (q: Parser)
    requires Formed(p) && Passed(t) && t.g0 == p.xlators && Acyclic(t.g0, r0) && Acyclic(t.g2, r2)
    requires KeyOrders(t.g2, keys) && Texts(t.g2, r2, keys, texts)
    requires Indexed(p.xlators, p.graph) && Fresh(t.p1, t.g0) ==> Complete(t.p2, t.g1, t.o2)
    ensures |t.g0| <= |t.g2| && (Orderly(t) ==> Faithful(t, r0, r2, Printed(t.g2, r2, texts, t.root), q))
  {
    q := START;
    AllContracted(t, r0, r2);
    if Orderly(t) {
      LoadedIndexed(p);
      forall i | 0 <= i < |t.g0|
        ensures Readable(t.g0[i])
      {
        assert Loaded(p.xlators[i], i);
      }
      q := PrintedFaithful(t, r0, r2, keys, texts);
    }
  }

  datatype Written = NotLoaded(error: Error) | NotConfigured | Rewritten(lines: seq<string>)

  /** The filters are put in: the passes over the graph that was loaded. */
  method RunPasses(p: Parser, volumes: seq<string>) returns (found: bool, graph: Graph, ghost t: Passes, ghost d1: map<string, nat>)
    requires (forall n :: n in p.graph ==> p.graph[n] < |p.xlators|) && p.last == if p.xlators == [] then None else Some(|p.xlators| - 1)
    ensures found <==> exists k :: 0 <= k < |volumes| && volumes[k] in p.graph
    ensures fresh(graph) && graph.dumped == {} && graph.stream == []
    ensures found ==> Passed(t) && t.g0 == p.xlators && t.g2 == graph.xlators && p.last == Some(t.root)
    ensures found ==> PassDone(t.p1, t.g0, p.graph, t.o1, d1) && PassDone(t.p2, t.g1, d1, t.o2, graph.graph)
    ensures found && Indexed(p.xlators, p.graph) && Fresh(t.p1, t.g0) ==> Complete(t.p2, t.g1, t.o2)
  {
    graph := new Graph(p.xlators, p.graph);
    ghost var p1 := PlanOf(First, p.xlators);
    ghost var g1, o1, p2, o2;
    found, g1, d1, o1, p2, o2 := graph.Protect(volumes, p1);
    t := Passes(p.xlators, g1, graph.xlators, p1, p2, o1, o2, if p.last.Some? then p.last.value else 0);
  }

  /** The script from reading the file to writing it back: the text written is the printed
      graph after both passes, each of which filtered exactly what it found in the
      dictionary.  r0 and r2 witness that the graphs are acyclic. */
  method ProtectFile(lines: seq<string>, volumes: seq<string>)
    returns (w: Written, ghost t: Passes, ghost d1: map<string, nat>, ghost d2: map<string, nat>, keys: seq<seq<string>>,
             ghost r0: seq<nat>, ghost r2: seq<nat>, ghost q: Parser)
    ensures Parse(lines).Err? ==> w == NotLoaded(Parse(lines).error)
    ensures Parse(lines).Ok? ==> (w.Rewritten? <==> exists k :: 0 <= k < |volumes| && volumes[k] in Parse(lines).value.graph)
    ensures Parse(lines).Ok? && !w.Rewritten? ==> w.NotConfigured?
    ensures w.Rewritten? ==>
              && Parse(lines).Ok? && Passed(t) && t.g0 == Parse(lines).value.xlators && Parse(lines).value.last == Some(t.root)
              && PassDone(t.p1, t.g0, Parse(lines).value.graph, t.o1, d1) && PassDone(t.p2, t.g1, d1, t.o2, d2)
              && Acyclic(t.g0, r0) && Acyclic(t.g2, r2) && |t.g0| <= |t.g2|
              && KeyOrders(t.g2, keys) && w.lines == Printed(t.g2, r2, AllTexts(t.g2, r2, keys), t.root)
              && (Orderly(t) ==> Faithful(t, r0, r2, w.lines, q))
  {
    t, r0, r2, q := Passes([], [], [], Plan([], [], []), Plan([], [], []), [], [], 0), [], [], START;
    d1, d2, keys := map[], map[], [];
    var r := Load(lines);
    if r.Err? {
      w := NotLoaded(r.error);
      return;
    }
    LoadedGraph(lines);
    var found, graph;
    found, graph, t, d1 := RunPasses(r.value, volumes);
    if !found {
      w := NotConfigured;
      return;
    }
    d2 := graph.graph;
    r0, r2 := RankBoth(r.value, t);
    keys := AllKeys(graph.xlators);
    ghost var texts := AllTexts(graph.xlators, r2, keys);
    graph.GenerateAll(r.value.last.value, keys, r2, texts);
    w := Rewritten(graph.stream);
    q := Concluded(r.value, t, r0, r2, keys, texts);
  }
}
