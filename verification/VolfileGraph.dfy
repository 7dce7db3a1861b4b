/**
  The graph of translator objects that the scripts change in place
  (extras/volfilter.py, extras/prot_filter.py).
*/
module VolfileGraph {
  import opened Options
  import opened Volfile
  import opened VolfilePrint
  import opened VolfileFilter

  /** The translators in done have been dumped and printed, after pre. */
  ghost predicate Dumped(g: Store, done: seq<nat>, texts: seq<seq<string>>, pre: seq<string>, dumped: set<nat>, stream: seq<string>) {
    && |texts| == |g| && WellOrdered(g, done) && dumped == (set x | x in done)
    && stream == pre + Spaced(texts, done, |done|)
  }

  lemma {:induction false} VisitPush(g: Store, rank: seq<nat>, c: seq<nat>, sv: nat)
    requires Acyclic(g, rank) && sv < |g| && WellOrdered(g, c) && sv !in c
    ensures WellOrdered(g, Visit(g, rank, g[sv].subvols, c, rank[sv]) + [sv])
  {
    VisitOrdered(g, rank, g[sv].subvols, c, rank[sv]);
    NotBelow(g, rank, g[sv].subvols, c, rank[sv], sv);
    OrderedPush(g, Visit(g, rank, g[sv].subvols, c, rank[sv]), sv);
  }

  lemma {:induction false} SpacedPush(texts: seq<seq<string>>, o: seq<nat>, sv: nat)
    requires sv < |texts| && (forall i :: 0 <= i < |o| ==> o[i] < |texts|)
    ensures forall i :: 0 <= i < |o + [sv]| ==> (o + [sv])[i] < |texts|
    ensures Spaced(texts, o + [sv], |o + [sv]|) == Spaced(texts, o, |o|) + texts[sv] + [""]
  {
    SpacedPrefix(texts, o, [sv], |o|);
  }

  /** One more subvolume printed. */
  lemma {:induction false} DumpedPush(g: Store, o: seq<nat>, texts: seq<seq<string>>, pre: seq<string>, dumped: set<nat>,
                                      stream: seq<string>, sv: nat)
    requires sv < |g| && WellOrdered(g, o + [sv]) && Dumped(g, o, texts, pre, dumped, stream)
    ensures Dumped(g, o + [sv], texts, pre, dumped + {sv}, stream + texts[sv] + [""])
  {
    SpacedPush(texts, o, sv);
    var s := Spaced(texts, o, |o|);
    assert pre + s + texts[sv] + [""] == pre + (s + texts[sv] + [""]);
  }

  /** A subvolume and everything below it has been printed, then the empty line. */
  lemma {:induction false} ChildPrinted(g: Store, rank: seq<nat>, c: seq<nat>, texts: seq<seq<string>>, pre: seq<string>, dumped: set<nat>,
                                        stream: seq<string>, sv: nat)
    requires Acyclic(g, rank) && sv < |g| && |texts| == |g| && WellOrdered(g, c) && sv !in c
    requires var sub := Visit(g, rank, g[sv].subvols, c, rank[sv]);
             exists before :: Dumped(g, sub, texts, pre, dumped, before) && stream == before + texts[sv]
    ensures var sub := Visit(g, rank, g[sv].subvols, c, rank[sv]); Dumped(g, sub + [sv], texts, pre, dumped + {sv}, stream + [""])
  {
    var sub := Visit(g, rank, g[sv].subvols, c, rank[sv]);
    var before :| Dumped(g, sub, texts, pre, dumped, before) && stream == before + texts[sv];
    VisitPush(g, rank, c, sv);
    DumpedPush(g, sub, texts, pre, dumped, before, sv);
  }

  /** The order in which the loop over the subvolumes goes on. */
  lemma {:induction false} VisitNext(g: Store, rank: seq<nat>, ids: seq<nat>, k: nat, c: seq<nat>, r: nat)
    requires Acyclic(g, rank) && Below(g, rank, ids, r) && k < |ids|
    ensures Visit(g, rank, ids[k..], c, r) ==
            if ids[k] in c then Visit(g, rank, ids[k + 1..], c, r)
            else Visit(g, rank, ids[k + 1..], Visit(g, rank, g[ids[k]].subvols, c, rank[ids[k]]) + [ids[k]], r)
  {
    assert ids[k..][0] == ids[k] && ids[k..][1..] == ids[k + 1..];
  }

  class Graph {
    var xlators: seq<Xlator>
    var graph: map<string, nat>
    var dumped: set<nat>
    var stream: seq<string>

    constructor (xs: seq<Xlator>, names: map<string, nat>)
      ensures xlators == xs && graph == names && dumped == {} && stream == []
    {
      xlators, graph, dumped, stream := xs, names, {}, [];
    }

    method PrintBlock(i: nat, keys: seq<seq<string>>, ghost rank: seq<nat>, ghost texts: seq<seq<string>>)
      requires Acyclic(xlators, rank) && KeyOrders(xlators, keys) && Texts(xlators, rank, keys, texts) && i < |xlators|
      modifies this`stream
      ensures stream == old(stream) + texts[i]
    {
      var x, ks := xlators[i], keys[i];
      var out := ["volume" + [' '] + x.name, "    type" + [' '] + x.kind];
      ghost var head := out;
      for j := 0 to |ks|
        invariant out == head + OptionLines(x, ks[..j])
      {
        assert ks[..j + 1][..j] == ks[..j];
        out := out + [OptionLine(ks[j], x.opts[ks[j]])];
      }
      assert ks[..|ks|] == ks;
      if x.subvols != [] {
        out := out + ["    subvolumes" + [' '] + Join(Names(xlators, x.subvols))];
      }
      assert out == head + OptionLines(x, ks) + SubvolLines(xlators, x.subvols);
      stream := stream + (out + ["end-volume"]);
      assert texts[i] == Block(xlators, keys, i);
    }

    /** generate: the subvolumes not yet dumped, each followed by an empty line, then
        the translator itself.  keys gives each translator's options in the order the
        dictionary enumerates them; texts are the blocks. */
    method Generate(last: nat, keys: seq<seq<string>>, ghost rank: seq<nat>, ghost texts: seq<seq<string>>,
                    ghost done: seq<nat>, ghost pre: seq<string>)
      requires Acyclic(xlators, rank) && KeyOrders(xlators, keys) && Texts(xlators, rank, keys, texts) && last < |xlators|
      requires Dumped(xlators, done, texts, pre, dumped, stream)
      modifies this`dumped, this`stream
      ensures Acyclic(xlators, rank)
      ensures var o := Visit(xlators, rank, xlators[last].subvols, done, rank[last]);
              exists before :: Dumped(xlators, o, texts, pre, dumped, before) && stream == before + texts[last]
      decreases rank[last]
    {
      ghost var c := done;
      var subs := xlators[last].subvols;
      ghost var o := Visit(xlators, rank, subs, done, rank[last]);
      for k := 0 to |subs|
        invariant Dumped(xlators, c, texts, pre, dumped, stream)
        invariant Visit(xlators, rank, subs[k..], c, rank[last]) == o
      {
        var sv := subs[k];
        VisitNext(xlators, rank, subs, k, c, rank[last]);
        if sv !in dumped {
          Generate(sv, keys, rank, texts, c, pre);
          ChildPrinted(xlators, rank, c, texts, pre, dumped, stream, sv);
          stream := stream + [""];
          dumped := dumped + {sv};
          c := Visit(xlators, rank, xlators[sv].subvols, c, rank[sv]) + [sv];
        }
      }
      assert subs[|subs|..] == [];
      PrintBlock(last, keys, rank, texts);
    }

    /** Printing a graph none of whose translators was dumped before. */
    method GenerateAll(root: nat, keys: seq<seq<string>>, ghost rank: seq<nat>, ghost texts: seq<seq<string>>)
      requires Acyclic(xlators, rank) && KeyOrders(xlators, keys) && Texts(xlators, rank, keys, texts) && root < |xlators|
      requires dumped == {} && stream == []
      modifies this`dumped, this`stream
      ensures Acyclic(xlators, rank) && stream == Printed(xlators, rank, texts, root)
    {
      Generate(root, keys, rank, texts, [], []);
      ghost var o := Visit(xlators, rank, xlators[root].subvols, [], rank[root]);
      assert stream == Spaced(texts, o, |o|) + texts[root];
    }

    /** The names of the moved translator and of the filter. */
    static method PushNames(name: string, oldType: string, newType: string) returns (newName: string, oldName: string)
      ensures newName == NewName(name, oldType) && oldName == FilterName(name, oldType, newType)
    {
      var pos := Find(name, oldType);
      if pos.Some? {
        newName := name;
        oldName := newName[..pos.value] + newType + newName[pos.value + |oldType|..];
      } else {
        newName := name + oldType;
        oldName := name + newType;
      }
    }

    /** push_filter; false when a type has no slash, which raises before any change. */
    method PushFilter(i: nat, kind: string, opts: map<string, string>) returns (ok: bool)
      requires i < |xlators|
      modifies this`xlators, this`graph
      ensures ok == ('/' in kind && '/' in old(xlators)[i].kind)
      ensures !ok ==> xlators == old(xlators) && graph == old(graph)
      ensures ok ==> Pushed(old(xlators), old(graph), i, kind, opts, xlators, graph)
    {
      var x := xlators[i];
      SuffixIff(kind);
      SuffixIff(x.kind);
      var newType, oldType := Suffix(kind), Suffix(x.kind);
      if newType.None? || oldType.None? {
        return false;
      }
      var newName, oldName := PushNames(x.name, oldType.value, newType.value);
      var n := |xlators|;
      xlators := xlators + [x.(name := newName)];
      graph := graph[newName := n];
      BecomeFilter(i, oldName, kind, opts, n);
      assert xlators == Push(old(xlators), i, newName, oldName, kind, opts);
      return true;
    }

    /** push_filter of volfilter.py; false when a type has no slash.  If that is the
        filter's type, the push has begun by then. */
    method VolPushFilter(i: nat, kind: string, opts: map<string, string>) returns (ok: bool)
      requires i < |xlators|
      modifies this`xlators, this`graph
      ensures ok == ('/' in old(xlators)[i].kind && '/' in kind)
      ensures ok ==> VolPushed(old(xlators), old(graph), i, kind, opts, xlators, graph)
      ensures '/' !in old(xlators)[i].kind ==> xlators == old(xlators) && graph == old(graph)
      ensures !ok && '/' in old(xlators)[i].kind ==> VolHalfPushed(old(xlators), old(graph), i, xlators, graph)
    {
      var x := xlators[i];
      SuffixIff(kind);
      SuffixIff(x.kind);
      var suffix, above := Suffix(x.kind), Suffix(kind);
      if suffix.None? {
        return false;
      }
      var name := StripSuffix(x.name, suffix.value);
      var n := |xlators|;
      xlators := xlators[i := x.(name := name)] + [x.(name := name + suffix.value)];
      graph := graph[name + suffix.value := n];
      if above.None? {
        return false;
      }
      BecomeFilter(i, name + above.value, kind, opts, n);
      return true;
    }

    /** The name without the suffix. */
    static method StripSuffix(name: string, suffix: string) returns (stem: string)
      ensures stem == Stem(name, suffix)
    {
      stem := name;
      if |name| > |suffix| {
        if name[|name| - |suffix|..] == suffix {
          stem := name[..|name| - |suffix|];
        }
      }
    }

    /** The end of push_filter: the object becomes the filter above `below`. */
    method BecomeFilter(i: nat, name: string, kind: string, opts: map<string, string>, below: nat)
      requires i < |xlators|
      modifies this`xlators, this`graph
      ensures xlators == old(xlators)[i := Xlator(name, kind, opts, [below])] && graph == old(graph)[name := i]
    {
      xlators := xlators[i := Xlator(name, kind, opts, [below])];
      graph := graph[name := i];
    }

    /** graph.values(): the object of every entry, in no particular order; an object with
        two names comes twice. */
    method Values() returns (values: seq<nat>)
      ensures forall v :: v in graph.Values ==> v in values
      ensures forall k :: 0 <= k < |values| ==> values[k] in graph.Values
    {
      values := [];
      var names := graph.Keys;
      while names != {}
        invariant names <= graph.Keys
        invariant forall k :: 0 <= k < |values| ==> values[k] in graph.Values
        invariant forall n :: n in graph && n !in names ==> graph[n] in values
        decreases |names|
      {
        var n :| n in names;
        names := names - {n};
        values := values + [graph[n]];
      }
    }

    /** One turn of a pass: filter the object if it is of a wanted type. */
    method VisitObject(pass: Pass, ghost plan: Plan, ghost g0: Store, ghost graph0: map<string, nat>, ghost named: bool,
                       ghost origin: seq<nat>, v: nat)
      returns (ghost after: seq<nat>)
      requires IsPlan(pass, g0, plan) && v < |g0| && Progress(plan, g0, named, xlators, origin, graph) && (named ==> Fresh(plan, g0))
      requires InRange(origin, graph0, |g0|) && graph == Recorded(plan, g0, graph0, origin)
      modifies this`xlators, this`graph
      ensures after == if plan.filter[v].Some? && v !in origin then origin + [v] else origin
      ensures Progress(plan, g0, named, xlators, after, graph)
      ensures InRange(after, graph0, |g0|) && graph == Recorded(plan, g0, graph0, after)
    {
      StillWanted(pass, plan, g0, xlators, origin, v);
      after := origin;
      var filter := Filter(pass, xlators[v].kind);
      if filter.Some? {
        ghost var g, dict := xlators, graph;
        PassSuffix(pass, xlators[v].kind, filter.value);
        SuffixIff(xlators[v].kind);
        SuffixIff(filter.value);
        var ok := PushFilter(v, filter.value, map[]);
        PushedSlot(pass, plan, g0, g, dict, v, filter.value, xlators, graph);
        RecordedNext(plan, g0, graph0, origin, v);
        VisitKept(pass, plan, g0, named, g, origin, dict, v, filter.value, xlators, graph);
        after := origin + [v];
      }
    }

    /** One of the two loops of the main block.  With the names in order beforehand and
        fresh ones generated, every object of a wanted type is filtered and the
        dictionary finds every object under its new name. */
    method RunPass(pass: Pass, ghost plan: Plan) returns (ghost origin: seq<nat>)
      requires IsPlan(pass, xlators, plan) && forall n :: n in graph ==> graph[n] < |xlators|
      modifies this`xlators, this`graph
      ensures IsPlan(pass, old(xlators), plan) && Filtered(plan, old(xlators), xlators, origin)
      ensures PassDone(plan, old(xlators), old(graph), origin, graph)
      ensures forall n :: n in graph ==> graph[n] < |xlators|
      ensures Indexed(old(xlators), old(graph)) ==> Complete(plan, old(xlators), origin)
      ensures Indexed(old(xlators), old(graph)) && Fresh(plan, old(xlators)) ==> Indexed(xlators, graph)
    {
      ghost var g0, graph0 := xlators, graph;
      ghost var named := Indexed(g0, graph0) && Fresh(plan, g0);
      origin := [];
      var values := Values();
      SoFarStart(plan, g0, graph0, named, values);
      for k := 0 to |values|
        invariant SoFar(plan, g0, graph0, named, values, k, xlators, origin, graph)
      {
        ghost var g, before, dict := xlators, origin, graph;
        origin := VisitObject(pass, plan, g0, graph0, named, origin, values[k]);
        SoFarNext(plan, g0, graph0, named, values, k, g, before, dict, xlators, origin, graph);
      }
      SoFarEnd(pass, plan, g0, graph0, named, values, xlators, origin, graph);
    }

    /** The main block: give up if none of the configured volumes is in the file,
        otherwise filter, and filter the filters. */
    method Protect(volumes: seq<string>, ghost p1: Plan)
      returns (found: bool, ghost g1: Store, ghost graph1: map<string, nat>, ghost o1: seq<nat>, ghost p2: Plan, ghost o2: seq<nat>)
      requires IsPlan(First, xlators, p1) && (forall n :: n in graph ==> graph[n] < |xlators|)
      modifies this`xlators, this`graph
      ensures found <==> exists k :: 0 <= k < |volumes| && volumes[k] in old(graph)
      ensures !found ==> xlators == old(xlators) && graph == old(graph)
      ensures found ==> Sized(p1, old(xlators)) && Filtered(p1, old(xlators), g1, o1) && IsPlan(Second, g1, p2) && Filtered(p2, g1, xlators, o2)
      ensures found ==> PassDone(p1, old(xlators), old(graph), o1, graph1) && PassDone(p2, g1, graph1, o2, graph)
      ensures found && Indexed(old(xlators), old(graph)) && Fresh(p1, old(xlators)) ==> Complete(p1, old(xlators), o1) && Complete(p2, g1, o2)
      ensures found && Indexed(old(xlators), old(graph)) && Fresh(p1, old(xlators)) && Fresh(p2, g1) ==> Indexed(xlators, graph)
    {
      g1, graph1, o1, o2, p2 := [], map[], [], [], Plan([], [], []);
      found := false;
      for k := 0 to |volumes|
        invariant found <==> exists j :: 0 <= j < k && volumes[j] in graph
      {
        if volumes[k] in graph {
          found := true;
          break;
        }
      }
      if found {
        o1 := RunPass(First, p1);
        g1, graph1 := xlators, graph;
        p2 := PlanOf(Second, g1);
        o2 := RunPass(Second, p2);
      }
    }

    /** delete; false when the victim does not have exactly one subvolume. */
    method Delete(victim: nat) returns (ok: bool)
      requires victim < |xlators| && (forall n :: n in graph ==> graph[n] < |xlators|)
      requires |xlators[victim].subvols| == 1 ==> xlators[victim].subvols[0] != victim
      modifies this`xlators
      ensures ok == (|old(xlators)[victim].subvols| == 1)
      ensures !ok ==> xlators == old(xlators)
      ensures ok ==> Redirected(old(xlators), graph, victim, old(xlators)[victim].subvols[0], xlators)
    {
      if |xlators[victim].subvols| != 1 {
        return false;
      }
      ghost var g0 := xlators;
      var child := xlators[victim].subvols[0];
      var values := Values();
      assert forall k :: 0 <= k < |values| ==> values[k] < |g0|;
      for k := 0 to |values|
        invariant |xlators| == |g0| && xlators[victim].subvols == g0[victim].subvols
        invariant forall j :: 0 <= j < |g0| ==>
          xlators[j] == if j in values[..k] then g0[j].(subvols := Redirect(g0[j].subvols, victim, child)) else g0[j]
      {
        var v := values[k];
        var subs := RedirectAll(xlators[v].subvols, victim, child);
        xlators := xlators[v := xlators[v].(subvols := subs)];
        assert values[..k + 1] == values[..k] + [v];
      }
      assert values[..|values|] == values;
      return true;
    }

    /** list.index: the first position of x. */
    static method IndexOf(s: seq<nat>, x: nat) returns (k: nat)
      requires x in s
      ensures k < |s| && s[k] == x && forall j :: 0 <= j < k ==> s[j] != x
    {
      k := 0;
      while s[k] != x
        invariant k < |s| && forall j :: 0 <= j < k ==> s[j] != x
        decreases |s| - k
      {
        k := k + 1;
      }
    }

    /** While the victim occurs, replace its first occurrence. */
    static method RedirectAll(ids: seq<nat>, victim: nat, child: nat) returns (subs: seq<nat>)
      requires child != victim
      ensures subs == Redirect(ids, victim, child)
    {
      subs := ids;
      ghost var at: nat := 0;
      while victim in subs
        invariant at <= |subs| == |ids|
        invariant forall k :: 0 <= k < at ==> subs[k] == Redirect(ids, victim, child)[k]
        invariant forall k :: at <= k < |ids| ==> subs[k] == ids[k]
        decreases |ids| - at
      {
        var k := IndexOf(subs, victim);
        assert k >= at;
        subs := subs[k := child];
        at := k + 1;
      }
      assert forall k :: at <= k < |ids| ==> ids[k] != victim;
    }
  }
}
