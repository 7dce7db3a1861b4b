/**
  Loading what generate printed (extras/volfilter.py): the reachable graph comes back.
*/
module VolfileRoundTrip {
  import opened Options
  import opened Tokens
  import opened Volfile
  import opened VolfilePrint

  // ------------------------------------------------------------- words of a line

  lemma {:induction false} Indented(line: string, w: string)
    requires Word(w) && line == "    " + w
    ensures Words(line) == [w]
  {
    assert line == "   " + [' '] + w;
    SplitAppend("   ", ' ', w, IsSpace);
    SplitClean(w, IsSpace);
    assert "   "[1..] == "  " && "  "[1..] == " " && " "[1..] == "";
    assert Split(" ", IsSpace) == [];
    assert Split("  ", IsSpace) == [];
    assert Split("   ", IsSpace) == [];
  }

  lemma {:induction false} FirstWord(head: string, rest: string, line: string)
    requires line == head + [' '] + rest
    ensures Words(line) == Words(head) + Words(rest)
  {
    SplitAppend(head, ' ', rest, IsSpace);
  }

  lemma {:induction false} TwoWords(head: string, keyword: string, w: string, line: string)
    requires Words(head) == [keyword] && Word(w) && line == head + [' '] + w
    ensures Words(line) == [keyword, w]
  {
    FirstWord(head, w, line);
    SplitClean(w, IsSpace);
  }

  lemma {:induction false} VolumeWords(name: string, line: string)
    requires Word(name) && line == "volume" + [' '] + name
    ensures Words(line) == ["volume", name]
  {
    SplitClean("volume", IsSpace);
    TwoWords("volume", "volume", name, line);
  }

  lemma {:induction false} TypeWords(kind: string, line: string)
    requires Word(kind) && line == "    type" + [' '] + kind
    ensures Words(line) == ["type", kind]
  {
    Indented("    type", "type");
    TwoWords("    type", "type", kind, line);
  }

  lemma {:induction false} KeyWords(k: string, v: string, line: string, head: string, keyword: string)
    requires Word(k) && Words(head) == [keyword] && line == head + [' '] + (k + [' '] + v)
    ensures Words(line) == [keyword, k] + Words(v)
  {
    FirstWord(head, k + [' '] + v, line);
    FirstWord(k, v, k + [' '] + v);
    SplitClean(k, IsSpace);
    assert [keyword] + ([k] + Words(v)) == [keyword, k] + Words(v);
  }

  lemma {:induction false} OptionWords(k: string, v: string, line: string)
    requires Word(k) && line == OptionLine(k, v)
    ensures Words(line) == ["option", k] + Words(v)
  {
    Indented("    option", "option");
    KeyWords(k, v, line, "    option", "option");
  }

  lemma {:induction false} SubvolWords(names: seq<string>, line: string)
    requires AllWords(names) && line == "    subvolumes" + [' '] + Join(names)
    ensures Words(line) == ["subvolumes"] + names
  {
    Indented("    subvolumes", "subvolumes");
    FirstWord("    subvolumes", Join(names), line);
    WordsOfJoin(names);
  }

  // -------------------------------------------------------------- one block loaded

  /** The options set by the lines for keys. */
  function Pick(opts: map<string, string>, keys: seq<string>): (m: map<string, string>)
    requires forall i :: 0 <= i < |keys| ==> keys[i] in opts
    ensures forall k :: k in m <==> k in keys
    ensures forall k :: k in m ==> k in opts && m[k] == opts[k]
  {
    if keys == [] then map[] else
      var last := keys[|keys| - 1];
      assert forall k :: k in keys <==> k in keys[..|keys| - 1] || k == last;
      Pick(opts, keys[..|keys| - 1])[last := opts[last]]
  }

  lemma {:induction false} PickAll(x: Xlator, keys: seq<string>)
    requires KeyOrder(x, keys)
    ensures Pick(x.opts, keys) == x.opts
  {
    assert Pick(x.opts, keys).Keys == x.opts.Keys;
  }

  lemma {:induction false} OptionRun(p: Parser, c: Xlator, k: string, v: string, line: string)
    requires p.current == Some(c) && Word(k) && Normal(v) && line == OptionLine(k, v)
    ensures Run(p, [line]) == Ok(p.(current := Some(c.(opts := c.opts[k := v]))))
  {
    OptionWords(k, v, line);
    var ws := Words(line);
    assert ws[0] == "option" && ws[1] == k && ws[2..] == Words(v);
    RunOne(p, line);
  }

  lemma {:induction false} OptionsRun(p: Parser, c: Xlator, x: Xlator, keys: seq<string>)
    requires p.current == Some(c) && c.opts == map[] && OptionsOk(x.opts)
    requires forall i :: 0 <= i < |keys| ==> keys[i] in x.opts
    ensures Run(p, OptionLines(x, keys)) == Ok(p.(current := Some(c.(opts := Pick(x.opts, keys)))))
    decreases |keys|
  {
    if keys != [] {
      var front, k := keys[..|keys| - 1], keys[|keys| - 1];
      OptionsRun(p, c, x, front);
      var q := p.(current := Some(c.(opts := Pick(x.opts, front))));
      var line := OptionLine(k, x.opts[k]);
      RunAppend(p, OptionLines(x, front), [line]);
      OptionRun(q, q.current.value, k, x.opts[k], line);
    }
  }

  /** The subvolumes as the dictionary resolves them. */
  function Found(graph: map<string, nat>, names: seq<string>): seq<nat>
    requires forall k :: 0 <= k < |names| ==> names[k] in graph
  {
    seq(|names|, k requires 0 <= k < |names| => graph[names[k]])
  }

  lemma {:induction false} ResolveKnown(graph: map<string, nat>, names: seq<string>)
    requires forall k :: 0 <= k < |names| ==> names[k] in graph
    ensures Resolve(graph, names) == Ok(Found(graph, names))
  {
    if names == [] {
      assert Found(graph, names) == [];
    } else {
      ResolveKnown(graph, names[1..]);
      assert [graph[names[0]]] + Found(graph, names[1..]) == Found(graph, names);
    }
  }

  lemma {:induction false} SubvolLineRun(p: Parser, c: Xlator, names: seq<string>, line: string)
    requires p.current == Some(c) && c.subvols == [] && AllWords(names) && line == "    subvolumes" + [' '] + Join(names)
    requires forall k :: 0 <= k < |names| ==> names[k] in p.graph
    ensures Run(p, [line]) == Ok(p.(current := Some(c.(subvols := Found(p.graph, names)))))
  {
    SubvolWords(names, line);
    var ws := Words(line);
    assert ws[0] == "subvolumes" && ws[1..] == names;
    ResolveKnown(p.graph, names);
    assert [] + Found(p.graph, names) == Found(p.graph, names);
    RunOne(p, line);
  }

  lemma {:induction false} SubvolRun(p: Parser, c: Xlator, g: Store, ids: seq<nat>)
    requires p.current == Some(c) && c.subvols == [] && forall k :: 0 <= k < |ids| ==> ids[k] < |g|
    requires AllWords(Names(g, ids)) && forall k :: 0 <= k < |ids| ==> Names(g, ids)[k] in p.graph
    ensures Run(p, SubvolLines(g, ids)) == Ok(p.(current := Some(c.(subvols := Found(p.graph, Names(g, ids))))))
  {
    var names := Names(g, ids);
    if ids == [] {
      assert Found(p.graph, names) == c.subvols;
    } else {
      SubvolLineRun(p, c, names, "    subvolumes" + [' '] + Join(names));
    }
  }

  lemma {:induction false} HeadRun(p: Parser, x: Xlator, a: string, b: string)
    requires p.current.None? && Words(a) == ["volume", x.name] && Words(b) == ["type", x.kind]
    ensures Run(p, [a, b]) == Ok(p.(current := Some(Xlator(x.name, x.kind, map[], []))))
  {
    var q := p.(current := Some(Xlator(x.name, "", map[], [])));
    RunOne(p, a);
    RunOne(q, b);
    RunAppend(p, [a], [b]);
    assert [a] + [b] == [a, b];
  }

  lemma {:induction false} EndRun(p: Parser, line: string)
    requires p.current.Some? && Words(line) == ["end-volume"]
    ensures Run(p, [line]) == Ok(Close(p, p.current.value))
  {
    RunOne(p, line);
  }

  /** Four runs in a row. */
  lemma {:induction false} RunFour(p: Parser, q: Parser, q1: Parser, q2: Parser, r: Parser,
                                   head: seq<string>, opts: seq<string>, subs: seq<string>, end: seq<string>)
    requires Run(p, head) == Ok(q) && Run(q, opts) == Ok(q1) && Run(q1, subs) == Ok(q2) && Run(q2, end) == Ok(r)
    ensures Run(p, head + opts + subs + end) == Ok(r)
  {
    RunAppend(p, head, opts);
    RunAppend(p, head + opts, subs);
    RunAppend(p, head + opts + subs, end);
  }

  /** A block whose first two lines and last line are a, b and e. */
  lemma {:induction false} LinesRun(p: Parser, g: Store, keys: seq<string>, i: nat, a: string, b: string, e: string)
    requires p.current.None? && i < |g| && KeyOrder(g[i], keys) && OptionsOk(g[i].opts)
    requires Words(a) == ["volume", g[i].name] && Words(b) == ["type", g[i].kind] && Words(e) == ["end-volume"]
    requires forall k :: 0 <= k < |g[i].subvols| ==> g[i].subvols[k] < |g|
    requires AllWords(Names(g, g[i].subvols))
    requires forall k :: 0 <= k < |g[i].subvols| ==> Names(g, g[i].subvols)[k] in p.graph
    ensures Run(p, [a, b] + OptionLines(g[i], keys) + SubvolLines(g, g[i].subvols) + [e]) ==
            Ok(Close(p, g[i].(subvols := Found(p.graph, Names(g, g[i].subvols)))))
  {
    var x := g[i];
    var c := Xlator(x.name, x.kind, map[], []);
    var q := p.(current := Some(c));
    HeadRun(p, x, a, b);
    OptionsRun(q, c, x, keys);
    PickAll(x, keys);
    var q1 := q.(current := Some(c.(opts := x.opts)));
    SubvolRun(q1, q1.current.value, g, x.subvols);
    var q2 := q1.(current := Some(x.(subvols := Found(p.graph, Names(g, x.subvols)))));
    EndRun(q2, e);
    assert Close(q2, q2.current.value) == Close(p, q2.current.value);
    RunFour(p, q, q1, q2, Close(p, q2.current.value), [a, b], OptionLines(x, keys), SubvolLines(g, x.subvols), [e]);
  }

  /** Reading the block of translator i appends the translator, with its subvolumes
      found by name. */
  lemma {:induction false} BlockRun(p: Parser, g: Store, keys: seq<seq<string>>, i: nat)
    requires p.current.None? && KeyOrders(g, keys) && i < |g| && Readable(g[i])
    requires forall k :: 0 <= k < |g[i].subvols| ==> g[i].subvols[k] < |g|
    requires AllWords(Names(g, g[i].subvols))
    requires forall k :: 0 <= k < |g[i].subvols| ==> Names(g, g[i].subvols)[k] in p.graph
    ensures Run(p, Block(g, keys, i)) == Ok(Close(p, g[i].(subvols := Found(p.graph, Names(g, g[i].subvols)))))
  {
    var a, b := "volume" + [' '] + g[i].name, "    type" + [' '] + g[i].kind;
    VolumeWords(g[i].name, a);
    TypeWords(g[i].kind, b);
    SplitClean("end-volume", IsSpace);
    LinesRun(p, g, keys[i], i, a, b, "end-volume");
  }

  lemma {:induction false} BlankRun(p: Parser, line: string)
    requires line == ""
    ensures Run(p, [line]) == Ok(p)
  {
    RunOne(p, line);
  }

  // ---------------------------------------------------------------- the whole file

  /** Translators that are printed have different names and printable text. */
  ghost predicate Printable(g: Store, o: seq<nat>) {
    && (forall i :: 0 <= i < |o| ==> o[i] < |g| && Readable(g[o[i]]))
    && forall i, j :: 0 <= i < j < |o| ==> g[o[i]].name != g[o[j]].name
  }

  /** Translator i of the reloaded store is translator o[i] of the original, with the
      same name, type, options and subvolumes in the same order. */
  predicate Same(q: Store, g: Store, o: seq<nat>, i: nat)
    requires i < |q| && i < |o| && o[i] < |g|
  {
    var x, y := q[i], g[o[i]];
    && x.name == y.name && x.kind == y.kind && x.opts == y.opts && |x.subvols| == |y.subvols|
    && forall k :: 0 <= k < |x.subvols| ==> x.subvols[k] < i && o[x.subvols[k]] == y.subvols[k]
  }

  /** The loader has rebuilt the first m translators of o. */
  ghost predicate Rebuilt(p: Parser, g: Store, o: seq<nat>, m: nat)
    requires m <= |o| && forall i :: 0 <= i < |o| ==> o[i] < |g|
  {
    && p.current.None? && |p.xlators| == m && p.last == (if m == 0 then None else Some(m - 1))
    && (forall i :: 0 <= i < m ==> Same(p.xlators, g, o, i))
    && (forall i :: 0 <= i < m ==> g[o[i]].name in p.graph && p.graph[g[o[i]].name] == i)
    && forall n :: n in p.graph ==> p.graph[n] < m && g[o[p.graph[n]]].name == n
  }

  lemma {:induction false} ChildKnown(p: Parser, g: Store, o: seq<nat>, m: nat, k: nat)
    requires Printable(g, o) && WellOrdered(g, o) && m < |o| && Rebuilt(p, g, o, m) && k < |g[o[m]].subvols|
    ensures var c := g[o[m]].subvols[k];
            && c < |g| && Word(g[c].name) && g[c].name in p.graph
            && p.graph[g[c].name] < m && o[p.graph[g[c].name]] == c
  {
    var c := g[o[m]].subvols[k];
    assert c in o[..m];
    var i :| 0 <= i < m && o[i] == c;
    assert Readable(g[o[i]]);
  }

  lemma {:induction false} CloseRebuilt(p: Parser, g: Store, o: seq<nat>, m: nat, x: Xlator)
    requires Printable(g, o) && m < |o| && Rebuilt(p, g, o, m)
    requires Same(p.xlators + [x], g, o, m)
    ensures Rebuilt(Close(p, x), g, o, m + 1)
  {
    var q := Close(p, x);
    forall i | 0 <= i < m + 1
      ensures Same(q.xlators, g, o, i)
      ensures g[o[i]].name in q.graph && q.graph[g[o[i]].name] == i
    {
      if i < m {
        assert Same(p.xlators, g, o, i);
        assert g[o[i]].name != g[o[m]].name;
      }
    }
  }

  lemma {:induction false} NextBlock(p: Parser, g: Store, keys: seq<seq<string>>, o: seq<nat>, m: nat) returns (q: Parser)
    requires KeyOrders(g, keys) && Printable(g, o) && WellOrdered(g, o) && m < |o| && Rebuilt(p, g, o, m)
    requires forall k :: 0 <= k < |g[o[m]].subvols| ==> g[o[m]].subvols[k] < |g|
    ensures Run(p, Block(g, keys, o[m])) == Ok(q) && Rebuilt(q, g, o, m + 1)
  {
    var y := g[o[m]];
    forall k | 0 <= k < |y.subvols|
      ensures var c := y.subvols[k];
              && Word(g[c].name) && g[c].name in p.graph
              && p.graph[g[c].name] < m && o[p.graph[g[c].name]] == c
    {
      ChildKnown(p, g, o, m, k);
    }
    BlockRun(p, g, keys, o[m]);
    var x := y.(subvols := Found(p.graph, Names(g, y.subvols)));
    q := Close(p, x);
    CloseRebuilt(p, g, o, m, x);
  }

  lemma {:induction false} RunJoin(s: Parser, p: Parser, q: Parser, a: seq<string>, b: seq<string>)
    requires Run(s, a) == Ok(p) && Run(p, b) == Ok(q)
    ensures Run(s, a + b) == Ok(q)
    ensures Run(s, a + b + [""]) == Ok(q)
  {
    RunAppend(s, a, b);
    BlankRun(q, "");
    RunAppend(s, a + b, [""]);
  }

  /** Each text, read when those before it have been, rebuilds its translator. */
  ghost predicate Reads(g: Store, o: seq<nat>, texts: seq<seq<string>>)
    requires forall i :: 0 <= i < |o| ==> o[i] < |g|
  {
    && |texts| == |g|
    && forall p, m: nat :: m < |o| && Rebuilt(p, g, o, m) ==>
         Run(p, texts[o[m]]).Ok? && Rebuilt(Run(p, texts[o[m]]).value, g, o, m + 1)
  }

  lemma {:induction false} TextRead(g: Store, rank: seq<nat>, keys: seq<seq<string>>, o: seq<nat>, texts: seq<seq<string>>, p: Parser, m: nat)
    requires Acyclic(g, rank) && KeyOrders(g, keys) && Printable(g, o) && WellOrdered(g, o) && m < |o| && Rebuilt(p, g, o, m)
    requires Texts(g, rank, keys, texts)
    ensures Run(p, texts[o[m]]).Ok? && Rebuilt(Run(p, texts[o[m]]).value, g, o, m + 1)
  {
    var q := NextBlock(p, g, keys, o, m);
  }

  lemma {:induction false} TextsRead(g: Store, rank: seq<nat>, keys: seq<seq<string>>, o: seq<nat>, texts: seq<seq<string>>)
    requires Acyclic(g, rank) && KeyOrders(g, keys) && Printable(g, o) && WellOrdered(g, o) && Texts(g, rank, keys, texts)
    ensures Reads(g, o, texts)
  {
    forall p, m: nat | m < |o| && Rebuilt(p, g, o, m)
      ensures Run(p, texts[o[m]]).Ok? && Rebuilt(Run(p, texts[o[m]]).value, g, o, m + 1)
    {
      TextRead(g, rank, keys, o, texts, p, m);
    }
  }

  lemma {:induction false} SpacedRun(g: Store, o: seq<nat>, texts: seq<seq<string>>, m: nat) returns (q: Parser)
    requires (forall i :: 0 <= i < |o| ==> o[i] < |g|) && Reads(g, o, texts) && m <= |o|
    ensures Run(START, Spaced(texts, o, m)) == Ok(q) && Rebuilt(q, g, o, m)
    decreases m
  {
    if m == 0 {
      q := START;
    } else {
      var p := SpacedRun(g, o, texts, m - 1);
      q := Run(p, texts[o[m - 1]]).value;
      RunJoin(START, p, q, Spaced(texts, o, m - 1), texts[o[m - 1]]);
    }
  }

  lemma {:induction false} LastRun(g: Store, o: seq<nat>, texts: seq<seq<string>>, front: seq<nat>, root: nat) returns (q: Parser)
    requires root < |g| && o == front + [root] && (forall i :: 0 <= i < |o| ==> o[i] < |g|) && Reads(g, o, texts)
    requires forall i :: 0 <= i < |front| ==> front[i] < |g|
    ensures Run(START, Spaced(texts, front, |front|) + texts[root]) == Ok(q) && Rebuilt(q, g, o, |o|)
  {
    SpacedPrefix(texts, front, [root], |front|);
    var p := SpacedRun(g, o, texts, |front|);
    q := Run(p, texts[o[|front|]]).value;
    RunJoin(START, p, q, Spaced(texts, front, |front|), texts[root]);
  }

  /** Loading what generate printed rebuilds exactly the reachable graph: same types,
      options and subvolume order, with shared subvolumes shared again, every name in
      the dictionary and the same root. */
  lemma {:induction false} RoundTrip(g: Store, rank: seq<nat>, keys: seq<seq<string>>, texts: seq<seq<string>>, root: nat) returns (q: Parser)
    requires Acyclic(g, rank) && KeyOrders(g, keys) && Texts(g, rank, keys, texts) && root < |g| && Printable(g, Order(g, rank, root))
    ensures Parse(Printed(g, rank, texts, root)) == Ok(q)
    ensures var o := Order(g, rank, root); Rebuilt(q, g, o, |o|) && o[|o| - 1] == root
  {
    OrderFacts(g, rank, root);
    var o, front := Order(g, rank, root), Visit(g, rank, g[root].subvols, [], rank[root]);
    VisitOrdered(g, rank, g[root].subvols, [], rank[root]);
    TextsRead(g, rank, keys, o, texts);
    q := LastRun(g, o, texts, front, root);
  }

  /** Loading a file, printing the graph from its root and loading that again rebuilds
      the graph, provided the translators below the root are typed and no name was
      defined twice among them. */
  lemma {:induction false} Reload(lines: seq<string>, keys: seq<seq<string>>, p: Parser, root: nat, rank: seq<nat>) returns (q: Parser)
    requires Parse(lines) == Ok(p) && p.last == Some(root) && KeyOrders(p.xlators, keys) && root < |p.xlators|
    requires |rank| == |p.xlators| && forall i :: 0 <= i < |rank| ==> rank[i] == i
    requires Acyclic(p.xlators, rank) ==>
               var o := Order(p.xlators, rank, root);
               && (forall i :: 0 <= i < |o| ==> o[i] < |p.xlators| && p.xlators[o[i]].kind != "")
               && forall i, j :: 0 <= i < j < |o| ==> o[i] < |p.xlators| && o[j] < |p.xlators| && p.xlators[o[i]].name != p.xlators[o[j]].name
    ensures Acyclic(p.xlators, rank)
    ensures Parse(Printed(p.xlators, rank, AllTexts(p.xlators, rank, keys), root)) == Ok(q)
    ensures var o := Order(p.xlators, rank, root);
            (forall i :: 0 <= i < |o| ==> o[i] < |p.xlators|) && Rebuilt(q, p.xlators, o, |o|) && o[|o| - 1] == root
  {
    LoadedGraph(lines);
    LoadedAcyclic(p, rank);
    var o := Order(p.xlators, rank, root);
    LoadedReadable(p, o);
    q := RoundTrip(p.xlators, rank, keys, AllTexts(p.xlators, rank, keys), root);
  }

  lemma {:induction false} LoadedAcyclic(p: Parser, rank: seq<nat>)
    requires Formed(p) && |rank| == |p.xlators| && forall i :: 0 <= i < |rank| ==> rank[i] == i
    ensures Acyclic(p.xlators, rank)
  {
    forall i, k | 0 <= i < |p.xlators| && 0 <= k < |p.xlators[i].subvols|
      ensures p.xlators[i].subvols[k] < |p.xlators| && rank[p.xlators[i].subvols[k]] < rank[i]
    {
      assert Loaded(p.xlators[i], i);
    }
  }

  lemma {:induction false} LoadedReadable(p: Parser, o: seq<nat>)
    requires Formed(p) && forall i :: 0 <= i < |o| ==> o[i] < |p.xlators| && p.xlators[o[i]].kind != ""
    ensures forall i :: 0 <= i < |o| ==> Readable(p.xlators[o[i]])
  {
    forall i | 0 <= i < |o|
      ensures Readable(p.xlators[o[i]])
    {
      assert Loaded(p.xlators[o[i]], o[i]);
    }
  }
}
