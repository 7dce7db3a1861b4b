/**
  What a volume file means, said of its text rather than of the loader: a file is a
  sequence of definitions with empty lines between them; a definition has the type of
  its last type line, for every option the value of its last line for that option, and
  the subvolumes of all its subvolumes lines in order, each the latest earlier
  definition of that name.  A file that is not of this form, or that names a subvolume
  not yet defined, does not load.
*/
module VolfileMeaning {
  import opened Options
  import opened Tokens
  import opened Volfile

  /** The words of every line. */
  type Text = seq<seq<string>>

  function TextOf(lines: seq<string>): (t: Text)
    ensures |t| == |lines| && forall i :: 0 <= i < |lines| ==> t[i] == Words(lines[i])
  {
    seq(|lines|, i requires 0 <= i < |lines| => Words(lines[i]))
  }

  /** The loader on words, line after line. */
  function Feed(p: Parser, text: Text): Result<Parser>
    decreases |text|
  {
    if text == [] then Ok(p)
    else
      match Feed(p, text[..|text| - 1])
      case Err(e) => Err(e)
      case Ok(q) => Step(q, text[|text| - 1])
  }

  lemma {:induction false} FeedLast(p: Parser, text: Text, w: seq<string>)
    ensures Feed(p, text + [w]) == match Feed(p, text) case Err(e) => Err(e) case Ok(q) => Step(q, w)
  {
    assert (text + [w])[..|text|] == text;
  }

  lemma {:induction false} FeedAppend(p: Parser, a: Text, b: Text)
    ensures Feed(p, a + b) == match Feed(p, a) case Err(e) => Err(e) case Ok(q) => Feed(q, b)
    decreases |b|
  {
    if b == [] {
      assert a + b == a;
    } else {
      var n := |b| - 1;
      assert a + b == (a + b[..n]) + [b[n]] && b == b[..n] + [b[n]];
      FeedAppend(p, a, b[..n]);
      FeedLast(p, a + b[..n], b[n]);
      match Feed(p, a)
      case Err(_) =>
      case Ok(q) => FeedLast(q, b[..n], b[n]);
    }
  }

  lemma {:induction false} RunIsFeed(p: Parser, lines: seq<string>)
    ensures Run(p, lines) == Feed(p, TextOf(lines))
    decreases |lines|
  {
    if lines != [] {
      var n := |lines| - 1;
      RunIsFeed(p, lines[..n]);
      assert lines == lines[..n] + [lines[n]];
      RunAppend(p, lines[..n], [lines[n]]);
      assert TextOf(lines) == TextOf(lines[..n]) + [Words(lines[n])];
      FeedLast(p, TextOf(lines[..n]), Words(lines[n]));
      match Run(p, lines[..n])
      case Err(_) =>
      case Ok(q) => RunOne(q, lines[n]);
    }
  }

  /** Joining puts one space between the words. */
  lemma {:induction false} JoinSpaces(a: seq<string>, b: seq<string>)
    requires a != [] && b != []
    ensures Join(a + b) == Join(a) + " " + Join(b)
    ensures Join([a[0]]) == a[0]
    decreases |a|
  {
    if |a| == 1 {
      assert (a + b)[1..] == b;
    } else {
      assert (a + b)[1..] == a[1..] + b;
      JoinSpaces(a[1..], b);
    }
  }

  // ------------------------------------------------------------------ definitions

  predicate TypeLine(w: seq<string>) {
    |w| >= 2 && w[0] == "type"
  }

  predicate OptionLine(w: seq<string>, k: string) {
    |w| >= 2 && w[0] == "option" && w[1] == k
  }

  predicate SubvolumesLine(w: seq<string>) {
    w != [] && w[0] == "subvolumes"
  }

  /** A line that may stand in a definition, given the names defined before. */
  predicate Proper(graph: map<string, nat>, w: seq<string>) {
    || w == [] || TypeLine(w) || (|w| >= 2 && w[0] == "option")
    || (SubvolumesLine(w) && forall k :: 1 <= k < |w| ==> w[k] in graph)
  }

  /** A line that neither opens nor closes a definition. */
  predicate Inner(w: seq<string>) {
    w == [] || (w[0] != "volume" && w[0] != "end-volume")
  }

  ghost predicate KindIs(body: Text, kind: string) {
    || (kind == "" && forall i :: 0 <= i < |body| ==> !TypeLine(body[i]))
    || exists i :: 0 <= i < |body| && TypeLine(body[i]) && kind == body[i][1] && forall j :: i < j < |body| ==> !TypeLine(body[j])
  }

  ghost predicate OptionIs(body: Text, opts: map<string, string>, k: string) {
    if k in opts then
      exists i :: && 0 <= i < |body| && OptionLine(body[i], k) && opts[k] == Join(body[i][2..])
                  && forall j :: i < j < |body| ==> !OptionLine(body[j], k)
    else forall i :: 0 <= i < |body| ==> !OptionLine(body[i], k)
  }

  /** The names in all subvolumes lines, in order. */
  function NamesIn(body: Text): seq<string> {
    if body == [] then []
    else
      var w := body[|body| - 1];
      NamesIn(body[..|body| - 1]) + if SubvolumesLine(w) then w[1..] else []
  }

  predicate SubvolumesAre(graph: map<string, nat>, names: seq<string>, ids: seq<nat>) {
    |ids| == |names| && forall k :: 0 <= k < |ids| ==> names[k] in graph && graph[names[k]] == ids[k]
  }

  ghost predicate BodyIs(graph: map<string, nat>, body: Text, x: Xlator) {
    KindIs(body, x.kind) && (forall k :: OptionIs(body, x.opts, k)) && SubvolumesAre(graph, NamesIn(body), x.subvols)
  }

  lemma {:induction false} ResolveIff(graph: map<string, nat>, names: seq<string>)
    ensures Resolve(graph, names).Ok? <==> forall k :: 0 <= k < |names| ==> names[k] in graph
    ensures Resolve(graph, names).Ok? ==> SubvolumesAre(graph, names, Resolve(graph, names).value)
  {
    if names != [] && names[0] in graph {
      ResolveIff(graph, names[1..]);
      assert forall k :: 0 <= k < |names| - 1 ==> names[1..][k] == names[k + 1];
      assert forall k :: 1 <= k < |names| ==> names[k] == names[1..][k - 1];
    }
  }

  lemma {:induction false} DefineIff(graph: map<string, nat>, x: Xlator, w: seq<string>)
    requires w != []
    ensures Define(graph, x, w).Ok? <==> Proper(graph, w)
  {
    if w[0] == "subvolumes" {
      ResolveIff(graph, w[1..]);
      assert forall k :: 1 <= k < |w| ==> w[k] == w[1..][k - 1];
      assert forall k :: 0 <= k < |w| - 1 ==> w[1..][k] == w[k + 1];
    }
  }

  lemma {:induction false} KindNext(body: Text, w: seq<string>, kind: string)
    requires KindIs(body, kind)
    ensures KindIs(body + [w], if TypeLine(w) then w[1] else kind)
  {
    var b := body + [w];
    assert b[|body|] == w;
    if !TypeLine(w) {
      if i :| 0 <= i < |body| && TypeLine(body[i]) && kind == body[i][1] && forall j :: i < j < |body| ==> !TypeLine(body[j]) {
        assert b[i] == body[i];
      }
    }
  }

  lemma {:induction false} OptionNext(body: Text, w: seq<string>, opts: map<string, string>, opts': map<string, string>, k: string)
    requires OptionIs(body, opts, k)
    requires if OptionLine(w, k) then k in opts' && opts'[k] == Join(w[2..])
             else (k in opts' <==> k in opts) && (k in opts ==> opts'[k] == opts[k])
    ensures OptionIs(body + [w], opts', k)
  {
    var b := body + [w];
    assert b[|body|] == w;
    if !OptionLine(w, k) && k in opts {
      var i :| && 0 <= i < |body| && OptionLine(body[i], k) && opts[k] == Join(body[i][2..])
               && forall j :: i < j < |body| ==> !OptionLine(body[j], k);
      assert b[i] == body[i];
    }
  }

  lemma {:induction false} NamesNext(graph: map<string, nat>, body: Text, w: seq<string>, ids: seq<nat>, more: seq<nat>)
    requires SubvolumesAre(graph, NamesIn(body), ids) && SubvolumesAre(graph, if SubvolumesLine(w) then w[1..] else [], more)
    ensures SubvolumesAre(graph, NamesIn(body + [w]), ids + more)
  {
    assert (body + [w])[..|body|] == body;
  }

  /** One more line of a definition. */
  lemma {:induction false} BodyNext(graph: map<string, nat>, body: Text, x: Xlator, w: seq<string>)
    requires BodyIs(graph, body, x) && w != [] && Proper(graph, w)
    ensures Define(graph, x, w).Ok?
    ensures var y := Define(graph, x, w).value; y.name == x.name && BodyIs(graph, body + [w], y)
  {
    DefineIff(graph, x, w);
    var y := Define(graph, x, w).value;
    KindNext(body, w, x.kind);
    forall k
      ensures OptionIs(body + [w], y.opts, k)
    {
      OptionNext(body, w, x.opts, y.opts, k);
    }
    if SubvolumesLine(w) {
      ResolveIff(graph, w[1..]);
      NamesNext(graph, body, w, x.subvols, Resolve(graph, w[1..]).value);
    } else {
      NamesNext(graph, body, w, x.subvols, []);
      assert x.subvols + [] == x.subvols;
    }
  }

  lemma {:induction false} BodyBlank(graph: map<string, nat>, body: Text, x: Xlator)
    requires BodyIs(graph, body, x)
    ensures BodyIs(graph, body + [[]], x)
  {
    var none: seq<string> := [];
    KindNext(body, none, x.kind);
    forall k
      ensures OptionIs(body + [none], x.opts, k)
    {
      OptionNext(body, none, x.opts, x.opts, k);
    }
    NamesNext(graph, body, none, x.subvols, []);
    assert x.subvols + [] == x.subvols;
  }

  ghost predicate OpenWith(p: Parser, q: Parser, name: string, body: Text) {
    q.current.Some? && q == p.(current := q.current) && q.current.value.name == name && BodyIs(p.graph, body, q.current.value)
  }

  /** The lines of a definition are read if and only if each is proper, and then the open
      definition is what they say. */
  lemma {:induction false} BodyMeans(p: Parser, name: string, body: Text)
    requires p.current == Some(Xlator(name, "", map[], [])) && forall i :: 0 <= i < |body| ==> Inner(body[i])
    ensures Feed(p, body).Ok? <==> forall i :: 0 <= i < |body| ==> Proper(p.graph, body[i])
    ensures Feed(p, body).Ok? ==> OpenWith(p, Feed(p, body).value, name, body)
    decreases |body|
  {
    if body != [] {
      var front, w := body[..|body| - 1], body[|body| - 1];
      assert body == front + [w];
      BodyMeans(p, name, front);
      if Feed(p, front).Ok? {
        var q := Feed(p, front).value;
        if w == [] {
          BodyBlank(p.graph, front, q.current.value);
        } else {
          DefineIff(p.graph, q.current.value, w);
          if Proper(p.graph, w) {
            BodyNext(p.graph, front, q.current.value, w);
          }
        }
      }
    }
  }

  // ------------------------------------------------------------------------ files

  /** Empty lines, the line that opens a definition, its lines, and the one that closes it. */
  datatype Block = Block(gap: nat, head: seq<string>, body: Text, foot: seq<string>)

  predicate Shaped(b: Block) {
    && |b.head| >= 2 && b.head[0] == "volume" && b.foot != [] && b.foot[0] == "end-volume"
    && forall i :: 0 <= i < |b.body| ==> Inner(b.body[i])
  }

  predicate AllShaped(bs: seq<Block>) {
    forall i :: 0 <= i < |bs| ==> Shaped(bs[i])
  }

  function Blank(n: nat): Text {
    seq(n, _ => [])
  }

  function Lines(b: Block): Text {
    Blank(b.gap) + [b.head] + b.body + [b.foot]
  }

  function Written(bs: seq<Block>): Text {
    if bs == [] then [] else Written(bs[..|bs| - 1]) + Lines(bs[|bs| - 1])
  }

  /** The dictionary of these definitions: the last one of each name. */
  predicate Named(bs: seq<Block>, graph: map<string, nat>)
    requires AllShaped(bs)
  {
    && (forall i :: 0 <= i < |bs| ==> bs[i].head[1] in graph && graph[bs[i].head[1]] >= i)
    && forall n :: n in graph ==> graph[n] < |bs| && bs[graph[n]].head[1] == n
  }

  lemma {:induction false} NamedOnce(bs: seq<Block>, a: map<string, nat>, b: map<string, nat>)
    requires AllShaped(bs) && Named(bs, a) && Named(bs, b)
    ensures a == b
  {
  }

  lemma {:induction false} NamedNext(bs: seq<Block>, b: Block, graph: map<string, nat>)
    requires AllShaped(bs) && Shaped(b) && Named(bs, graph)
    ensures AllShaped(bs + [b]) && Named(bs + [b], graph[b.head[1] := |bs|])
  {
  }

  /** Definition i, read with the dictionary of the ones before it. */
  ghost predicate BlockIs(bs: seq<Block>, i: nat, x: Xlator)
    requires AllShaped(bs) && i < |bs|
  {
    x.name == bs[i].head[1] && exists graph :: Named(bs[..i], graph) && BodyIs(graph, bs[i].body, x)
  }

  ghost predicate BlockLoads(bs: seq<Block>, i: nat)
    requires AllShaped(bs) && i < |bs|
  {
    exists graph :: Named(bs[..i], graph) && forall k :: 0 <= k < |bs[i].body| ==> Proper(graph, bs[i].body[k])
  }

  /** Every line is proper where it stands. */
  ghost predicate Loads(bs: seq<Block>)
    requires AllShaped(bs)
  {
    forall i :: 0 <= i < |bs| ==> BlockLoads(bs, i)
  }

  /** What the file of these definitions gives. */
  ghost predicate FileIs(bs: seq<Block>, p: Parser)
    requires AllShaped(bs)
  {
    && |p.xlators| == |bs| && Named(bs, p.graph) && p.current.None?
    && p.last == (if bs == [] then None else Some(|bs| - 1))
    && forall i :: 0 <= i < |bs| ==> BlockIs(bs, i, p.xlators[i])
  }

  lemma {:induction false} FeedBlank(p: Parser, n: nat)
    ensures Feed(p, Blank(n)) == Ok(p)
  {
    if n > 0 {
      assert Blank(n)[..n - 1] == Blank(n - 1);
      FeedBlank(p, n - 1);
    }
  }

  /** Reading one definition. */
  lemma {:induction false} FeedBlock(p: Parser, b: Block)
    requires Shaped(b) && p.current.None?
    ensures var r := Feed(p, Lines(b));
            && (r.Ok? <==> forall k :: 0 <= k < |b.body| ==> Proper(p.graph, b.body[k]))
            && (r.Ok? ==> exists x :: r.value == Close(p, x) && x.name == b.head[1] && BodyIs(p.graph, b.body, x))
  {
    var q := p.(current := Some(Xlator(b.head[1], "", map[], [])));
    FeedBlank(p, b.gap);
    FeedLast(p, Blank(b.gap), b.head);
    FeedAppend(p, Blank(b.gap) + [b.head], b.body);
    BodyMeans(q, b.head[1], b.body);
    FeedLast(p, Blank(b.gap) + [b.head] + b.body, b.foot);
    if Feed(q, b.body).Ok? {
      var x := Feed(q, b.body).value.current.value;
      assert Feed(p, Lines(b)).value == Close(p, x);
    }
  }

  lemma {:induction false} BlockKept(bs: seq<Block>, b: Block, i: nat, x: Xlator)
    requires AllShaped(bs) && Shaped(b) && i < |bs| && AllShaped(bs + [b])
    ensures BlockIs(bs, i, x) <==> BlockIs(bs + [b], i, x)
    ensures BlockLoads(bs, i) <==> BlockLoads(bs + [b], i)
  {
    assert (bs + [b])[..i] == bs[..i] && (bs + [b])[i] == bs[i];
  }

  lemma {:induction false} FileNext(bs: seq<Block>, b: Block, p: Parser, x: Xlator)
    requires AllShaped(bs) && Shaped(b) && FileIs(bs, p) && x.name == b.head[1] && BodyIs(p.graph, b.body, x)
    ensures AllShaped(bs + [b]) && FileIs(bs + [b], Close(p, x))
  {
    NamedNext(bs, b, p.graph);
    var all, q := bs + [b], Close(p, x);
    assert all[..|bs|] == bs;
    forall i | 0 <= i < |all|
      ensures BlockIs(all, i, q.xlators[i])
    {
      if i < |bs| {
        BlockKept(bs, b, i, p.xlators[i]);
      } else {
        assert Named(all[..i], p.graph) && BodyIs(p.graph, all[i].body, x);
      }
    }
  }

  /** The last of the definitions loads if its lines are proper for this dictionary. */
  lemma {:induction false} LastLoads(bs: seq<Block>, b: Block, graph: map<string, nat>)
    requires AllShaped(bs) && Shaped(b) && AllShaped(bs + [b]) && Named(bs, graph)
    ensures BlockLoads(bs + [b], |bs|) <==> forall k :: 0 <= k < |b.body| ==> Proper(graph, b.body[k])
  {
    assert (bs + [b])[..|bs|] == bs && (bs + [b])[|bs|] == b;
    forall other | Named(bs, other)
      ensures other == graph
    {
      NamedOnce(bs, other, graph);
    }
  }

  lemma {:induction false} LoadsNext(bs: seq<Block>, b: Block)
    requires AllShaped(bs) && Shaped(b) && AllShaped(bs + [b])
    ensures Loads(bs + [b]) <==> Loads(bs) && BlockLoads(bs + [b], |bs|)
  {
    forall i | 0 <= i < |bs|
      ensures BlockLoads(bs, i) <==> BlockLoads(bs + [b], i)
    {
      assert (bs + [b])[..i] == bs[..i] && (bs + [b])[i] == bs[i];
    }
  }

  /** A sequence of definitions loads if and only if every line is proper where it stands,
      and then it gives what the definitions say. */
  lemma {:induction false} FileMeans(bs: seq<Block>)
    requires AllShaped(bs)
    ensures Feed(START, Written(bs)).Ok? <==> Loads(bs)
    ensures Feed(START, Written(bs)).Ok? ==> FileIs(bs, Feed(START, Written(bs)).value)
    decreases |bs|
  {
    if bs != [] {
      var front, b := bs[..|bs| - 1], bs[|bs| - 1];
      assert bs == front + [b];
      FileMeans(front);
      FeedAppend(START, Written(front), Lines(b));
      LoadsNext(front, b);
      if Feed(START, Written(front)).Ok? {
        var p := Feed(START, Written(front)).value;
        FeedBlock(p, b);
        LastLoads(front, b, p.graph);
        if Feed(p, Lines(b)).Ok? {
          var x :| Feed(p, Lines(b)).value == Close(p, x) && x.name == b.head[1] && BodyIs(p.graph, b.body, x);
          FileNext(front, b, p, x);
        }
      }
    }
  }

  // ------------------------------------------------------- every file that loads

  /** The text read so far is definitions, then empty lines or an open definition. */
  ghost predicate CutAs(text: Text, open: bool, bs: seq<Block>, gap: nat, head: seq<string>, body: Text) {
    && AllShaped(bs)
    && if open then
         && |head| >= 2 && head[0] == "volume" && (forall i :: 0 <= i < |body| ==> Inner(body[i]))
         && text == Written(bs) + (Blank(gap) + [head] + body)
       else text == Written(bs) + Blank(gap)
  }

  lemma {:induction false} CutLine(text: Text, w: seq<string>, bs: seq<Block>, gap: nat, head: seq<string>, body: Text)
    requires Inner(w)
    ensures CutAs(text, true, bs, gap, head, body) ==> CutAs(text + [w], true, bs, gap, head, body + [w])
  {
    assert Written(bs) + (Blank(gap) + [head] + body) + [w] == Written(bs) + (Blank(gap) + [head] + (body + [w]));
  }

  lemma {:induction false} CutClosed(text: Text, w: seq<string>, bs: seq<Block>, gap: nat, head: seq<string>, body: Text)
    requires w != [] && w[0] == "end-volume" && CutAs(text, true, bs, gap, head, body)
    ensures CutAs(text + [w], false, bs + [Block(gap, head, body, w)], 0, [], [])
  {
    var b := Block(gap, head, body, w);
    assert (bs + [b])[..|bs|] == bs;
    assert Written(bs + [b]) == Written(bs) + Lines(b);
    assert Lines(b) == Blank(gap) + [head] + body + [w];
    assert text + [w] == Written(bs) + Lines(b);
    assert Written(bs + [b]) + Blank(0) == Written(bs + [b]);
  }

  lemma {:induction false} CutOutside(text: Text, w: seq<string>, bs: seq<Block>, gap: nat)
    requires CutAs(text, false, bs, gap, [], [])
    ensures w == [] ==> CutAs(text + [w], false, bs, gap + 1, [], [])
    ensures |w| >= 2 && w[0] == "volume" ==> CutAs(text + [w], true, bs, gap, w, [])
  {
    if w == [] {
      assert Blank(gap + 1) == Blank(gap) + [w];
      assert Written(bs) + Blank(gap) + [w] == Written(bs) + (Blank(gap) + [w]);
    } else {
      assert Written(bs) + Blank(gap) + [w] == Written(bs) + (Blank(gap) + [w] + []);
    }
  }

  /** What the loader accepts, up to any line, can be cut into definitions. */
  lemma {:induction false} Cut(text: Text) returns (bs: seq<Block>, gap: nat, head: seq<string>, body: Text)
    requires Feed(START, text).Ok?
    ensures CutAs(text, Feed(START, text).value.current.Some?, bs, gap, head, body)
    ensures Feed(START, text).value.current.None? ==> head == [] && body == []
    decreases |text|
  {
    bs, gap, head, body := [], 0, [], [];
    if text == [] {
      assert Written(bs) + Blank(gap) == [];
    } else {
      var front, w := text[..|text| - 1], text[|text| - 1];
      assert text == front + [w];
      bs, gap, head, body := Cut(front);
      var q := Feed(START, front).value;
      if q.current.None? {
        CutOutside(front, w, bs, gap);
        if w == [] {
          gap := gap + 1;
        } else {
          head := w;
        }
      } else if w != [] && w[0] == "end-volume" {
        CutClosed(front, w, bs, gap, head, body);
        bs, gap, head, body := bs + [Block(gap, head, body, w)], 0, [], [];
      } else {
        CutLine(front, w, bs, gap, head, body);
        body := body + [w];
      }
    }
  }

  /** The text is definitions with empty lines between them and at the end. */
  ghost predicate IsFile(text: Text, bs: seq<Block>, gap: nat) {
    AllShaped(bs) && text == Written(bs) + Blank(gap)
  }

  /** A file of definitions: it loads exactly if they do, and means what they say. */
  lemma {:induction false} LoadMeans(lines: seq<string>, bs: seq<Block>, gap: nat)
    requires IsFile(TextOf(lines), bs, gap)
    ensures Parse(lines).Ok? <==> Loads(bs)
    ensures Parse(lines).Ok? ==> FileIs(bs, Parse(lines).value)
  {
    RunIsFeed(START, lines);
    FeedAppend(START, Written(bs), Blank(gap));
    FileMeans(bs);
    if Feed(START, Written(bs)).Ok? {
      FeedBlank(Feed(START, Written(bs)).value, gap);
    }
  }

  /** Nothing else loads. */
  lemma {:induction false} LoadsOnlyFiles(lines: seq<string>) returns (bs: seq<Block>, gap: nat)
    requires Parse(lines).Ok?
    ensures IsFile(TextOf(lines), bs, gap) && Loads(bs)
  {
    RunIsFeed(START, lines);
    var head, body;
    bs, gap, head, body := Cut(TextOf(lines));
    LoadMeans(lines, bs, gap);
  }

  // ------------------------------------------------------------------------ errors

  /** The line cannot stand here, for this reason. */
  predicate Faulty(q: Parser, w: seq<string>, e: Error) {
    && w != []
    && match e
       case Nested => w[0] == "volume" && q.current.Some?
       case Outside => w[0] != "volume" && q.current.None?
       case MissingWord => |w| == 1 && if q.current.None? then w[0] == "volume" else w[0] == "type" || w[0] == "option"
       case Unrecognized(word) =>
         && q.current.Some? && word == w[0]
         && word !in {"volume", "type", "option", "subvolumes", "end-volume"}
       case UnknownSubvolume(name) =>
         && q.current.Some? && w[0] == "subvolumes"
         && exists k :: 1 <= k < |w| && w[k] == name && name !in q.graph && forall j :: 1 <= j < k ==> w[j] in q.graph
       case Unclosed => false
  }

  lemma {:induction false} ResolveFault(graph: map<string, nat>, names: seq<string>, k: nat)
    requires k < |names| && names[k] !in graph && forall j :: 0 <= j < k ==> names[j] in graph
    ensures Resolve(graph, names) == Err(UnknownSubvolume(names[k]))
  {
    if k > 0 {
      assert names[0] in graph;
      assert forall j :: 0 <= j < k - 1 ==> names[1..][j] == names[j + 1];
      ResolveFault(graph, names[1..], k - 1);
    }
  }

  lemma {:induction false} FirstUnknown(graph: map<string, nat>, names: seq<string>) returns (k: nat)
    requires Resolve(graph, names).Err?
    ensures k < |names| && names[k] !in graph && forall j :: 0 <= j < k ==> names[j] in graph
    ensures Resolve(graph, names) == Err(UnknownSubvolume(names[k]))
  {
    if names[0] !in graph {
      k := 0;
    } else {
      k := FirstUnknown(graph, names[1..]);
      k := k + 1;
      assert forall j :: 1 <= j < k ==> names[j] == names[1..][j - 1];
    }
  }

  lemma {:induction false} SubvolumesFault(q: Parser, w: seq<string>, e: Error)
    requires SubvolumesLine(w) && q.current.Some?
    ensures Step(q, w) == Err(e) <==> Faulty(q, w, e)
  {
    var names := w[1..];
    if Resolve(q.graph, names).Err? {
      var k := FirstUnknown(q.graph, names);
      assert w[k + 1] == names[k];
      assert forall j :: 1 <= j < k + 1 ==> w[j] == names[j - 1];
      if e.UnknownSubvolume? && Faulty(q, w, e) {
        var m :| 1 <= m < |w| && w[m] == e.name && e.name !in q.graph && forall j :: 1 <= j < m ==> w[j] in q.graph;
        assert m == k + 1;
      }
    } else {
      ResolveIff(q.graph, names);
      assert forall j :: 1 <= j < |w| ==> w[j] == names[j - 1];
    }
  }

  /** A line is refused exactly for the reason that applies. */
  lemma {:induction false} StepFaults(q: Parser, w: seq<string>, e: Error)
    ensures Step(q, w) == Err(e) <==> Faulty(q, w, e)
  {
    if SubvolumesLine(w) && q.current.Some? {
      SubvolumesFault(q, w, e);
    }
  }

  lemma {:induction false} FirstFault(text: Text, e: Error) returns (i: nat)
    requires Feed(START, text) == Err(e)
    ensures i < |text| && Feed(START, text[..i]).Ok? && Faulty(Feed(START, text[..i]).value, text[i], e)
    decreases |text|
  {
    var n := |text| - 1;
    if Feed(START, text[..n]).Ok? {
      i := n;
      StepFaults(Feed(START, text[..n]).value, text[n], e);
    } else {
      i := FirstFault(text[..n], e);
      assert text[..n][..i] == text[..i];
    }
  }

  lemma {:induction false} FaultStays(text: Text, i: nat, e: Error)
    requires i < |text| && Feed(START, text[..i]).Ok? && Faulty(Feed(START, text[..i]).value, text[i], e)
    ensures Feed(START, text) == Err(e)
  {
    StepFaults(Feed(START, text[..i]).value, text[i], e);
    assert text == text[..i] + [text[i]] + text[i + 1..];
    FeedLast(START, text[..i], text[i]);
    FeedAppend(START, text[..i] + [text[i]], text[i + 1..]);
  }

  /** A file is refused exactly with the fault of the first line that has one, or because
      its last definition is not closed. */
  lemma {:induction false} LoadFails(lines: seq<string>, e: Error)
    ensures var text := TextOf(lines);
            Parse(lines) == Err(e) <==>
              || (e == Unclosed && Feed(START, text).Ok? && Feed(START, text).value.current.Some?)
              || exists i :: 0 <= i < |text| && Feed(START, text[..i]).Ok? && Faulty(Feed(START, text[..i]).value, text[i], e)
  {
    var text := TextOf(lines);
    RunIsFeed(START, lines);
    if Feed(START, text) == Err(e) {
      var i := FirstFault(text, e);
    }
    if i :| 0 <= i < |text| && Feed(START, text[..i]).Ok? && Faulty(Feed(START, text[..i]).value, text[i], e) {
      FaultStays(text, i, e);
    }
  }
}
