/**
  Volume files (extras/volfilter.py, extras/prot_filter.py): translators, and the
  line-driven loader.  A translator object is its position in a store; the file is a
  sequence of lines.
*/
module Volfile {
  import opened Options
  import opened Tokens

  datatype Xlator = Xlator(name: string, kind: string, opts: map<string, string>, subvols: seq<nat>)

  datatype Error =
    | Nested
    | Outside
    | Unrecognized(word: string)
    | Unclosed
    | MissingWord
    | UnknownSubvolume(name: string)

  datatype Result<+T> = Ok(value: T) | Err(error: Error)

  /** The loader's variables: objects made so far, the dictionary, the open definition
      and the one closed last. */
  datatype Parser = Parser(xlators: seq<Xlator>, graph: map<string, nat>, current: Option<Xlator>, last: Option<nat>)

  const START := Parser([], map[], None, None)

  predicate IsSpace(c: char) {
    c == ' ' || c == '\t' || c == '\n' || c == '\r' || c == '\U{000b}' || c == '\U{000c}'
  }

  function Words(line: string): seq<string> {
    Split(line, IsSpace)
  }

  predicate Word(w: string) {
    Clean(w, IsSpace)
  }

  predicate AllWords(ws: seq<string>) {
    forall i :: 0 <= i < |ws| ==> Word(ws[i])
  }

  function Join(words: seq<string>): string {
    if words == [] then ""
    else if |words| == 1 then words[0]
    else words[0] + [' '] + Join(words[1..])
  }

  // -------------------------------------------------------------------- loading

  function Resolve(graph: map<string, nat>, names: seq<string>): Result<seq<nat>> {
    if names == [] then Ok([])
    else if names[0] !in graph then Err(UnknownSubvolume(names[0]))
    else
      match Resolve(graph, names[1..])
      case Err(e) => Err(e)
      case Ok(rest) => Ok([graph[names[0]]] + rest)
  }

  /** What one line does to an open definition x, other than closing it. */
  function Define(graph: map<string, nat>, x: Xlator, words: seq<string>): Result<Xlator>
    requires words != []
  {
    if words[0] == "type" then
      if |words| < 2 then Err(MissingWord) else Ok(x.(kind := words[1]))
    else if words[0] == "option" then
      if |words| < 2 then Err(MissingWord) else Ok(x.(opts := x.opts[words[1] := Join(words[2..])]))
    else if words[0] == "subvolumes" then
      match Resolve(graph, words[1..])
      case Err(e) => Err(e)
      case Ok(ids) => Ok(x.(subvols := x.subvols + ids))
    else Err(Unrecognized(words[0]))
  }

  function Close(p: Parser, x: Xlator): Parser {
    Parser(p.xlators + [x], p.graph[x.name := |p.xlators|], None, Some(|p.xlators|))
  }

  function Step(p: Parser, words: seq<string>): Result<Parser> {
    if words == [] then Ok(p)
    else if words[0] == "volume" then
      if p.current.Some? then Err(Nested)
      else if |words| < 2 then Err(MissingWord)
      else Ok(p.(current := Some(Xlator(words[1], "", map[], []))))
    else if p.current.None? then Err(Outside)
    else if words[0] == "end-volume" then Ok(Close(p, p.current.value))
    else
      match Define(p.graph, p.current.value, words)
      case Err(e) => Err(e)
      case Ok(x) => Ok(p.(current := Some(x)))
  }

  function Run(p: Parser, lines: seq<string>): Result<Parser>
    decreases |lines|
  {
    if lines == [] then Ok(p)
    else
      match Step(p, Words(lines[0]))
      case Err(e) => Err(e)
      case Ok(q) => Run(q, lines[1..])
  }

  /** What a file means: the store, the dictionary and the root, or the first error. */
  function Parse(lines: seq<string>): Result<Parser> {
    match Run(START, lines)
    case Err(e) => Err(e)
    case Ok(p) => if p.current.Some? then Err(Unclosed) else Ok(p)
  }

  lemma {:induction false} RunAppend(p: Parser, a: seq<string>, b: seq<string>)
    ensures Run(p, a + b) == match Run(p, a) case Err(e) => Err(e) case Ok(q) => Run(q, b)
    decreases |a|
  {
    if a == [] {
      assert a + b == b;
    } else {
      assert (a + b)[1..] == a[1..] + b;
      match Step(p, Words(a[0]))
      case Err(_) =>
      case Ok(q) => RunAppend(q, a[1..], b);
    }
  }

  lemma {:induction false} RunOne(p: Parser, line: string)
    ensures Run(p, [line]) == Step(p, Words(line))
  {
    match Step(p, Words(line))
    case Err(_) =>
    case Ok(q) => assert Run(q, []) == Ok(q);
  }

  function Prefixed(ids: seq<nat>, r: Result<seq<nat>>): (p: Result<seq<nat>>)
    ensures ids == [] ==> p == r
    ensures r == Ok([]) ==> p == Ok(ids)
  {
    if r.Ok? then
      assert [] + r.value == r.value && ids + [] == ids;
      Ok(ids + r.value)
    else r
  }

  lemma {:induction false} PrefixedStep(graph: map<string, nat>, names: seq<string>, ids: seq<nat>)
    requires names != [] && names[0] in graph
    ensures Prefixed(ids, Resolve(graph, names)) == Prefixed(ids + [graph[names[0]]], Resolve(graph, names[1..]))
  {
    match Resolve(graph, names[1..])
    case Err(_) =>
    case Ok(rest) => assert ids + ([graph[names[0]]] + rest) == ids + [graph[names[0]]] + rest;
  }

  /** The loop over the names of a subvolumes line. */
  method ResolveSubvolumes(graph: map<string, nat>, names: seq<string>) returns (r: Result<seq<nat>>)
    ensures r == Resolve(graph, names)
  {
    var ids: seq<nat> := [];
    assert names[0..] == names;
    for k := 0 to |names|
      invariant Resolve(graph, names) == Prefixed(ids, Resolve(graph, names[k..]))
    {
      assert names[k..][1..] == names[k + 1..];
      if names[k] !in graph {
        return Err(UnknownSubvolume(names[k]));
      }
      PrefixedStep(graph, names[k..], ids);
      ids := ids + [graph[names[k]]];
    }
    assert names[|names|..] == [];
    return Ok(ids);
  }

  method DefineLine(graph: map<string, nat>, x: Xlator, words: seq<string>) returns (r: Result<Xlator>)
    requires words != []
    ensures r == Define(graph, x, words)
  {
    if words[0] == "type" {
      if |words| < 2 {
        return Err(MissingWord);
      }
      return Ok(x.(kind := words[1]));
    }
    if words[0] == "option" {
      if |words| < 2 {
        return Err(MissingWord);
      }
      return Ok(x.(opts := x.opts[words[1] := Join(words[2..])]));
    }
    if words[0] == "subvolumes" {
      var ids := ResolveSubvolumes(graph, words[1..]);
      match ids
      case Err(e) => return Err(e);
      case Ok(more) => return Ok(x.(subvols := x.subvols + more));
    }
    return Err(Unrecognized(words[0]));
  }

  /** One line of the file. */
  method LoadLine(p: Parser, line: string) returns (r: Result<Parser>)
    ensures r == Step(p, Words(line))
  {
    var text := Words(line);
    if text == [] {
      return Ok(p);
    }
    if text[0] == "volume" {
      if p.current.Some? {
        return Err(Nested);
      }
      if |text| < 2 {
        return Err(MissingWord);
      }
      return Ok(p.(current := Some(Xlator(text[1], "", map[], []))));
    }
    if p.current.None? {
      return Err(Outside);
    }
    if text[0] == "end-volume" {
      return Ok(Close(p, p.current.value));
    }
    var x := DefineLine(p.graph, p.current.value, text);
    match x
    case Err(e) => return Err(e);
    case Ok(y) => return Ok(p.(current := Some(y)));
  }

  /** load. */
  method Load(lines: seq<string>) returns (r: Result<Parser>)
    ensures r == Parse(lines)
  {
    var p := START;
    for i := 0 to |lines|
      invariant Run(START, lines) == Run(p, lines[i..])
    {
      assert lines[i..][1..] == lines[i + 1..];
      var s := LoadLine(p, lines[i]);
      match s
      case Err(e) => return Err(e);
      case Ok(q) => p := q;
    }
    assert lines[|lines|..] == [];
    if p.current.Some? {
      return Err(Unclosed);
    }
    return Ok(p);
  }

  // ------------------------------------------------------- what a file can mean

  /** A value as the loader leaves it: words separated by single spaces. */
  predicate Normal(v: string) {
    v == Join(Words(v))
  }

  /** Splitting undoes joining. */
  lemma {:induction false} WordsOfJoin(ws: seq<string>)
    requires AllWords(ws)
    ensures Words(Join(ws)) == ws
  {
    if |ws| == 1 {
      SplitClean(ws[0], IsSpace);
    } else if |ws| > 1 {
      WordsOfJoin(ws[1..]);
      SplitAppend(ws[0], ' ', Join(ws[1..]), IsSpace);
      SplitClean(ws[0], IsSpace);
    }
  }

  ghost predicate OptionsOk(opts: map<string, string>) {
    forall k :: k in opts ==> Word(k) && Normal(opts[k])
  }

  /** A translator whose text the printer can produce and the loader can read. */
  ghost predicate Readable(x: Xlator) {
    Word(x.name) && Word(x.kind) && OptionsOk(x.opts)
  }

  /** A loaded translator: as above, except that its type may be missing. */
  ghost predicate Loaded(x: Xlator, below: nat) {
    && Word(x.name) && (x.kind == "" || Word(x.kind)) && OptionsOk(x.opts)
    && forall k :: 0 <= k < |x.subvols| ==> x.subvols[k] < below
  }

  ghost predicate Formed(p: Parser) {
    && (forall i :: 0 <= i < |p.xlators| ==> Loaded(p.xlators[i], i) && p.xlators[i].name in p.graph)
    && (forall n :: n in p.graph ==> p.graph[n] < |p.xlators| && p.xlators[p.graph[n]].name == n)
    && (p.current.Some? ==> Loaded(p.current.value, |p.xlators|))
    && p.last == if |p.xlators| == 0 then None else Some(|p.xlators| - 1)
  }

  lemma {:induction false} ResolveBelow(graph: map<string, nat>, names: seq<string>, below: nat)
    requires forall n :: n in graph ==> graph[n] < below
    ensures Resolve(graph, names).Ok? ==> forall k :: 0 <= k < |Resolve(graph, names).value| ==> Resolve(graph, names).value[k] < below
  {
    if names != [] {
      ResolveBelow(graph, names[1..], below);
    }
  }

  lemma {:induction false} DefineLoaded(graph: map<string, nat>, x: Xlator, words: seq<string>, below: nat)
    requires words != [] && AllWords(words) && Loaded(x, below) && forall n :: n in graph ==> graph[n] < below
    ensures Define(graph, x, words).Ok? ==> Loaded(Define(graph, x, words).value, below)
  {
    if words[0] == "option" && |words| >= 2 {
      WordsOfJoin(words[2..]);
    } else if words[0] == "subvolumes" {
      ResolveBelow(graph, words[1..], below);
    }
  }

  lemma {:induction false} CloseFormed(p: Parser)
    requires Formed(p) && p.current.Some?
    ensures Formed(Close(p, p.current.value))
  {
  }

  lemma {:induction false} StepFormed(p: Parser, words: seq<string>)
    requires Formed(p) && AllWords(words)
    ensures Step(p, words).Ok? ==> Formed(Step(p, words).value)
  {
    if words != [] && words[0] != "volume" && p.current.Some? {
      if words[0] == "end-volume" {
        CloseFormed(p);
      } else {
        DefineLoaded(p.graph, p.current.value, words, |p.xlators|);
      }
    }
  }

  lemma {:induction false} RunFormed(p: Parser, lines: seq<string>)
    requires Formed(p)
    ensures Run(p, lines).Ok? ==> Formed(Run(p, lines).value)
    decreases |lines|
  {
    if lines != [] {
      PiecesClean(lines[0], IsSpace);
      StepFormed(p, Words(lines[0]));
      match Step(p, Words(lines[0]))
      case Err(_) =>
      case Ok(q) => RunFormed(q, lines[1..]);
    }
  }

  /** Whatever the text, a file that loads gives an acyclic graph: every translator's
      subvolumes were closed before it.  The dictionary finds a translator of each
      name, and the root is the last one closed. */
  lemma {:induction false} LoadedGraph(lines: seq<string>)
    requires Parse(lines).Ok?
    ensures Formed(Parse(lines).value)
  {
    RunFormed(START, lines);
  }
}
