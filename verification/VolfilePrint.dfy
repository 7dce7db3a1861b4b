/**
  The printer's specification (generate in extras/volfilter.py and extras/prot_filter.py):
  the order in which a graph's translators are printed, and the lines printed for each.
*/
module VolfilePrint {
  import opened Options
  import opened Volfile

  type Store = seq<Xlator>

  /** rank witnesses that the graph is acyclic: it drops along every edge. */
  predicate Acyclic(g: Store, rank: seq<nat>) {
    && |rank| == |g|
    && forall i, k :: 0 <= i < |g| && 0 <= k < |g[i].subvols| ==>
         g[i].subvols[k] < |g| && rank[g[i].subvols[k]] < rank[i]
  }

  /** The ids are translators of rank below r. */
  predicate Below(g: Store, rank: seq<nat>, ids: seq<nat>, r: nat)
    requires |rank| == |g|
  {
    forall k :: 0 <= k < |ids| ==> ids[k] < |g| && rank[ids[k]] < r
  }

  /** Translators printed by the loop over ids when those in done have been printed. */
  function Visit(g: Store, rank: seq<nat>, ids: seq<nat>, done: seq<nat>, r: nat): seq<nat>
    requires Acyclic(g, rank) && Below(g, rank, ids, r)
    decreases r, |ids|
  {
    if ids == [] then done
    else if ids[0] in done then Visit(g, rank, ids[1..], done, r)
    else
      var s := ids[0];
      Visit(g, rank, ids[1..], Visit(g, rank, g[s].subvols, done, rank[s]) + [s], r)
  }

  /** Everything that generating from root prints, in order. */
  function Order(g: Store, rank: seq<nat>, root: nat): seq<nat>
    requires Acyclic(g, rank) && root < |g|
  {
    Visit(g, rank, g[root].subvols, [], rank[root]) + [root]
  }

  // ------------------------------------------------------------ facts of the order

  predicate Distinct(o: seq<nat>) {
    forall i, j :: 0 <= i < j < |o| ==> o[i] != o[j]
  }

  /** Every translator comes after all its subvolumes. */
  predicate ChildrenFirst(g: Store, o: seq<nat>) {
    forall i :: 0 <= i < |o| ==> o[i] < |g| && forall k :: 0 <= k < |g[o[i]].subvols| ==> g[o[i]].subvols[k] in o[..i]
  }

  predicate WellOrdered(g: Store, o: seq<nat>) {
    Distinct(o) && ChildrenFirst(g, o)
  }

  predicate AllIn(ids: seq<nat>, o: seq<nat>) {
    forall k :: 0 <= k < |ids| ==> ids[k] in o
  }

  predicate Extends(o: seq<nat>, done: seq<nat>) {
    |done| <= |o| && o[..|done|] == done
  }

  lemma {:induction false} ExtendsKeeps(o: seq<nat>, done: seq<nat>, x: nat)
    requires Extends(o, done) && x in done
    ensures x in o
  {
    var i :| 0 <= i < |done| && done[i] == x;
    assert o[i] == o[..|done|][i];
  }

  lemma {:induction false} OrderedPush(g: Store, o: seq<nat>, s: nat)
    requires WellOrdered(g, o) && s !in o && s < |g| && AllIn(g[s].subvols, o)
    ensures WellOrdered(g, o + [s])
  {
    var n := o + [s];
    forall i | 0 <= i < |n|
      ensures n[i] < |g| && forall k :: 0 <= k < |g[n[i]].subvols| ==> g[n[i]].subvols[k] in n[..i]
    {
      if i < |o| {
        assert n[..i] == o[..i];
      } else {
        assert n[..i] == o;
      }
    }
  }

  /** A translator is not printed below itself. */
  lemma {:induction false} NotBelow(g: Store, rank: seq<nat>, ids: seq<nat>, done: seq<nat>, r: nat, s: nat)
    requires Acyclic(g, rank) && Below(g, rank, ids, r) && s < |g| && rank[s] >= r && s !in done
    ensures s !in Visit(g, rank, ids, done, r)
    decreases r, |ids|
  {
    if ids != [] {
      var c := ids[0];
      if c in done {
        NotBelow(g, rank, ids[1..], done, r, s);
      } else {
        NotBelow(g, rank, g[c].subvols, done, rank[c], s);
        NotBelow(g, rank, ids[1..], Visit(g, rank, g[c].subvols, done, rank[c]) + [c], r, s);
      }
    }
  }

  lemma {:induction false} VisitOrdered(g: Store, rank: seq<nat>, ids: seq<nat>, done: seq<nat>, r: nat)
    requires Acyclic(g, rank) && Below(g, rank, ids, r) && WellOrdered(g, done)
    ensures var o := Visit(g, rank, ids, done, r); WellOrdered(g, o) && Extends(o, done) && AllIn(ids, o)
    decreases r, |ids|
  {
    if ids != [] {
      var s, o := ids[0], Visit(g, rank, ids, done, r);
      var mid := done;
      if s !in done {
        var sub := Visit(g, rank, g[s].subvols, done, rank[s]);
        VisitOrdered(g, rank, g[s].subvols, done, rank[s]);
        NotBelow(g, rank, g[s].subvols, done, rank[s], s);
        OrderedPush(g, sub, s);
        mid := sub + [s];
        assert mid[..|done|] == sub[..|done|];
        assert mid[|sub|] == s;
      }
      VisitOrdered(g, rank, ids[1..], mid, r);
      assert o[..|done|] == o[..|mid|][..|done|];
      ExtendsKeeps(o, mid, s);
    }
  }

  /** A set of translators that contains its members' subvolumes. */
  predicate Closed(g: Store, d: set<nat>) {
    forall x :: x in d ==> x < |g| && forall k :: 0 <= k < |g[x].subvols| ==> g[x].subvols[k] in d
  }

  lemma {:induction false} VisitInside(g: Store, rank: seq<nat>, ids: seq<nat>, done: seq<nat>, r: nat, d: set<nat>)
    requires Acyclic(g, rank) && Below(g, rank, ids, r) && Closed(g, d)
    requires (forall x :: x in done ==> x in d) && (forall k :: 0 <= k < |ids| ==> ids[k] in d)
    ensures forall x :: x in Visit(g, rank, ids, done, r) ==> x in d
    decreases r, |ids|
  {
    if ids != [] {
      var s := ids[0];
      if s in done {
        VisitInside(g, rank, ids[1..], done, r, d);
      } else {
        assert s in d;
        VisitInside(g, rank, g[s].subvols, done, rank[s], d);
        VisitInside(g, rank, ids[1..], Visit(g, rank, g[s].subvols, done, rank[s]) + [s], r, d);
      }
    }
  }

  /** generate prints each translator reachable from the root exactly once, children
      first: no repetition, subvolumes before their parents, the root last; the printed
      set is closed under subvolumes and lies in every closed set that holds the root. */
  lemma {:induction false} OrderFacts(g: Store, rank: seq<nat>, root: nat)
    requires Acyclic(g, rank) && root < |g|
    ensures WellOrdered(g, Order(g, rank, root))
    ensures Closed(g, set x | x in Order(g, rank, root))
    ensures forall d: set<nat> :: Closed(g, d) && root in d ==> forall x :: x in Order(g, rank, root) ==> x in d
  {
    var o := Order(g, rank, root);
    VisitOrdered(g, rank, g[root].subvols, [], rank[root]);
    NotBelow(g, rank, g[root].subvols, [], rank[root], root);
    OrderedPush(g, Visit(g, rank, g[root].subvols, [], rank[root]), root);
    OrderedClosed(g, o);
    forall d: set<nat> | Closed(g, d) && root in d
      ensures forall x :: x in o ==> x in d
    {
      VisitInside(g, rank, g[root].subvols, [], rank[root], d);
    }
  }

  lemma {:induction false} OrderedClosed(g: Store, o: seq<nat>)
    requires ChildrenFirst(g, o)
    ensures Closed(g, set x | x in o)
  {
    forall x | x in o
      ensures x < |g| && forall k :: 0 <= k < |g[x].subvols| ==> g[x].subvols[k] in o
    {
      var i :| 0 <= i < |o| && o[i] == x;
    }
  }

  lemma {:induction false} BelowPart(g: Store, rank: seq<nat>, ids: seq<nat>, k: nat, r: nat)
    requires |rank| == |g| && Below(g, rank, ids, r) && k <= |ids|
    ensures Below(g, rank, ids[..k], r) && Below(g, rank, ids[k..], r)
  {
  }

  lemma {:induction false} VisitAppend(g: Store, rank: seq<nat>, ids: seq<nat>, k: nat, done: seq<nat>, r: nat)
    requires Acyclic(g, rank) && Below(g, rank, ids, r) && k <= |ids| && Below(g, rank, ids[..k], r) && Below(g, rank, ids[k..], r)
    ensures Visit(g, rank, ids, done, r) == Visit(g, rank, ids[k..], Visit(g, rank, ids[..k], done, r), r)
    decreases k
  {
    if k == 0 {
      assert ids[0..] == ids;
    } else {
      assert ids[..k][0] == ids[0] && ids[..k][1..] == ids[1..][..k - 1] && ids[1..][k - 1..] == ids[k..];
      var s := ids[0];
      VisitAppend(g, rank, ids[1..], k - 1, if s in done then done else Visit(g, rank, g[s].subvols, done, rank[s]) + [s], r);
    }
  }

  /** The subvolumes are taken from left to right, each with everything below it before the
      next: what the first k of them bring comes first, then, if it is not there yet, what
      is below subvolume k and it itself. */
  lemma {:induction false} LeftToRight(g: Store, rank: seq<nat>, ids: seq<nat>, k: nat, done: seq<nat>, r: nat)
    requires Acyclic(g, rank) && Below(g, rank, ids, r) && k < |ids| && WellOrdered(g, done)
    requires Below(g, rank, ids[..k], r) && Below(g, rank, ids[..k + 1], r)
    ensures var before, now := Visit(g, rank, ids[..k], done, r), Visit(g, rank, ids[..k + 1], done, r);
            && now == (if ids[k] in before then before else Visit(g, rank, g[ids[k]].subvols, before, rank[ids[k]]) + [ids[k]])
            && Extends(Visit(g, rank, ids, done, r), now)
  {
    var now := Visit(g, rank, ids[..k + 1], done, r);
    assert ids[..k + 1][..k] == ids[..k] && ids[..k + 1][k..] == [ids[k]];
    BelowPart(g, rank, ids, k + 1, r);
    VisitAppend(g, rank, ids[..k + 1], k, done, r);
    VisitAppend(g, rank, ids, k + 1, done, r);
    VisitOrdered(g, rank, ids[..k + 1], done, r);
    VisitOrdered(g, rank, ids[k + 1..], now, r);
  }

  // --------------------------------------------------------------------- the lines

  /** keys[i] is the order in which translator i's options are enumerated. */
  predicate KeyOrder(x: Xlator, keys: seq<string>) {
    && (forall i, j :: 0 <= i < j < |keys| ==> keys[i] != keys[j])
    && (forall i :: 0 <= i < |keys| ==> keys[i] in x.opts)
    && forall k :: k in x.opts ==> k in keys
  }

  predicate KeyOrders(g: Store, keys: seq<seq<string>>) {
    |keys| == |g| && forall i :: 0 <= i < |g| ==> KeyOrder(g[i], keys[i])
  }

  function OptionLine(k: string, v: string): string {
    "    option" + [' '] + (k + [' '] + v)
  }

  function OptionLines(x: Xlator, keys: seq<string>): seq<string>
    requires forall i :: 0 <= i < |keys| ==> keys[i] in x.opts
  {
    if keys == [] then [] else OptionLines(x, keys[..|keys| - 1]) + [OptionLine(keys[|keys| - 1], x.opts[keys[|keys| - 1]])]
  }

  function Names(g: Store, ids: seq<nat>): seq<string>
    requires forall k :: 0 <= k < |ids| ==> ids[k] < |g|
  {
    seq(|ids|, k requires 0 <= k < |ids| => g[ids[k]].name)
  }

  function SubvolLines(g: Store, ids: seq<nat>): seq<string>
    requires forall k :: 0 <= k < |ids| ==> ids[k] < |g|
  {
    if ids == [] then [] else ["    subvolumes" + [' '] + Join(Names(g, ids))]
  }

  /** The lines of one translator. */
  function Block(g: Store, keys: seq<seq<string>>, i: nat): seq<string>
    requires KeyOrders(g, keys) && i < |g| && forall k :: 0 <= k < |g[i].subvols| ==> g[i].subvols[k] < |g|
  {
    var x := g[i];
    ["volume" + [' '] + x.name, "    type" + [' '] + x.kind] + OptionLines(x, keys[i]) + SubvolLines(g, x.subvols) + ["end-volume"]
  }

  lemma {:induction false} OptionAt(x: Xlator, keys: seq<string>, j: nat)
    requires (forall i :: 0 <= i < |keys| ==> keys[i] in x.opts)
    ensures |OptionLines(x, keys)| == |keys|
    ensures j < |keys| ==> OptionLines(x, keys)[j] == "    option " + keys[j] + " " + x.opts[keys[j]]
    decreases |keys|
  {
    if keys != [] {
      OptionAt(x, keys[..|keys| - 1], j);
      var k, v := keys[|keys| - 1], x.opts[keys[|keys| - 1]];
      assert "    option" + [' '] + (k + [' '] + v) == "    option " + k + " " + v;
    }
  }

  /** The lines of a block, one by one. */
  lemma {:induction false} BlockLines(g: Store, keys: seq<seq<string>>, i: nat, j: nat)
    requires KeyOrders(g, keys) && i < |g| && forall k :: 0 <= k < |g[i].subvols| ==> g[i].subvols[k] < |g|
    ensures var b, n, x := Block(g, keys, i), |keys[i]|, g[i];
            && |b| == n + 3 + (if x.subvols == [] then 0 else 1)
            && b[0] == "volume " + x.name && b[1] == "    type " + x.kind && b[|b| - 1] == "end-volume"
            && (j < n ==> b[2 + j] == "    option " + keys[i][j] + " " + x.opts[keys[i][j]])
            && (x.subvols != [] ==> b[2 + n] == "    subvolumes " + Join(Names(g, x.subvols)))
  {
    OptionAt(g[i], keys[i], j);
    assert "volume" + [' '] + g[i].name == "volume " + g[i].name;
    assert "    type" + [' '] + g[i].kind == "    type " + g[i].kind;
    assert "    subvolumes" + [' '] + Join(Names(g, g[i].subvols)) == "    subvolumes " + Join(Names(g, g[i].subvols));
  }

  /** texts[i] is the block of translator i. */
  predicate Texts(g: Store, rank: seq<nat>, keys: seq<seq<string>>, texts: seq<seq<string>>)
    requires Acyclic(g, rank) && KeyOrders(g, keys)
  {
    |texts| == |g| && forall i {:trigger Block(g, keys, i)} :: 0 <= i < |g| ==> texts[i] == Block(g, keys, i)
  }

  function AllTexts(g: Store, rank: seq<nat>, keys: seq<seq<string>>): (texts: seq<seq<string>>)
    requires Acyclic(g, rank) && KeyOrders(g, keys)
    ensures Texts(g, rank, keys, texts)
  {
    seq(|g|, i requires 0 <= i < |g| => Block(g, keys, i))
  }

  /** The blocks of the first m translators in o with an empty line after each. */
  function Spaced(texts: seq<seq<string>>, o: seq<nat>, m: nat): seq<string>
    requires m <= |o| && forall i :: 0 <= i < |o| ==> o[i] < |texts|
  {
    if m == 0 then [] else Spaced(texts, o, m - 1) + texts[o[m - 1]] + [""]
  }

  /** The line at which the block of the m-th translator begins. */
  function LineOf(texts: seq<seq<string>>, o: seq<nat>, m: nat): nat
    requires m <= |o| && forall i :: 0 <= i < |o| ==> o[i] < |texts|
  {
    if m == 0 then 0 else LineOf(texts, o, m - 1) + |texts[o[m - 1]]| + 1
  }

  /** The blocks stand one after the other, each with one empty line behind it. */
  lemma {:induction false} SpacedAt(texts: seq<seq<string>>, o: seq<nat>, m: nat, k: nat)
    requires k < m <= |o| && forall i :: 0 <= i < |o| ==> o[i] < |texts|
    ensures var s, from := Spaced(texts, o, m), LineOf(texts, o, k);
            && |s| == LineOf(texts, o, m) && from + |texts[o[k]]| < |s|
            && s[from..from + |texts[o[k]]|] == texts[o[k]] && s[from + |texts[o[k]]|] == ""
    decreases m
  {
    SpacedLength(texts, o, m);
    SpacedLength(texts, o, m - 1);
    if k + 1 < m {
      SpacedAt(texts, o, m - 1, k);
      var s, t := Spaced(texts, o, m), Spaced(texts, o, m - 1);
      assert s[..|t|] == t;
      var from, upto := LineOf(texts, o, k), LineOf(texts, o, k) + |texts[o[k]]|;
      assert s[from..upto] == t[from..upto];
    }
  }

  lemma {:induction false} SpacedLength(texts: seq<seq<string>>, o: seq<nat>, m: nat)
    requires m <= |o| && forall i :: 0 <= i < |o| ==> o[i] < |texts|
    ensures |Spaced(texts, o, m)| == LineOf(texts, o, m)
  {
    if m > 0 {
      SpacedLength(texts, o, m - 1);
    }
  }

  lemma {:induction false} SpacedPrefix(texts: seq<seq<string>>, o: seq<nat>, more: seq<nat>, m: nat)
    requires m <= |o| && forall i :: 0 <= i < |o + more| ==> (o + more)[i] < |texts|
    requires forall i :: 0 <= i < |o| ==> o[i] < |texts|
    ensures Spaced(texts, o + more, m) == Spaced(texts, o, m)
  {
    if m > 0 {
      SpacedPrefix(texts, o, more, m - 1);
    }
  }

  /** What generate writes for a graph none of whose translators is marked dumped. */
  function Printed(g: Store, rank: seq<nat>, texts: seq<seq<string>>, root: nat): seq<string>
    requires Acyclic(g, rank) && |texts| == |g| && root < |g|
  {
    VisitOrdered(g, rank, g[root].subvols, [], rank[root]);
    var front := Visit(g, rank, g[root].subvols, [], rank[root]);
    Spaced(texts, front, |front|) + texts[root]
  }
}
