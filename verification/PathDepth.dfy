/**
  Exactly which paths resolve: the code limits how deep links are nested, not how many
  are followed.  Track is the component walk with a note, on every component, of how many
  links its text lies inside; the depth of a walk is the deepest nesting it went through.
*/
module PathDepth {
  import opened Options
  import opened Tokens
  import opened PathWalk
  import opened PathTheorems

  datatype Step = Step(name: Name, level: nat)

  /** Where a walk ends, and how many links deep it went. */
  datatype Trip = Trip(end: Gfid, depth: nat)

  function Tag(comps: seq<Name>, level: nat): (s: seq<Step>)
    ensures |s| == |comps| && forall i :: 0 <= i < |s| ==> s[i] == Step(comps[i], level)
  {
    seq(|comps|, i requires 0 <= i < |comps| => Step(comps[i], level))
  }

  function Names(steps: seq<Step>): (s: seq<Name>)
    ensures |s| == |steps| && forall i :: 0 <= i < |s| ==> s[i] == steps[i].name
  {
    seq(|steps|, i requires 0 <= i < |steps| => steps[i].name)
  }

  function Max(a: nat, b: nat): nat {
    if a > b then a else b
  }

  function Deepen(r: Option<Trip>, depth: nat): Option<Trip> {
    if r.Some? then Some(Trip(r.value.end, Max(r.value.depth, depth))) else None
  }

  /** The first component, a link, replaced by its contents one level deeper. */
  function Into(target: string, steps: seq<Step>): seq<Step>
    requires steps != []
  {
    Tag(Components(target), steps[0].level + 1) + steps[1..]
  }

  lemma {:induction false} IntoAppend(target: string, p: seq<Step>, q: seq<Step>)
    requires p != []
    ensures p + q != [] && (p + q)[0] == p[0] && (p + q)[1..] == p[1..] + q
    ensures Into(target, p + q) == Into(target, p) + q
  {
    assert (p + q)[1..] == p[1..] + q;
    var t := Tag(Components(target), p[0].level + 1);
    assert t + (p[1..] + q) == t + p[1..] + q;
  }

  /** The walk of PathWalk with levels; contents of a link lie one level deeper. */
  function Track(ns: Namespace, at: Gfid, steps: seq<Step>, followLast: bool, links: nat): Option<Trip>
    decreases links, |steps|
  {
    if steps == [] then
      Some(Trip(at, 0))
    else
      var x, rest := Lookup(ns, at, steps[0].name), steps[1..];
      if x.None? then
        None
      else if TypeOf(ns, x.value).Link? && (rest != [] || followLast) then
        if links == 0 then None
        else
          var target := TypeOf(ns, x.value).target;
          Deepen(Track(ns, StartOf(at, target), Into(target, steps), followLast, links - 1), steps[0].level + 1)
      else if rest == [] then
        Some(Trip(x.value, 0))
      else if TypeOf(ns, x.value).Dir? then
        Track(ns, x.value, rest, followLast, links)
      else
        None
  }

  /** The levels change nothing about the walk. */
  lemma {:induction false} TrackIsWalk(ns: Namespace, at: Gfid, steps: seq<Step>, followLast: bool, k: nat)
    ensures var r := Track(ns, at, steps, followLast, k);
            Walk(ns, at, Names(steps), followLast, k) == if r.Some? then Some(r.value.end) else None
    decreases k, |steps|
  {
    if steps != [] {
      var x, rest := Lookup(ns, at, steps[0].name), steps[1..];
      assert Names(steps)[1..] == Names(rest);
      if x.Some? && TypeOf(ns, x.value).Link? && (rest != [] || followLast) {
        if k > 0 {
          var target := TypeOf(ns, x.value).target;
          assert Names(Into(target, steps)) == Components(target) + Names(rest);
          TrackIsWalk(ns, StartOf(at, target), Into(target, steps), followLast, k - 1);
        }
      } else if x.Some? && rest != [] {
        TrackIsWalk(ns, x.value, rest, followLast, k);
      }
    }
  }

  /** Neither result nor depth depends on how many links were allowed. */
  lemma {:induction false} TrackMore(ns: Namespace, at: Gfid, steps: seq<Step>, followLast: bool, k: nat, k': nat)
    requires k <= k' && Track(ns, at, steps, followLast, k).Some?
    ensures Track(ns, at, steps, followLast, k') == Track(ns, at, steps, followLast, k)
    decreases k, |steps|
  {
    if steps != [] {
      var x, rest := Lookup(ns, at, steps[0].name), steps[1..];
      if TypeOf(ns, x.value).Link? && (rest != [] || followLast) {
        var target := TypeOf(ns, x.value).target;
        TrackMore(ns, StartOf(at, target), Into(target, steps), followLast, k - 1, k' - 1);
      } else if rest != [] {
        TrackMore(ns, x.value, rest, followLast, k, k');
      }
    }
  }

  function Joined(a: Trip, b: Trip): Trip {
    Trip(b.end, Max(a.depth, b.depth))
  }

  /** A component that is not a link is passed if it is a directory. */
  lemma {:induction false} TrackPlain(ns: Namespace, at: Gfid, p: seq<Step>, q: seq<Step>, followLast: bool, k: nat, x: Gfid)
    requires p != [] && q != [] && Lookup(ns, at, p[0].name) == Some(x) && !TypeOf(ns, x).Link?
    ensures Track(ns, at, p + q, followLast, k) == if TypeOf(ns, x).Dir? then Track(ns, x, p[1..] + q, followLast, k) else None
  {
    assert (p + q)[0] == p[0] && (p + q)[1..] == p[1..] + q;
  }

  /** A link at the head of the first part; its rest joins as the hypothesis says. */
  lemma {:induction false} JoinLink(ns: Namespace, at: Gfid, p: seq<Step>, q: seq<Step>, followLast: bool, k: nat, m: nat, a': Trip, b: Trip)
    requires p != [] && q != [] && k > 0 && Lookup(ns, at, p[0].name).Some? && TypeOf(ns, Lookup(ns, at, p[0].name).value).Link?
    requires var target := TypeOf(ns, Lookup(ns, at, p[0].name).value).target;
             Track(ns, StartOf(at, target), Into(target, p) + q, followLast, k - 1 + m) == Some(Joined(a', b))
    ensures Track(ns, at, p + q, followLast, k + m) == Some(Joined(Trip(a'.end, Max(a'.depth, p[0].level + 1)), b))
  {
    IntoAppend(TypeOf(ns, Lookup(ns, at, p[0].name).value).target, p, q);
  }

  /** Walking p to a directory and then q is walking p followed by q; the depth is the
      greater of the two. */
  lemma {:induction false} TrackJoin(ns: Namespace, at: Gfid, p: seq<Step>, q: seq<Step>, followLast: bool, k: nat, m: nat, a: Trip, b: Trip)
    requires q != [] && Track(ns, at, p, true, k) == Some(a) && TypeOf(ns, a.end).Dir?
    requires Track(ns, a.end, q, followLast, m) == Some(b)
    ensures Track(ns, at, p + q, followLast, k + m) == Some(Joined(a, b))
    decreases k, |p|
  {
    if p == [] {
      assert p + q == q;
      TrackMore(ns, at, q, followLast, m, k + m);
    } else {
      var x, rest := Lookup(ns, at, p[0].name), p[1..];
      if TypeOf(ns, x.value).Link? {
        var target := TypeOf(ns, x.value).target;
        var a' := Track(ns, StartOf(at, target), Into(target, p), true, k - 1).value;
        TrackJoin(ns, StartOf(at, target), Into(target, p), q, followLast, k - 1, m, a', b);
        JoinLink(ns, at, p, q, followLast, k, m, a', b);
      } else {
        TrackPlain(ns, at, p, q, followLast, k + m, x.value);
        if rest == [] {
          assert rest + q == q;
          TrackMore(ns, x.value, q, followLast, m, k + m);
        } else {
          TrackJoin(ns, x.value, rest, q, followLast, k, m, a, b);
        }
      }
    }
  }

  lemma {:induction false} SplitLink(ns: Namespace, at: Gfid, p: seq<Step>, q: seq<Step>, followLast: bool, k: nat, a': Trip, b: Trip)
    requires p != [] && q != [] && k > 0 && Lookup(ns, at, p[0].name).Some? && TypeOf(ns, Lookup(ns, at, p[0].name).value).Link?
    requires var target := TypeOf(ns, Lookup(ns, at, p[0].name).value).target;
             && Track(ns, StartOf(at, target), Into(target, p), true, k - 1) == Some(a')
             && Track(ns, StartOf(at, target), Into(target, p) + q, followLast, k - 1) == Some(Joined(a', b))
    ensures var a := Trip(a'.end, Max(a'.depth, p[0].level + 1));
            Track(ns, at, p, true, k) == Some(a) && Track(ns, at, p + q, followLast, k) == Some(Joined(a, b))
  {
    IntoAppend(TypeOf(ns, Lookup(ns, at, p[0].name).value).target, p, q);
  }

  /** A walk of p followed by q passes through a directory that p stands for. */
  lemma {:induction false} TrackSplit(ns: Namespace, at: Gfid, p: seq<Step>, q: seq<Step>, followLast: bool, k: nat) returns (a: Trip, b: Trip)
    requires Sane(ns) && q != [] && Track(ns, at, p + q, followLast, k).Some? && (p == [] ==> TypeOf(ns, at).Dir?)
    ensures Track(ns, at, p, true, k) == Some(a) && TypeOf(ns, a.end).Dir? && Track(ns, a.end, q, followLast, k) == Some(b)
    ensures Track(ns, at, p + q, followLast, k) == Some(Joined(a, b))
    decreases k, |p|
  {
    if p == [] {
      assert p + q == q;
      a, b := Trip(at, 0), Track(ns, at, q, followLast, k).value;
    } else {
      var x, rest := Lookup(ns, at, p[0].name), p[1..];
      if x.Some? && TypeOf(ns, x.value).Link? {
        var target := TypeOf(ns, x.value).target;
        IntoAppend(target, p, q);
        a, b := TrackSplit(ns, StartOf(at, target), Into(target, p), q, followLast, k - 1);
        TrackMore(ns, a.end, q, followLast, k - 1, k);
        SplitLink(ns, at, p, q, followLast, k, a, b);
        a := Trip(a.end, Max(a.depth, p[0].level + 1));
      } else {
        assert (p + q)[0] == p[0];
        TrackPlain(ns, at, p, q, followLast, k, x.value);
        if rest == [] {
          assert rest + q == q;
          a, b := Trip(x.value, 0), Track(ns, x.value, q, followLast, k).value;
        } else {
          a, b := TrackSplit(ns, x.value, rest, q, followLast, k);
        }
      }
    }
  }

  // ----------------------------------------------------------- one level deeper

  function Raise(steps: seq<Step>): (s: seq<Step>)
    ensures |s| == |steps| && forall i :: 0 <= i < |s| ==> s[i] == Step(steps[i].name, steps[i].level + 1)
  {
    seq(|steps|, i requires 0 <= i < |steps| => Step(steps[i].name, steps[i].level + 1))
  }

  function Raised(r: Option<Trip>): Option<Trip> {
    if r.Some? then Some(Trip(r.value.end, if r.value.depth == 0 then 0 else r.value.depth + 1)) else None
  }

  lemma {:induction false} IntoRaise(target: string, steps: seq<Step>)
    requires steps != []
    ensures Into(target, Raise(steps)) == Raise(Into(target, steps))
  {
  }

  lemma {:induction false} RaiseHead(steps: seq<Step>)
    requires steps != []
    ensures Raise(steps) != [] && Raise(steps)[0] == Step(steps[0].name, steps[0].level + 1) && Raise(steps)[1..] == Raise(steps[1..])
  {
  }

  /** Two walks over the same names take the same turns. */
  lemma {:induction false} RaiseLink(ns: Namespace, at: Gfid, steps: seq<Step>, up: seq<Step>, target: string, followLast: bool, k: nat)
    requires steps != [] && up != [] && up[0] == Step(steps[0].name, steps[0].level + 1) && |up| == |steps| && k > 0
    requires Lookup(ns, at, steps[0].name).Some? && TypeOf(ns, Lookup(ns, at, steps[0].name).value) == Link(target)
    requires |steps| > 1 || followLast
    requires Track(ns, StartOf(at, target), Into(target, up), followLast, k - 1) == Raised(Track(ns, StartOf(at, target), Into(target, steps), followLast, k - 1))
    ensures Track(ns, at, up, followLast, k) == Raised(Track(ns, at, steps, followLast, k))
  {
  }

  lemma {:induction false} TrackRaise(ns: Namespace, at: Gfid, steps: seq<Step>, followLast: bool, k: nat)
    ensures Track(ns, at, Raise(steps), followLast, k) == Raised(Track(ns, at, steps, followLast, k))
    decreases k, |steps|
  {
    if steps != [] {
      var x, rest := Lookup(ns, at, steps[0].name), steps[1..];
      RaiseHead(steps);
      if x.Some? && TypeOf(ns, x.value).Link? && (rest != [] || followLast) {
        if k > 0 {
          var target := TypeOf(ns, x.value).target;
          IntoRaise(target, steps);
          TrackRaise(ns, StartOf(at, target), Into(target, steps), followLast, k - 1);
          RaiseLink(ns, at, steps, Raise(steps), target, followLast, k);
        }
      } else if x.Some? && rest != [] {
        TrackRaise(ns, x.value, rest, followLast, k);
      }
    }
  }

  lemma {:induction false} TrackInside(ns: Namespace, at: Gfid, comps: seq<Name>, followLast: bool, k: nat)
    ensures Track(ns, at, Tag(comps, 1), followLast, k) == Raised(Track(ns, at, Tag(comps, 0), followLast, k))
  {
    assert Tag(comps, 1) == Raise(Tag(comps, 0));
    TrackRaise(ns, at, Tag(comps, 0), followLast, k);
  }

  // -------------------------------------------------------------- the exact bound

  /** Nested calls that start at level follow can go this deep. */
  predicate Fits(depth: nat, follow: nat) {
    depth == 0 || follow + depth <= GLFS_SYMLINK_MAX_FOLLOW + 1
  }

  /** The walk that may follow k links ends at x within the nesting that is allowed. */
  predicate EndsAt(ns: Namespace, at: Gfid, comps: seq<Name>, follow: nat, x: Gfid, k: nat) {
    var r := Track(ns, at, Tag(comps, 0), follow > 0, k);
    r.Some? && r.value.end == x && Fits(r.value.depth, follow)
  }

  lemma {:induction false} DeepSound(ns: Namespace, at: Gfid, comps: seq<Name>, seen: Type, follow: nat) returns (k: nat, r: Trip)
    requires Sane(ns) && Resolve(ns, at, comps, seen, follow).inode.Some?
    ensures Track(ns, at, Tag(comps, 0), follow > 0, k) == Some(r)
    ensures Resolve(ns, at, comps, seen, follow).inode == Some(r.end) && Fits(r.depth, follow)
    decreases Measure(follow), |comps|, 2
  {
    if comps == [] {
      k, r := 0, Trip(at, 0);
    } else {
      var last := |comps| == 1;
      var (x, t) := Enter(ns, at, comps[0], last, follow);
      EnteredType(ns, at, comps[0], last, follow);
      k, r := DeepEnter(ns, at, comps[0], last, follow);
      if last {
        assert Tag(comps, 0) == [Step(comps[0], 0)];
      } else {
        var m, b := DeepSound(ns, x.value, comps[1..], t, follow);
        assert Tag(comps, 0) == [Step(comps[0], 0)] + Tag(comps[1..], 0);
        TrackJoin(ns, at, [Step(comps[0], 0)], Tag(comps[1..], 0), follow > 0, k, m, r, b);
        k, r := k + m, Trip(b.end, Max(r.depth, b.depth));
      }
    }
  }

  lemma {:induction false} DeepEnter(ns: Namespace, at: Gfid, name: Name, last: bool, follow: nat) returns (k: nat, r: Trip)
    requires Sane(ns) && Enter(ns, at, name, last, follow).0.Some?
    ensures Track(ns, at, [Step(name, 0)], !last || follow > 0, k) == Some(r)
    ensures Enter(ns, at, name, last, follow).0 == Some(r.end) && Fits(r.depth, follow)
    decreases Measure(follow), 0, 1
  {
    var x := Lookup(ns, at, name).value;
    if TypeOf(ns, x).Link? && (!last || follow > 0) {
      var target := TypeOf(ns, x).target;
      k, r := DeepSound(ns, StartOf(at, target), Components(target), StartSeen(ns, target), follow + 1);
      TrackInside(ns, StartOf(at, target), Components(target), true, k);
      assert Into(target, [Step(name, 0)]) == Tag(Components(target), 1);
      k, r := k + 1, Trip(r.end, if r.depth == 0 then 1 else r.depth + 1);
    } else {
      k, r := 0, Trip(x, 0);
    }
  }

  /** The head is a link to be followed. */
  lemma {:induction false} LinkComplete(ns: Namespace, at: Gfid, comps: seq<Name>, seen: Type, follow: nat, k: nat, r: Trip, x: Gfid)
    requires Sane(ns) && Track(ns, at, Tag(comps, 0), follow > 0, k) == Some(r) && Fits(r.depth, follow)
    requires comps != [] && Lookup(ns, at, comps[0]) == Some(x) && TypeOf(ns, x).Link? && (|comps| > 1 || follow > 0)
    ensures Resolve(ns, at, comps, seen, follow).inode == Some(r.end)
    decreases k, |comps|, 0
  {
    var rest, steps, target := comps[1..], Tag(comps, 0), TypeOf(ns, x).target;
    var start, inner := StartOf(at, target), Components(target);
    EnteredType(ns, at, comps[0], rest == [], follow);
    if rest == [] {
      assert Into(target, steps) == Tag(inner, 1);
      InsideComplete(ns, start, inner, target, follow, k - 1);
    } else {
      assert Into(target, steps) == Tag(inner, 1) + Tag(rest, 0);
      var a, b := TrackSplit(ns, start, Tag(inner, 1), Tag(rest, 0), follow > 0, k - 1);
      InsideComplete(ns, start, inner, target, follow, k - 1);
      DeepComplete(ns, a.end, rest, TypeOf(ns, a.end), follow, k - 1, b);
    }
  }

  lemma {:induction false} DeepComplete(ns: Namespace, at: Gfid, comps: seq<Name>, seen: Type, follow: nat, k: nat, r: Trip)
    requires Sane(ns) && Track(ns, at, Tag(comps, 0), follow > 0, k) == Some(r) && Fits(r.depth, follow)
    ensures Resolve(ns, at, comps, seen, follow).inode == Some(r.end)
    decreases k, |comps|, 1
  {
    if comps != [] {
      var last, rest, steps := |comps| == 1, comps[1..], Tag(comps, 0);
      var x := Lookup(ns, at, comps[0]).value;
      if TypeOf(ns, x).Link? && (!last || follow > 0) {
        LinkComplete(ns, at, comps, seen, follow, k, r, x);
      } else if !last {
        assert steps[1..] == Tag(rest, 0);
        DeepComplete(ns, x, rest, TypeOf(ns, x), follow, k, r);
      }
    }
  }

  /** The nested call for a link's contents. */
  lemma {:induction false} InsideComplete(ns: Namespace, start: Gfid, inner: seq<Name>, target: string, follow: nat, k: nat)
    requires Sane(ns) && Track(ns, start, Tag(inner, 1), true, k).Some? && follow <= GLFS_SYMLINK_MAX_FOLLOW
    requires Fits(Track(ns, start, Tag(inner, 1), true, k).value.depth, follow)
    ensures Resolve(ns, start, inner, StartSeen(ns, target), follow + 1).inode == Some(Track(ns, start, Tag(inner, 1), true, k).value.end)
    decreases k, |inner|, 2
  {
    TrackInside(ns, start, inner, true, k);
    DeepComplete(ns, start, inner, StartSeen(ns, target), follow + 1, k, Track(ns, start, Tag(inner, 0), true, k).value);
  }

  /** The code finds x if and only if the walk does and its links are nested no deeper
      than the bound allows. */
  lemma {:induction false} ResolveIff(ns: Namespace, at: Gfid, comps: seq<Name>, seen: Type, follow: nat, x: Gfid)
    requires Sane(ns)
    ensures Resolve(ns, at, comps, seen, follow).inode == Some(x) <==> exists k: nat :: EndsAt(ns, at, comps, follow, x, k)
  {
    if Resolve(ns, at, comps, seen, follow).inode == Some(x) {
      var k, r := DeepSound(ns, at, comps, seen, follow);
      assert EndsAt(ns, at, comps, follow, x, k);
    }
    if k: nat :| EndsAt(ns, at, comps, follow, x, k) {
      DeepComplete(ns, at, comps, seen, follow, k, Track(ns, at, Tag(comps, 0), follow > 0, k).value);
    }
  }

  /** A resolution that succeeds returns what the plain walk returns. */
  lemma {:induction false} ResolveSound(ns: Namespace, at: Gfid, comps: seq<Name>, seen: Type, follow: nat) returns (k: nat)
    requires Sane(ns) && Resolve(ns, at, comps, seen, follow).inode.Some?
    ensures Walk(ns, at, comps, follow > 0, k) == Resolve(ns, at, comps, seen, follow).inode
  {
    var r;
    k, r := DeepSound(ns, at, comps, seen, follow);
    assert Names(Tag(comps, 0)) == comps;
    TrackIsWalk(ns, at, Tag(comps, 0), follow > 0, k);
  }
}
