/** What path resolution promises, on every namespace and every path. */
module PathTheorems {
  import opened Options
  import opened Tokens
  import opened PathWalk

  /** Premises: the root is a directory that answers lookups, and every link holds
      "/" or at least one component. */
  predicate Sane(ns: Namespace) {
    && ns.rootAnswers && TypeOf(ns, ROOT) == Dir
    && forall g :: g in ns.types && ns.types[g].Link? ==> ns.types[g].target == "/" || Components(ns.types[g].target) != []
  }

  /** On success the iatt type is the type of the inode. */
  lemma {:induction false} SeenIsType(ns: Namespace, at: Gfid, comps: seq<Name>, seen: Type, follow: nat)
    requires Sane(ns) && (comps == [] ==> seen == TypeOf(ns, at))
    ensures var f := Resolve(ns, at, comps, seen, follow); f.inode.Some? ==> f.seen == TypeOf(ns, f.inode.value)
    decreases Measure(follow), |comps|, 2
  {
    if comps != [] {
      EnteredType(ns, at, comps[0], |comps| == 1, follow);
      var (x, t) := Enter(ns, at, comps[0], |comps| == 1, follow);
      if |comps| > 1 && x.Some? && t.Dir? {
        SeenIsType(ns, x.value, comps[1..], t, follow);
      }
    }
  }

  lemma {:induction false} EnteredType(ns: Namespace, at: Gfid, name: Name, last: bool, follow: nat)
    requires Sane(ns)
    ensures var (x, t) := Enter(ns, at, name, last, follow); x.Some? ==> t == TypeOf(ns, x.value)
    decreases Measure(follow), 0, 1
  {
    var x := Lookup(ns, at, name);
    if x.Some? && TypeOf(ns, x.value).Link? && (!last || follow > 0) && follow <= GLFS_SYMLINK_MAX_FOLLOW {
      var target := TypeOf(ns, x.value).target;
      SeenIsType(ns, StartOf(at, target), Components(target), StartSeen(ns, target), follow + 1);
    }
  }

  /** A resolution that follows links never ends on one. */
  lemma {:induction false} NeverLink(ns: Namespace, at: Gfid, comps: seq<Name>, seen: Type, follow: nat)
    requires Sane(ns) && follow >= 1 && (comps == [] ==> !TypeOf(ns, at).Link?)
    ensures var f := Resolve(ns, at, comps, seen, follow); f.inode.Some? ==> !TypeOf(ns, f.inode.value).Link?
    decreases Measure(follow), |comps|
  {
    if |comps| == 1 {
      var x := Lookup(ns, at, comps[0]);
      if x.Some? && TypeOf(ns, x.value).Link? && follow <= GLFS_SYMLINK_MAX_FOLLOW {
        var target := TypeOf(ns, x.value).target;
        NeverLink(ns, StartOf(at, target), Components(target), StartSeen(ns, target), follow + 1);
      }
    } else if |comps| > 1 {
      var (x, t) := Enter(ns, at, comps[0], false, follow);
      if x.Some? && t.Dir? {
        NeverLink(ns, x.value, comps[1..], t, follow);
      }
    }
  }

  // ------------------------------------------------------------ where a path starts

  /** A path that starts with a slash is resolved from the root, wherever the caller is. */
  lemma {:induction false} AbsolutePath(ns: Namespace, at: Gfid, at': Gfid, q: string, follow: nat)
    ensures ResolvePath(ns, at, "/" + q, follow) == ResolvePath(ns, at', "/" + q, follow)
    ensures if Components(q) != [] then ResolvePath(ns, at, "/" + q, follow) == Resolve(ns, ROOT, Components(q), Invalid, follow)
            else ResolvePath(ns, at, "/" + q, follow) == Found(Some(ROOT), if q == "" && ns.rootAnswers then Dir else Invalid, None)
  {
    assert "" + "/" + q == "/" + q;
    SplitAppend("", '/', q, Slash);
  }

  /** Any other path is resolved from the caller's directory. */
  lemma {:induction false} RelativePath(ns: Namespace, at: Gfid, path: string, follow: nat)
    requires path == "" || path[0] != '/'
    ensures ResolvePath(ns, at, path, follow) == Resolve(ns, at, Components(path), Invalid, follow)
    ensures path != "" ==> Components(path) != []
  {
  }

  /** The contents of a link are resolved one level deeper, from the root if they start
      with a slash and otherwise from the directory that holds the link; a path goes on
      from there if it is a directory. */
  lemma {:induction false} LinkStart(ns: Namespace, at: Gfid, name: Name, q: seq<Name>, seen: Type, follow: nat, target: string)
    requires Lookup(ns, at, name).Some? && TypeOf(ns, Lookup(ns, at, name).value) == Link(target)
    requires Components(target) != [] && follow <= GLFS_SYMLINK_MAX_FOLLOW && (q != [] || follow > 0)
    ensures var f, r := Resolve(ns, at, [name] + q, seen, follow),
                        Resolve(ns, if target[0] == '/' then ROOT else at, Components(target), Invalid, follow + 1);
            if q == [] then f == Found(r.inode, r.seen, Some(at))
            else f == if r.inode.Some? && r.seen.Dir? then Resolve(ns, r.inode.value, q, Dir, follow) else NOWHERE
  {
    assert ([name] + q)[1..] == q;
    assert Resolve(ns, StartOf(at, target), Components(target), StartSeen(ns, target), follow + 1)
        == Resolve(ns, StartOf(at, target), Components(target), Invalid, follow + 1);
  }

  // ------------------------------------------------------ prefixes and parents

  /** The directory that the components stand for, all links followed. */
  function Prefix(ns: Namespace, at: Gfid, comps: seq<Name>, follow: nat): Option<Gfid>
    decreases |comps|
  {
    if comps == [] then
      Some(at)
    else
      var (x, t) := Enter(ns, at, comps[0], false, follow);
      if x.Some? && t.Dir? then Prefix(ns, x.value, comps[1..], follow) else None
  }

  lemma {:induction false} ResolveFromPrefix(ns: Namespace, at: Gfid, p: seq<Name>, q: seq<Name>, seen: Type, seen': Type, follow: nat)
    requires q != []
    ensures var d := Prefix(ns, at, p, follow);
            Resolve(ns, at, p + q, seen, follow) == if d.Some? then Resolve(ns, d.value, q, seen', follow) else NOWHERE
    decreases |p|
  {
    if p == [] {
      assert p + q == q;
    } else {
      assert (p + q)[0] == p[0] && (p + q)[1..] == p[1..] + q;
      var (x, t) := Enter(ns, at, p[0], false, follow);
      if x.Some? && t.Dir? {
        ResolveFromPrefix(ns, x.value, p[1..], q, t, seen', follow);
      }
    }
  }

  /** loc.parent is set, on success and on failure alike, exactly when every
      component but the last leads to a directory, and then it is that directory. */
  lemma {:induction false} ParentIsPrefix(ns: Namespace, at: Gfid, comps: seq<Name>, seen: Type, follow: nat)
    requires comps != []
    ensures Resolve(ns, at, comps, seen, follow).parent == Prefix(ns, at, comps[..|comps| - 1], follow)
  {
    var p, q := comps[..|comps| - 1], comps[|comps| - 1..];
    assert comps == p + q;
    ResolveFromPrefix(ns, at, p, q, seen, seen, follow);
  }

  lemma {:induction false} PrefixIsResolve(ns: Namespace, at: Gfid, p: seq<Name>, seen: Type, follow: nat)
    requires Sane(ns) && follow >= 1 && (p == [] ==> TypeOf(ns, at).Dir?)
    ensures var f := Resolve(ns, at, p, seen, follow);
            Prefix(ns, at, p, follow) == if f.inode.Some? && TypeOf(ns, f.inode.value).Dir? then f.inode else None
    decreases |p|
  {
    if p != [] {
      EnteredType(ns, at, p[0], false, follow);
      var (x, t) := Enter(ns, at, p[0], false, follow);
      if x.Some? && t.Dir? && |p| > 1 {
        PrefixIsResolve(ns, x.value, p[1..], t, follow);
      }
    }
  }

  lemma {:induction false} PrefixIsDir(ns: Namespace, at: Gfid, p: seq<Name>, follow: nat)
    requires Sane(ns) && (p == [] ==> TypeOf(ns, at).Dir?)
    ensures Prefix(ns, at, p, follow).Some? ==> TypeOf(ns, Prefix(ns, at, p, follow).value).Dir?
    decreases |p|
  {
    if p != [] {
      EnteredType(ns, at, p[0], false, follow);
      var (x, t) := Enter(ns, at, p[0], false, follow);
      if x.Some? && t.Dir? && |p| > 1 {
        PrefixIsDir(ns, x.value, p[1..], follow);
      }
    }
  }

  lemma {:induction false} PrefixIsDot(ns: Namespace, at: Gfid, p: string, follow: nat)
    requires Sane(ns) && TypeOf(ns, at).Dir? && p != ""
    ensures ResolvePath(ns, at, p + "/.", follow).inode == Prefix(ns, StartOf(at, p), Components(p), follow)
  {
    SplitAppend(p, '/', ".", Slash);
    SplitClean(".", Slash);
    assert p + "/." == p + "/" + "." && Components(p + "/.") == Components(p) + ["."];
    PrefixIsDir(ns, StartOf(at, p), Components(p), follow);
    ResolveFromPrefix(ns, StartOf(at, p), Components(p), ["."], StartSeen(ns, p + "/."), Dir, follow);
  }

  /** Resolution composes over any split of the path at a slash: the rest is resolved
      from the directory that the first part stands for, its last link followed too
      (so "p/." names it).  With follow at least 1 that is what p itself resolves to. */
  lemma {:induction false} ComposeAtSlash(ns: Namespace, at: Gfid, p: string, q: string, follow: nat)
    requires Sane(ns) && TypeOf(ns, at).Dir?
    requires p != "" && q != "" && q[0] != '/'
    ensures var d := ResolvePath(ns, at, p + "/.", follow).inode;
            ResolvePath(ns, at, p + "/" + q, follow) == if d.Some? then ResolvePath(ns, d.value, q, follow) else NOWHERE
    ensures var f, d := ResolvePath(ns, at, p, follow), ResolvePath(ns, at, p + "/.", follow).inode;
            follow >= 1 ==> d == if f.inode.Some? && TypeOf(ns, f.inode.value).Dir? then f.inode else None
  {
    SplitAppend(p, '/', q, Slash);
    assert Components(p + "/" + q) == Components(p) + Components(q);
    assert Components(q) != [];
    var start := StartOf(at, p);
    assert StartOf(at, p + "/" + q) == start;
    PrefixIsDot(ns, at, p, follow);
    if follow >= 1 {
      PrefixIsResolve(ns, start, Components(p), StartSeen(ns, p), follow);
    }
    ResolveFromPrefix(ns, start, Components(p), Components(q), StartSeen(ns, p + "/" + q), StartSeen(ns, q), follow);
  }

  // ------------------------------------------------------------ links and loops

  /** A link in mid-path whose contents have no component is passed exactly when it
      holds "/": "//", which names the same directory, makes the path fail. */
  lemma {:induction false} EmptyTarget(ns: Namespace, at: Gfid, name: Name, q: seq<Name>, seen: Type, follow: nat)
    requires Lookup(ns, at, name).Some? && TypeOf(ns, Lookup(ns, at, name).value).Link?
    requires Components(TypeOf(ns, Lookup(ns, at, name).value).target) == []
    requires q != [] && follow <= GLFS_SYMLINK_MAX_FOLLOW
    ensures var target := TypeOf(ns, Lookup(ns, at, name).value).target;
            Resolve(ns, at, [name] + q, seen, follow) ==
              if target == "/" && ns.rootAnswers then Resolve(ns, ROOT, q, Dir, follow) else NOWHERE
  {
    ResolveFromPrefix(ns, at, [name], q, seen, Dir, follow);
    var target := TypeOf(ns, Lookup(ns, at, name).value).target;
    assert Resolve(ns, StartOf(at, target), [], StartSeen(ns, target), follow + 1).seen == StartSeen(ns, target);
  }

  function Repeat(name: Name, n: nat): seq<Name> {
    if n == 0 then [] else [name] + Repeat(name, n - 1)
  }

  /** Links beside each other use up no depth: any number of them is followed. */
  lemma {:induction false} ManyLinks(ns: Namespace, at: Gfid, name: Name, n: nat, seen: Type, follow: nat)
    requires Lookup(ns, at, name).Some? && TypeOf(ns, Lookup(ns, at, name).value) == Link(".") && TypeOf(ns, at).Dir?
    requires 1 <= follow <= GLFS_SYMLINK_MAX_FOLLOW
    ensures Resolve(ns, at, Repeat(name, n), seen, follow).inode == Some(at)
  {
    if n > 0 {
      SplitClean(".", Slash);
      assert Resolve(ns, at, ["."], StartSeen(ns, "."), follow + 1) == Found(Some(at), Dir, Some(at));
      assert Enter(ns, at, name, n == 1, follow) == (Some(at), Dir);
      assert Repeat(name, n)[1..] == Repeat(name, n - 1);
      ManyLinks(ns, at, name, n - 1, Dir, follow);
    }
  }

  /** A link to itself is given up on, at every depth. */
  lemma {:induction false} SelfLoopFails(ns: Namespace, at: Gfid, name: Name, seen: Type, follow: nat)
    requires Clean(name, Slash) && Lookup(ns, at, name).Some? && TypeOf(ns, Lookup(ns, at, name).value) == Link(name)
    requires follow >= 1
    ensures Resolve(ns, at, [name], seen, follow).inode.None?
    decreases Measure(follow)
  {
    if follow <= GLFS_SYMLINK_MAX_FOLLOW {
      SplitClean(name, Slash);
      SelfLoopFails(ns, at, name, StartSeen(ns, name), follow + 1);
    }
  }
}
