/**
  Path resolution over a fixed namespace.

  Walk is the textbook component walk of section 4.13 (Pathname Resolution) of
  POSIX.1-2017 Base Definitions: a symbolic link is replaced by its contents in
  front of the components that remain.  Resolve is the recursion that
  priv_glfs_resolve_at performs instead: a link is resolved by a nested call one
  level deeper.
*/
module PathWalk {
  import opened Options
  import opened Tokens

  const GLFS_SYMLINK_MAX_FOLLOW: nat := 2048
  const ROOT: Gfid := 1

  type Gfid = nat
  type Name = string

  /** ia_type, with the contents of a symbolic link. Invalid is a zeroed iatt. */
  datatype Type = Invalid | Dir | Link(target: string) | Other

  /** What the server holds.  `up` is the parent of a directory; `rootAnswers` says
      whether a lookup of the root succeeds. */
  datatype Namespace = Namespace(
    types: map<Gfid, Type>,
    entries: map<(Gfid, Name), Gfid>,
    up: map<Gfid, Gfid>,
    rootAnswers: bool)

  function TypeOf(ns: Namespace, g: Gfid): Type {
    if g in ns.types then ns.types[g] else Other
  }

  predicate Dot(name: Name) {
    name == "." || name == ".."
  }

  /** A named lookup on the server. */
  function Lookup(ns: Namespace, dir: Gfid, name: Name): Option<Gfid> {
    if name == "." then Some(dir)
    else if name == ".." then Some(if dir in ns.up then ns.up[dir] else dir)
    else if (dir, name) in ns.entries then Some(ns.entries[(dir, name)])
    else None
  }

  predicate Slash(c: char) {
    c == '/'
  }

  function Components(path: string): seq<Name> {
    Split(path, Slash)
  }

  /** A path that starts with a slash starts at the root. */
  function StartOf(at: Gfid, path: string): Gfid {
    if path != "" && path[0] == '/' then ROOT else at
  }

  /** The iatt type known before the first component: only "/" is looked up. */
  function StartSeen(ns: Namespace, path: string): Type {
    if path == "/" && ns.rootAnswers then Dir else Invalid
  }

  // ------------------------------------------------------------ the reference

  /** Follow at most `links` symbolic links. */
  function Walk(ns: Namespace, at: Gfid, comps: seq<Name>, followLast: bool, links: nat): Option<Gfid>
    decreases links, |comps|
  {
    if comps == [] then
      Some(at)
    else
      var x := Lookup(ns, at, comps[0]);
      var rest := comps[1..];
      if x.None? then
        None
      else if TypeOf(ns, x.value).Link? && (rest != [] || followLast) then
        if links == 0 then None
        else
          var target := TypeOf(ns, x.value).target;
          Walk(ns, if target != "" && target[0] == '/' then ROOT else at, Components(target) + rest, followLast, links - 1)
      else if rest == [] then
        x
      else if TypeOf(ns, x.value).Dir? then
        Walk(ns, x.value, rest, followLast, links)
      else
        None
  }

  // ------------------------------------------------------- what the code does

  /** loc.inode, the iatt type that goes with it, and loc.parent. */
  datatype Found = Found(inode: Option<Gfid>, seen: Type, parent: Option<Gfid>)

  const NOWHERE := Found(None, Invalid, None)

  function Measure(follow: nat): nat {
    if follow > GLFS_SYMLINK_MAX_FOLLOW then 0 else GLFS_SYMLINK_MAX_FOLLOW + 1 - follow
  }

  /** One component looked up and, unless it is a last link that is not wanted,
      followed: the inode it stands for and its type. */
  function Enter(ns: Namespace, at: Gfid, name: Name, last: bool, follow: nat): (Option<Gfid>, Type)
    decreases Measure(follow), 0, 1
  {
    var x := Lookup(ns, at, name);
    if x.None? then
      (None, Invalid)
    else if TypeOf(ns, x.value).Link? && (!last || follow > 0) then
      if follow > GLFS_SYMLINK_MAX_FOLLOW then
        (None, Invalid)
      else
        var target := TypeOf(ns, x.value).target;
        var f := Resolve(ns, StartOf(at, target), Components(target), StartSeen(ns, target), follow + 1);
        (f.inode, f.seen)
    else
      (x, TypeOf(ns, x.value))
  }

  /** priv_glfs_resolve_at on the components of a path. */
  function Resolve(ns: Namespace, at: Gfid, comps: seq<Name>, seen: Type, follow: nat): Found
    decreases Measure(follow), |comps|, 2
  {
    if comps == [] then
      Found(Some(at), seen, None)
    else
      var (x, t) := Enter(ns, at, comps[0], |comps| == 1, follow);
      if |comps| == 1 then
        Found(x, t, Some(at))
      else if x.Some? && t.Dir? then
        Resolve(ns, x.value, comps[1..], t, follow)
      else
        NOWHERE
  }

  function ResolvePath(ns: Namespace, at: Gfid, path: string, follow: nat): Found {
    Resolve(ns, StartOf(at, path), Components(path), StartSeen(ns, path), follow)
  }
}
