/**
  The component loop of priv_glfs_resolve_at over an inode table whose dentries
  may be stale in any way, and the forced lookups that make it right again.
*/
module PathCache {
  import opened Options
  import opened Tokens
  import opened PathWalk

  type Dentries = map<(Gfid, Name), Gfid>

  /** The server's answer to a lookup; a gfid hint that does not match is refused. */
  datatype Reply = Answer(gfid: Gfid) | NoEntry | Stale

  function Serve(ns: Namespace, dir: Gfid, name: Name, hint: Option<Gfid>): Reply {
    var e := if name == "" then (if ns.rootAnswers then Some(dir) else None) else Lookup(ns, dir, name);
    if e.None? then NoEntry
    else if hint.Some? && hint != e then Stale
    else Answer(e.value)
  }

  /** Some chain of cached dentries leads from x up to target. */
  predicate Above(ds: Dentries, x: Gfid, target: Gfid)
    decreases |ds|
  {
    x == target || exists k :: k in ds.Keys && ds[k] == x && Above(ds - {k}, k.0, target)
  }

  /** inode_link keeps the table free of cycles: it refuses to link an inode under
      itself or under something below it. */
  predicate LinkRefused(ds: Dentries, parent: Gfid, name: Name, inode: Gfid) {
    !((parent, name) in ds && ds[(parent, name)] == inode) && Above(ds, parent, inode)
  }

  /** Where a relative path starts: at the root if no directory is given. */
  function Base(at: Option<Gfid>): Gfid {
    if at.Some? then at.value else ROOT
  }

  // -------------------------------------------------------------- table states

  /** Premises on the server: a directory has one entry, in its parent. */
  predicate WellFormed(ns: Namespace) {
    && ns.rootAnswers && TypeOf(ns, ROOT) == Dir
    && (ROOT in ns.up ==> ns.up[ROOT] == ROOT)
    && forall k :: k in ns.entries ==>
         !Dot(k.1) && k.1 != "" && (TypeOf(ns, ns.entries[k]).Dir? ==> ns.entries[k] in ns.up && ns.up[ns.entries[k]] == k.0)
  }

  /** Every cached dentry is an entry on the server, and so is the one through
      which the parent of an inode is found. */
  predicate Coherent(ns: Namespace, ds: Dentries, upward: map<Gfid, (Gfid, Name)>) {
    && WellFormed(ns)
    && (forall k :: k in ds ==> k in ns.entries && ns.entries[k] == ds[k])
    && (forall g :: g in upward ==> upward[g] in ns.entries && ns.entries[upward[g]] == g)
    && (forall g :: g in upward && TypeOf(ns, g).Dir? ==> g in ns.up && ns.up[g] == upward[g].0)
  }

  predicate NoDots(comps: seq<Name>) {
    forall i :: 0 <= i < |comps| ==> !Dot(comps[i])
  }

  /** No link mentions "." or "..". */
  predicate LinksDotFree(ns: Namespace) {
    forall g :: g in ns.types && ns.types[g].Link? ==> NoDots(Components(ns.types[g].target))
  }

  /** The table cannot mislead a resolution of the path from a directory: it is coherent,
      or every lookup is forced and no dot has to be answered from the table. */
  predicate Trusted(ns: Namespace, ds: Dentries, upward: map<Gfid, (Gfid, Name)>, reval: bool, start: Gfid, path: string) {
    (Coherent(ns, ds, upward) && TypeOf(ns, start).Dir?) || (reval && NoDots(Components(path)) && LinksDotFree(ns))
  }

  /** Cached dentries and server entries taken together have no cycle: a rank grows
      along both. */
  ghost predicate Ranked(ns: Namespace, ds: Dentries, rank: Gfid -> nat) {
    && (forall k :: k in ds ==> rank(k.0) < rank(ds[k]))
    && (forall k :: k in ns.entries ==> rank(k.0) < rank(ns.entries[k]))
  }

  /** Every dentry was there before or comes from the server. */
  predicate OldOrServed(ns: Namespace, was: Dentries, now: Dentries) {
    forall k :: k in now ==> (k in was && now[k] == was[k]) || (k in ns.entries && now[k] == ns.entries[k])
  }

  lemma {:induction false} RankedAbove(ds: Dentries, x: Gfid, target: Gfid, rank: Gfid -> nat)
    requires forall k :: k in ds ==> rank(k.0) < rank(ds[k])
    requires Above(ds, x, target)
    ensures rank(target) <= rank(x)
    decreases |ds|
  {
    if x != target {
      var k :| k in ds.Keys && ds[k] == x && Above(ds - {k}, k.0, target);
      RankedAbove(ds - {k}, k.0, target, rank);
    }
  }

  // ------------------------------------------- the forced walk and the table

  /** The contents of an inode table. */
  datatype Table = Table(ds: Dentries, up: map<Gfid, (Gfid, Name)>)

  /** The table after a forced lookup of an ordinary name. */
  function Looked(ns: Namespace, ds: Dentries, parent: Gfid, name: Name): Dentries {
    var x := Lookup(ns, parent, name);
    if x.None? then ds - {(parent, name)}
    else if LinkRefused(ds, parent, name, x.value) then ds
    else ds[(parent, name) := x.value]
  }

  /** A forced lookup leaves what the server has under that name, and every other name as it
      was; only if the link is refused does the table stay as it is. */
  lemma {:induction false} LookedFresh(ns: Namespace, ds: Dentries, parent: Gfid, name: Name, k: (Gfid, Name))
    ensures var x, now := Lookup(ns, parent, name), Looked(ns, ds, parent, name);
            if x.Some? && LinkRefused(ds, parent, name, x.value) then now == ds
            else if k == (parent, name) then (k in now <==> x.Some?) && (x.Some? ==> now[k] == x.value)
            else (k in now <==> k in ds) && (k in ds ==> now[k] == ds[k])
  {
  }

  /** The inode that the name stood for is no longer found through it. */
  function Displaced(ds: Dentries, up: map<Gfid, (Gfid, Name)>, key: (Gfid, Name)): map<Gfid, (Gfid, Name)> {
    if key in ds && ds[key] in up && up[ds[key]] == key then up - {ds[key]} else up
  }

  /** Whether the table refuses a link on the way, and the table at the end. */
  datatype Trail = Trail(refused: bool, table: Dentries)

  /** A forced walk enters one component, starting from the table ds. */
  function EnterTrail(ns: Namespace, ds: Dentries, at: Gfid, name: Name, last: bool, follow: nat): Trail
    decreases Measure(follow), 0, 1
  {
    var x, table := Lookup(ns, at, name), Looked(ns, ds, at, name);
    if x.None? then
      Trail(false, table)
    else if LinkRefused(ds, at, name, x.value) then
      Trail(true, table)
    else if TypeOf(ns, x.value).Link? && (!last || follow > 0) && follow <= GLFS_SYMLINK_MAX_FOLLOW then
      var target := TypeOf(ns, x.value).target;
      ResolveTrail(ns, table, StartOf(at, target), Components(target), follow + 1)
    else
      Trail(false, table)
  }

  /** A forced walk of the components: the places it visits are those of the uncached
      walk, up to the first link that the table it has built by then refuses. */
  function ResolveTrail(ns: Namespace, ds: Dentries, at: Gfid, comps: seq<Name>, follow: nat): Trail
    decreases Measure(follow), |comps|, 2
  {
    if comps == [] then
      Trail(false, ds)
    else
      var e := EnterTrail(ns, ds, at, comps[0], |comps| == 1, follow);
      var (x, t) := Enter(ns, at, comps[0], |comps| == 1, follow);
      if e.refused || |comps| == 1 || x.None? || !t.Dir? then e
      else ResolveTrail(ns, e.table, x.value, comps[1..], follow)
  }

  /** The table makes a forced resolution of the path fail. */
  predicate Refuses(ns: Namespace, ds: Dentries, at: Gfid, path: string, follow: nat) {
    ResolveTrail(ns, ds, StartOf(at, path), Components(path), follow).refused
  }

  lemma {:induction false} RankedLooked(ns: Namespace, ds: Dentries, at: Gfid, name: Name, rank: Gfid -> nat)
    requires Ranked(ns, ds, rank) && !Dot(name)
    ensures Ranked(ns, Looked(ns, ds, at, name), rank)
    ensures Lookup(ns, at, name).Some? ==> !LinkRefused(ds, at, name, Lookup(ns, at, name).value)
  {
    var x := Lookup(ns, at, name);
    if x.Some? && LinkRefused(ds, at, name, x.value) {
      RankedAbove(ds, at, x.value, rank);
    }
  }

  lemma {:induction false} RankedEnter(ns: Namespace, ds: Dentries, at: Gfid, name: Name, last: bool, follow: nat, rank: Gfid -> nat)
    requires Ranked(ns, ds, rank) && !Dot(name) && LinksDotFree(ns)
    ensures var e := EnterTrail(ns, ds, at, name, last, follow); !e.refused && Ranked(ns, e.table, rank)
    decreases Measure(follow), 0, 1
  {
    RankedLooked(ns, ds, at, name, rank);
    var x, table := Lookup(ns, at, name), Looked(ns, ds, at, name);
    if x.Some? && TypeOf(ns, x.value).Link? && (!last || follow > 0) && follow <= GLFS_SYMLINK_MAX_FOLLOW {
      var target := TypeOf(ns, x.value).target;
      RankedTrail(ns, table, StartOf(at, target), Components(target), follow + 1, rank);
    }
  }

  lemma {:induction false} RankedTrail(ns: Namespace, ds: Dentries, at: Gfid, comps: seq<Name>, follow: nat, rank: Gfid -> nat)
    requires Ranked(ns, ds, rank) && NoDots(comps) && LinksDotFree(ns)
    ensures var r := ResolveTrail(ns, ds, at, comps, follow); !r.refused && Ranked(ns, r.table, rank)
    decreases Measure(follow), |comps|, 2
  {
    if comps != [] {
      RankedEnter(ns, ds, at, comps[0], |comps| == 1, follow, rank);
      var e := EnterTrail(ns, ds, at, comps[0], |comps| == 1, follow);
      var (x, t) := Enter(ns, at, comps[0], |comps| == 1, follow);
      if |comps| > 1 && x.Some? && t.Dir? {
        RankedTrail(ns, e.table, x.value, comps[1..], follow, rank);
      }
    }
  }

  /** No link is refused if table and server have no cycle between them. */
  lemma {:induction false} RankedNeverRefuses(ns: Namespace, ds: Dentries, at: Gfid, path: string, follow: nat, rank: Gfid -> nat)
    requires Ranked(ns, ds, rank) && NoDots(Components(path)) && LinksDotFree(ns)
    ensures !Refuses(ns, ds, at, path, follow)
  {
    RankedTrail(ns, ds, StartOf(at, path), Components(path), follow, rank);
  }

  /** One turn of the walk, at component i. */
  lemma {:induction false} ResolveTurn(ns: Namespace, at: Gfid, comps: seq<Name>, i: nat, seen: Type, follow: nat)
    requires i < |comps|
    ensures var last, (x, t) := i + 1 == |comps|, Enter(ns, at, comps[i], i + 1 == |comps|, follow);
            Resolve(ns, at, comps[i..], seen, follow) ==
              if last then Found(x, t, Some(at))
              else if x.Some? && t.Dir? then Resolve(ns, x.value, comps[i + 1..], t, follow) else NOWHERE
  {
    assert comps[i..][0] == comps[i] && comps[i..][1..] == comps[i + 1..];
  }

  lemma {:induction false} TrailTurn(ns: Namespace, ds: Dentries, at: Gfid, comps: seq<Name>, i: nat, follow: nat)
    requires i < |comps|
    ensures var last := i + 1 == |comps|;
            var e, (x, t) := EnterTrail(ns, ds, at, comps[i], last, follow), Enter(ns, at, comps[i], last, follow);
            ResolveTrail(ns, ds, at, comps[i..], follow) ==
              if e.refused || last || x.None? || !t.Dir? then e else ResolveTrail(ns, e.table, x.value, comps[i + 1..], follow)
  {
    assert comps[i..][0] == comps[i] && comps[i..][1..] == comps[i + 1..];
  }

  /** What entering a component does to the table and what it finds: the uncached answer
      if the table can be trusted, unless a link is refused. */
  ghost predicate Entered(ns: Namespace, was: Table, now: Table, parent: Gfid, name: Name, last: bool, follow: nat, reval: bool,
                          y: Option<Gfid>, t: Type, refused: bool, rank: Gfid -> nat) {
    && (refused ==> y.None?) && (y.None? ==> t.Invalid?)
    && (reval && !Dot(name) && LinksDotFree(ns) ==>
          && Trail(refused, now.ds) == EnterTrail(ns, was.ds, parent, name, last, follow)
          && (!refused ==> (y, t) == Enter(ns, parent, name, last, follow)))
    && (Coherent(ns, was.ds, was.up) && TypeOf(ns, parent).Dir? ==>
          Coherent(ns, now.ds, now.up) && (!refused ==> (y, t) == Enter(ns, parent, name, last, follow)))
    && (Ranked(ns, was.ds, rank) ==> !refused && Ranked(ns, now.ds, rank))
    && (t.Dir? && TypeOf(ns, ROOT) == Dir ==> TypeOf(ns, y.value).Dir?)
  }

  /** The same for a whole walk. */
  ghost predicate Arrived(ns: Namespace, was: Table, now: Table, start: Gfid, comps: seq<Name>, first: Type, follow: nat, reval: bool,
                          f: Found, refused: bool, rank: Gfid -> nat) {
    && (refused ==> f.inode.None?) && (f.inode.None? ==> f.seen.Invalid?)
    && (reval && NoDots(comps) && LinksDotFree(ns) ==>
          && Trail(refused, now.ds) == ResolveTrail(ns, was.ds, start, comps, follow)
          && (!refused ==> f == Resolve(ns, start, comps, first, follow)))
    && (Coherent(ns, was.ds, was.up) && TypeOf(ns, start).Dir? ==>
          Coherent(ns, now.ds, now.up) && (!refused ==> f == Resolve(ns, start, comps, first, follow)))
    && (Ranked(ns, was.ds, rank) ==> !refused && Ranked(ns, now.ds, rank))
    && (f.seen.Dir? && TypeOf(ns, ROOT) == Dir ==> TypeOf(ns, f.inode.value).Dir?)
  }

  /** A walk that has reached component i is the walk of the rest from there. */
  ghost predicate Underway(ns: Namespace, was: Table, now: Table, start: Gfid, comps: seq<Name>, first: Type, follow: nat, reval: bool,
                           i: nat, at: Gfid, seen: Type, rank: Gfid -> nat)
    requires i <= |comps|
  {
    && (reval && NoDots(comps) && LinksDotFree(ns) ==>
          && ResolveTrail(ns, was.ds, start, comps, follow) == ResolveTrail(ns, now.ds, at, comps[i..], follow)
          && Resolve(ns, start, comps, first, follow) == Resolve(ns, at, comps[i..], seen, follow))
    && (Coherent(ns, was.ds, was.up) && TypeOf(ns, start).Dir? ==>
          && Coherent(ns, now.ds, now.up) && TypeOf(ns, at).Dir?
          && Resolve(ns, start, comps, first, follow) == Resolve(ns, at, comps[i..], seen, follow))
    && (Ranked(ns, was.ds, rank) ==> Ranked(ns, now.ds, rank))
  }

  lemma {:induction false} GoOn(ns: Namespace, was: Table, mid: Table, now: Table, start: Gfid, comps: seq<Name>, first: Type, follow: nat,
                                reval: bool, i: nat, at: Gfid, seen: Type, y: Option<Gfid>, t: Type, refused: bool, rank: Gfid -> nat)
    requires i + 1 < |comps| && Underway(ns, was, mid, start, comps, first, follow, reval, i, at, seen, rank)
    requires Entered(ns, mid, now, at, comps[i], false, follow, reval, y, t, refused, rank) && y.Some? && t.Dir?
    ensures Underway(ns, was, now, start, comps, first, follow, reval, i + 1, y.value, t, rank)
  {
    ResolveTurn(ns, at, comps, i, seen, follow);
    TrailTurn(ns, mid.ds, at, comps, i, follow);
  }

  lemma {:induction false} Stop(ns: Namespace, was: Table, mid: Table, now: Table, start: Gfid, comps: seq<Name>, first: Type, follow: nat,
                                reval: bool, i: nat, at: Gfid, seen: Type, y: Option<Gfid>, t: Type, refused: bool, rank: Gfid -> nat)
    requires i < |comps| && Underway(ns, was, mid, start, comps, first, follow, reval, i, at, seen, rank)
    requires Entered(ns, mid, now, at, comps[i], i + 1 == |comps|, follow, reval, y, t, refused, rank)
    requires i + 1 == |comps| || y.None? || !t.Dir?
    ensures Arrived(ns, was, now, start, comps, first, follow, reval,
                    if i + 1 == |comps| then Found(y, t, Some(at)) else NOWHERE, refused, rank)
  {
    ResolveTurn(ns, at, comps, i, seen, follow);
    TrailTurn(ns, mid.ds, at, comps, i, follow);
  }

  /** What looking a component up does to the table and what it finds. */
  ghost predicate LookedUp(ns: Namespace, was: Table, now: Table, parent: Gfid, name: Name, force: bool, r: Option<Gfid>, refused: bool) {
    && (refused ==> r.None? && !Dot(name) && Lookup(ns, parent, name).Some?
                    && LinkRefused(was.ds, parent, name, Lookup(ns, parent, name).value))
    && (force && name != "" && !Dot(name) ==>
          && now.ds == Looked(ns, was.ds, parent, name)
          && if Lookup(ns, parent, name).Some? && LinkRefused(was.ds, parent, name, Lookup(ns, parent, name).value)
             then refused else r == Lookup(ns, parent, name))
    && (Coherent(ns, was.ds, was.up) && TypeOf(ns, parent).Dir? && name != "" ==>
          Coherent(ns, now.ds, now.up) && (!refused ==> r == Lookup(ns, parent, name)))
    && OldOrServed(ns, was.ds, now.ds)
  }

  lemma {:induction false} RankedLookup(ns: Namespace, was: Table, now: Table, parent: Gfid, name: Name, force: bool, r: Option<Gfid>,
                                        refused: bool, rank: Gfid -> nat)
    requires LookedUp(ns, was, now, parent, name, force, r, refused) && Ranked(ns, was.ds, rank)
    ensures !refused && Ranked(ns, now.ds, rank)
  {
    if refused {
      RankedAbove(was.ds, parent, Lookup(ns, parent, name).value, rank);
    }
  }

  /** The component is not a link to follow, or one nested too deep. */
  lemma {:induction false} EnteredPlain(ns: Namespace, was: Table, now: Table, parent: Gfid, name: Name, last: bool, follow: nat,
                                        reval: bool, force: bool, r: Option<Gfid>, refused: bool, rank: Gfid -> nat)
    requires name != "" && (reval ==> force) && LookedUp(ns, was, now, parent, name, force, r, refused)
    requires r.Some? && TypeOf(ns, r.value).Link? && (!last || follow > 0) ==> follow > GLFS_SYMLINK_MAX_FOLLOW
    ensures var y := if r.Some? && TypeOf(ns, r.value).Link? && (!last || follow > 0) then None else r;
            Entered(ns, was, now, parent, name, last, follow, reval, y, if y.Some? then TypeOf(ns, y.value) else Invalid, refused, rank)
  {
    if Ranked(ns, was.ds, rank) {
      RankedLookup(ns, was, now, parent, name, force, r, refused, rank);
    }
  }

  /** The component is a link, whose contents have been resolved from the table `mid`. */
  lemma {:induction false} EnteredLink(ns: Namespace, was: Table, mid: Table, now: Table, parent: Gfid, name: Name, last: bool, follow: nat,
                                       reval: bool, force: bool, x: Gfid, target: string, f: Found, refused: bool, rank: Gfid -> nat)
    requires name != "" && (reval ==> force) && LookedUp(ns, was, mid, parent, name, force, Some(x), false)
    requires TypeOf(ns, x) == Link(target) && (!last || follow > 0) && follow <= GLFS_SYMLINK_MAX_FOLLOW
    requires Arrived(ns, mid, now, StartOf(parent, target), Components(target), StartSeen(ns, target), follow + 1, reval, f, refused, rank)
    ensures Entered(ns, was, now, parent, name, last, follow, reval, f.inode, f.seen, refused, rank)
  {
    if Ranked(ns, was.ds, rank) {
      RankedLookup(ns, was, mid, parent, name, force, Some(x), false, rank);
    }
  }

  class InodeTable {
    var dentries: Dentries
    var upward: map<Gfid, (Gfid, Name)>    // the dentry an inode's parent is found through

    constructor (ds: Dentries, up: map<Gfid, (Gfid, Name)>)
      ensures dentries == ds && upward == up
    {
      dentries, upward := ds, up;
    }

    ghost function View(): Table
      reads this
    {
      Table(dentries, upward)
    }

    /** inode_unlink of the dentry that maps to the inode. */
    method Unlink(parent: Gfid, name: Name, inode: Gfid)
      modifies this
      ensures dentries == if (parent, name) in old(dentries) && old(dentries)[(parent, name)] == inode
                          then old(dentries) - {(parent, name)} else old(dentries)
      ensures upward == if inode in old(upward) && old(upward)[inode] == (parent, name)
                        then old(upward) - {inode} else old(upward)
    {
      if (parent, name) in dentries && dentries[(parent, name)] == inode {
        dentries := dentries - {(parent, name)};
      }
      if inode in upward && upward[inode] == (parent, name) {
        upward := upward - {inode};
      }
    }

    /** inode_link with a dentry: replaces what the name meant before. */
    method Link(ghost ns: Namespace, parent: Gfid, name: Name, inode: Gfid) returns (ok: bool)
      modifies this
      ensures ok <==> !LinkRefused(old(dentries), parent, name, inode)
      ensures !ok ==> dentries == old(dentries) && upward == old(upward)
      ensures ok ==> dentries == old(dentries)[(parent, name) := inode]
      ensures ok ==> upward == (if (parent, name) in old(dentries) && old(dentries)[(parent, name)] == inode then old(upward)
                                else Displaced(old(dentries), old(upward), (parent, name))[inode := (parent, name)])
      ensures Coherent(ns, old(dentries), old(upward)) && (parent, name) in ns.entries && ns.entries[(parent, name)] == inode ==>
                Coherent(ns, dentries, upward)
    {
      ok := true;
      if (parent, name) in dentries && dentries[(parent, name)] == inode {
        assert dentries == dentries[(parent, name) := inode];
        return;
      }
      if Above(dentries, parent, inode) {
        return false;
      }
      if (parent, name) in dentries {
        var was := dentries[(parent, name)];
        if was in upward && upward[was] == (parent, name) {
          upward := upward - {was};
        }
      }
      dentries := dentries[(parent, name) := inode];
      upward := upward[inode := (parent, name)];
    }

    /** glfs_resolve_component.  A forced lookup of an ordinary name gives the
        server's answer whatever the table holds; so does any lookup in a table
        that is coherent.  The one exception is a link that the table refuses. */
    method ResolveComponent(ns: Namespace, parent: Gfid, name: Name, force: bool) returns (r: Option<Gfid>, refused: bool)
      requires name != "" || parent == ROOT
      modifies this
      ensures refused ==> r.None? && !Dot(name) && Lookup(ns, parent, name).Some?
                          && LinkRefused(old(dentries), parent, name, Lookup(ns, parent, name).value)
      ensures force && name != "" && !Dot(name) ==>
                if Lookup(ns, parent, name).Some? && LinkRefused(old(dentries), parent, name, Lookup(ns, parent, name).value)
                then refused else r == Lookup(ns, parent, name)
      ensures force && name != "" && !Dot(name) ==> dentries == Looked(ns, old(dentries), parent, name)
      ensures Coherent(ns, old(dentries), old(upward)) && TypeOf(ns, parent).Dir? && name != "" ==>
                Coherent(ns, dentries, upward) && (!refused ==> r == Lookup(ns, parent, name))
      ensures OldOrServed(ns, old(dentries), dentries)
    {
      r, refused := None, false;
      if parent == ROOT && (Dot(name) || name == "") {
        if !force || ns.rootAnswers {
          r := Some(parent);
        }
        return;
      }

      var hint, dir, entry := None, parent, name;
      if name == "." {
        hint := Some(parent);
        if parent in upward {
          dir, entry := upward[parent].0, upward[parent].1;
        }
      } else if name == ".." {
        if parent in upward {
          var above := upward[parent].0;
          if above in upward {
            hint, dir, entry := Some(above), upward[above].0, upward[above].1;
          } else if above == ROOT {
            hint, dir, entry := Some(above), above, "";
          }
        }
      } else if (parent, name) in dentries {
        hint := Some(dentries[(parent, name)]);
      }

      var needsLookup: bool := *;
      if hint.Some? && !force && !needsLookup {
        return hint, false;
      }

      var reply := Serve(ns, dir, entry, hint);
      if !reply.Answer? && hint.Some? {
        if reply.NoEntry? {
          Unlink(dir, entry, hint.value);
        }
        reply := Serve(ns, dir, entry, None);
      }
      if !reply.Answer? {
        return;
      }
      if Dot(name) {
        return Some(reply.gfid), false;
      }
      var ok := Link(ns, parent, name, reply.gfid);
      if ok {
        r := Some(reply.gfid);
      } else {
        refused := true;
      }
    }

    /** One turn of the loop in priv_glfs_resolve_at: look the component up and, if
        it is a link to be followed, resolve its contents one level deeper. */
    method EnterComponent(ns: Namespace, parent: Gfid, name: Name, last: bool, follow: nat, reval: bool, force: bool, ghost rank: Gfid -> nat)
      returns (y: Option<Gfid>, t: Type, refused: bool, deepest: nat)
      requires name != "" && (reval ==> force)
      modifies this
      ensures Entered(ns, old(View()), View(), parent, name, last, follow, reval, y, t, refused, rank)
      ensures follow <= deepest && (deepest == follow || deepest <= GLFS_SYMLINK_MAX_FOLLOW + 1)
      decreases Measure(follow), 0
    {
      t, deepest := Invalid, follow;
      ghost var was := View();
      y, refused := ResolveComponent(ns, parent, name, force);
      ghost var mid := View();
      t := if y.Some? then TypeOf(ns, y.value) else Invalid;
      if t.Link? && (!last || follow > 0) && follow <= GLFS_SYMLINK_MAX_FOLLOW {
        var inner;
        inner, refused, deepest := ResolveAt(ns, Some(parent), t.target, follow + 1, reval, true, rank);
        EnteredLink(ns, was, mid, View(), parent, name, last, follow, reval, force, y.value, t.target, inner, refused, rank);
        y, t := inner.inode, inner.seen;
      } else {
        EnteredPlain(ns, was, View(), parent, name, last, follow, reval, force, y, refused, rank);
        if t.Link? && (!last || follow > 0) {
          y, t := None, Invalid;
        }
      }
    }

    /** The loop of priv_glfs_resolve_at over the components, from the directory `start`. */
    method WalkComponents(ns: Namespace, start: Gfid, comps: seq<Name>, first: Type, follow: nat, reval: bool, wantStat: bool,
                          ghost rank: Gfid -> nat)
      returns (f: Found, refused: bool, deepest: nat)
      requires (forall i :: 0 <= i < |comps| ==> comps[i] != "") && (comps == [] ==> first.Dir? ==> start == ROOT)
      modifies this
      ensures Arrived(ns, old(View()), View(), start, comps, first, follow, reval, f, refused, rank)
      ensures follow <= deepest && (deepest == follow || deepest <= GLFS_SYMLINK_MAX_FOLLOW + 1)
      decreases Measure(follow), 1
    {
      refused, deepest := false, follow;
      f := Found(Some(start), first, None);
      var i, inode, seen := 0, start, first;
      ghost var was := View();
      while i < |comps|
        invariant 0 <= i <= |comps| && (i == |comps| ==> comps == []) && !refused && f == Found(Some(start), first, None)
        invariant Underway(ns, was, View(), start, comps, first, follow, reval, i, inode, seen, rank)
        invariant follow <= deepest && (deepest == follow || deepest <= GLFS_SYMLINK_MAX_FOLLOW + 1)
      {
        var parent, last := inode, i + 1 == |comps|;
        ghost var mid := View();
        var y, t, deep;
        y, t, refused, deep := EnterComponent(ns, parent, comps[i], last, follow, reval, reval || (last && wantStat), rank);
        deepest := if deep > deepest then deep else deepest;
        if last || y.None? || !t.Dir? {
          Stop(ns, was, mid, View(), start, comps, first, follow, reval, i, parent, seen, y, t, refused, rank);
          f := if last then Found(y, t, Some(parent)) else NOWHERE;
          break;
        }
        GoOn(ns, was, mid, View(), start, comps, first, follow, reval, i, parent, seen, y, t, refused, rank);
        inode, seen := y.value, t;
        i := i + 1;
      }
    }

    /** priv_glfs_resolve_at.  `refused` reports that the inode table refused a link
        on the way, `deepest` the largest follow level any nested call had.
        With `reval` set, a path free of dots gives the uncached answer whatever the
        table holds, exactly unless the table refuses a link of the path, which its
        contents at the call decide; then it fails.  So does any path in a coherent
        table.  Nesting stays within the bound. */
    method ResolveAt(ns: Namespace, at: Option<Gfid>, path: string, follow: nat, reval: bool, wantStat: bool, ghost rank: Gfid -> nat)
      returns (f: Found, refused: bool, deepest: nat)
      modifies this
      ensures Arrived(ns, old(View()), View(), StartOf(Base(at), path), Components(path), StartSeen(ns, path), follow, reval, f, refused, rank)
      ensures (refused ==> f.inode.None?) && (f.inode.None? ==> f.seen.Invalid?)
      ensures reval && NoDots(Components(path)) && LinksDotFree(ns) ==>
                Trail(refused, dentries) == ResolveTrail(ns, old(dentries), StartOf(Base(at), path), Components(path), follow)
      ensures reval && NoDots(Components(path)) && LinksDotFree(ns) ==> (refused <==> Refuses(ns, old(dentries), Base(at), path, follow))
      ensures reval && NoDots(Components(path)) && LinksDotFree(ns) && !refused ==> f == ResolvePath(ns, Base(at), path, follow)
      ensures Coherent(ns, old(dentries), old(upward)) && TypeOf(ns, StartOf(Base(at), path)).Dir? ==>
                Coherent(ns, dentries, upward) && (!refused ==> f == ResolvePath(ns, Base(at), path, follow))
      ensures !refused && path != "" && path[0] == '/' && Components(path) != []
              && Trusted(ns, old(dentries), old(upward), reval, ROOT, path) ==>
                f == Resolve(ns, ROOT, Components(path), Invalid, follow)
      ensures !refused && path != "" && path[0] != '/' && Trusted(ns, old(dentries), old(upward), reval, Base(at), path) ==>
                f == Resolve(ns, Base(at), Components(path), Invalid, follow)
      ensures Ranked(ns, old(dentries), rank) ==> !refused && Ranked(ns, dentries, rank)
      ensures follow <= deepest && (deepest == follow || deepest <= GLFS_SYMLINK_MAX_FOLLOW + 1)
      ensures f.seen.Dir? && TypeOf(ns, ROOT) == Dir ==> TypeOf(ns, f.inode.value).Dir?
      decreases Measure(follow), 2
    {
      var comps, start, seen := Components(path), Base(at), Invalid;
      PiecesClean(path, Slash);
      forall i | 0 <= i < |comps|
        ensures comps[i] != ""
      {
        assert Clean(comps[i], Slash);
      }
      if path != "" && path[0] == '/' {
        start := ROOT;
      }
      if path == "/" && ns.rootAnswers {
        seen := Dir;
      }
      f, refused, deepest := WalkComponents(ns, start, comps, seen, follow, reval, wantStat, rank);
    }

    /** The retry of ESTALE_RETRY: when the first attempt, or the operation that used
        it, reports ESTALE, the path is resolved again with reval raised to 1.  The
        second answer is the uncached one exactly unless the table `left` by the first
        attempt refuses a link of the path, and then it is a failure. */
    method ResolveWithRetry(ns: Namespace, at: Option<Gfid>, path: string, follow: nat, estale: bool, ghost rank: Gfid -> nat)
      returns (f: Found, reval: nat, refused: bool, ghost left: Dentries)
      modifies this
      ensures reval == if estale then 1 else 0
      ensures refused ==> f.inode.None?
      ensures estale && NoDots(Components(path)) && LinksDotFree(ns) ==>
                (refused <==> Refuses(ns, left, Base(at), path, follow)) && (!refused ==> f == ResolvePath(ns, Base(at), path, follow))
      ensures Ranked(ns, old(dentries), rank) ==> !refused && Ranked(ns, left, rank)
    {
      reval := 0;
      var deep;
      f, refused, deep := ResolveAt(ns, at, path, follow, false, true, rank);
      left := dentries;
      if estale {
        reval := reval + 1;
        f, refused, deep := ResolveAt(ns, at, path, follow, true, true, rank);
      }
    }
  }

  /** A server on which directory 3 has been moved under directory 2, and a table that
      still holds 2 under 3, where it used to be. */
  const MOVED_NS := Namespace(map[ROOT := Dir, 2 := Dir, 3 := Dir], map[(ROOT, "a") := 2, (2, "b") := 3], map[2 := ROOT, 3 := 2], true)
  const STALE_TABLE: Dentries := map[(3, "a") := 2]

  lemma {:induction false} StaleCycle()
    ensures LinkRefused(STALE_TABLE, 2, "b", 3)
  {
    var ds := STALE_TABLE;
    assert (3, "a") in ds.Keys && ds[(3, "a")] == 2 && Above(ds - {(3, "a")}, 3, 3);
  }

  /** The server itself has no cycle and finds "b" in directory 2; the table refuses it. */
  lemma {:induction false} StaleTableRefuses()
    ensures WellFormed(MOVED_NS) && LinksDotFree(MOVED_NS) && NoDots(Components("b")) && Ranked(MOVED_NS, map[], (g: Gfid) => g)
    ensures ResolvePath(MOVED_NS, 2, "b", 1).inode == Some(3)
    ensures Refuses(MOVED_NS, STALE_TABLE, 2, "b", 1)
  {
    StaleCycle();
    SplitClean("b", Slash);
  }

  /** So a forced resolution of a path that exists fails. */
  method StaleWalkFails() returns (f: Found)
    ensures f.inode.None? && ResolvePath(MOVED_NS, 2, "b", 1).inode == Some(3)
  {
    StaleTableRefuses();
    var table := new InodeTable(STALE_TABLE, map[2 := (3, "a")]);
    var refused, deepest;
    f, refused, deepest := table.ResolveAt(MOVED_NS, Some(2), "b", 1, true, true, g => g);
  }
}
