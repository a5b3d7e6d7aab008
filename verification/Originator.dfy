/** From the user's files to every node: what a pack lists is a request that the relay serves. */
module Originator {
  import opened Disk
  import P = Pack
  import L = PackLaws
  import R = Relay

  /** The commands of the request, as the pack lists them. */
  function Request(cmds: seq<P.Cmd>): (r: seq<R.Cmd>)
    ensures |r| == |cmds|
    ensures forall i | 0 <= i < |cmds| ::
              r[i] == R.Cmd(cmds[i].name, cmds[i].name, cmds[i].target, cmds[i].ftype as int)
  {
    seq(|cmds|, i requires 0 <= i < |cmds| => R.Cmd(cmds[i].name, cmds[i].name, cmds[i].target, cmds[i].ftype as int))
  }

  /** The walk sees a tree: names are rooted, links lead somewhere, and only directories lie on the way to
      anything else. */
  ghost predicate TreeLike(e: P.Env, s: P.Scope) {
    && (forall p | p in s.paths && !e.stat(p).Absent? :: e.trim(p) != "" && e.trim(p)[0] == '/')
    && (forall p | p in s.paths && e.stat(p).Symlink? :: e.readlink(e.trim(p)) != "")
    && (forall p, q | p in s.paths && q in s.paths && !e.stat(p).Absent? && !e.stat(q).Absent? &&
                      Above(e.trim(p), e.trim(q)) :: e.stat(p).Dir?)
  }

  /** What the walk sees is what is on the originator's disk, under the trimmed names. */
  ghost predicate Shows(origin: Files, e: P.Env, s: P.Scope) {
    forall p | p in s.paths && !e.stat(p).Absent? && !e.stat(p).Special? :: ShowsOne(origin, e, p)
  }

  ghost predicate ShowsOne(origin: Files, e: P.Env, p: string) {
    e.trim(p) in origin &&
    match e.stat(p)
    case Regular(_) => origin[e.trim(p)].Regular?
    case Dir(_) => origin[e.trim(p)] == Dir
    case _ => origin[e.trim(p)] == Link(e.readlink(e.trim(p)))
  }

  /** Under `root` there is what the originator has at `x`; an absolute link target has the root in front. */
  ghost predicate Copied(origin: Files, x: string, root: string, d: Files) {
    x in origin && root + x in d &&
    match origin[x]
    case Regular(b) => d[root + x] == Regular(b)
    case Dir => d[root + x] == Dir
    case Link(t) => d[root + x] == Link(if t != "" && t[0] == '/' then root + t else t)
  }

  /** At every node there is a copy of everything that was walked to, special files excepted. */
  ghost predicate Mirrored(origin: Files, e: P.Env, from: seq<string>, n: R.Node, r: R.Reached)
    decreases n
  {
    && r.Reached? && |r.kids| == |n.kids|
    && (forall i | 0 <= i < |from| && !e.stat(from[i]).Special? :: Copied(origin, e.trim(from[i]), n.root, r.disk))
    && (forall k | 0 <= k < |n.kids| :: Mirrored(origin, e, from, n.kids[k], r.kids[k]))
  }

  lemma PackedWellFormed(e: P.Env, s: P.Scope, from: seq<string>)
    requires L.Real(e, s, from) && TreeLike(e, s)
    ensures R.WellFormed(Request(P.CmdsFor(e, from)))
  {
    var cmds := Request(P.CmdsFor(e, from));
    forall i | 0 <= i < |cmds| ensures cmds[i].destName == e.trim(from[i]) && from[i] in s.paths
                                       && !e.stat(from[i]).Absent? && (cmds[i].ftype == 1 <==> e.stat(from[i]).Dir?)
                                       && (cmds[i].ftype == 2 <==> e.stat(from[i]).Symlink?)
    {}
  }

  /** Every command has a first one of its destination. */
  lemma FirstOfDest(cmds: seq<R.Cmd>, i: nat) returns (j: nat)
    requires i < |cmds| && cmds[i].ftype <= 2
    ensures R.IsFirst(cmds, j) && j <= i && cmds[j].destName == cmds[i].destName
  {
    if k :| 0 <= k < i && cmds[k].ftype <= 2 && cmds[k].destName == cmds[i].destName {
      j := FirstOfDest(cmds, k);
    } else {
      j := i;
    }
  }

  lemma HeldIsCopied(origin: Files, e: P.Env, s: P.Scope, from: seq<string>, i: nat, root: string, d: Files)
    requires L.Real(e, s, from) && Shows(origin, e, s) && i < |from| && !e.stat(from[i]).Special?
    requires R.Holds(origin, Request(P.CmdsFor(e, from)), root, d)
    ensures Copied(origin, e.trim(from[i]), root, d)
  {
    var cmds := Request(P.CmdsFor(e, from));
    P.CmdTold(e, from[i]);
    var j := FirstOfDest(cmds, i);
    P.CmdTold(e, from[j]);
    assert ShowsOne(origin, e, from[i]) && R.HoldsOne(origin, cmds[j], root, d);
    assert !e.stat(from[j]).Special? && ShowsOne(origin, e, from[j]);
  }

  lemma {:induction false} ServedIsMirrored(origin: Files, e: P.Env, s: P.Scope, from: seq<string>, n: R.Node,
                                           r: R.Reached)
    requires L.Real(e, s, from) && Shows(origin, e, s) && R.Served(origin, Request(P.CmdsFor(e, from)), n, r)
    ensures Mirrored(origin, e, from, n, r)
    decreases n
  {
    forall i | 0 <= i < |from| && !e.stat(from[i]).Special? ensures Copied(origin, e.trim(from[i]), n.root, r.disk) {
      HeldIsCopied(origin, e, s, from, i, n.root, r.disk);
    }
    forall k | 0 <= k < |n.kids| ensures Mirrored(origin, e, from, n.kids[k], r.kids[k]) {
      ServedIsMirrored(origin, e, s, from, n.kids[k], r.kids[k]);
    }
  }

  /** Whatever is packed, and however deep the tree: every node ends with a copy of each regular file, directory
      and link that was walked to, as the originator has it, under its own root. */
  lemma PackedRequestServed(e: P.Env, s: P.Scope, starts: seq<string>, origin: Files, n: R.Node)
    requires P.Closed(e, s) && (forall p | p in starts :: p in s.paths) && TreeLike(e, s)
    requires Shows(origin, e, s) && R.FreshTree(n)
    ensures var from := P.WalkAll(e, s, P.View([], {}), starts).from;
            var r := R.Deliver(origin, "", Request(P.CmdsFor(e, from)), n);
            R.Served(origin, Request(P.CmdsFor(e, from)), n, r) && Mirrored(origin, e, from, n, r)
  {
    var from := P.WalkAll(e, s, P.View([], {}), starts).from;
    var cmds := Request(P.CmdsFor(e, from));
    L.PackReal(e, s, starts);
    PackedWellFormed(e, s, from);
    forall i | 0 <= i < |cmds| && cmds[i].ftype == 0
      ensures cmds[i].destName in origin && origin[cmds[i].destName].Regular?
    {
      assert from[i] in s.paths && ShowsOne(origin, e, from[i]);
    }
    R.OriginStocked(origin, cmds);
    R.EveryNodeServed(origin, origin, "", cmds, n);
    ServedIsMirrored(origin, e, s, from, n, R.Deliver(origin, "", cmds, n));
  }
}
