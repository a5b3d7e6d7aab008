/** A request travels down a tree of nodes. Every node receives the files under its own root, drops the
    file list that brought them, and builds a new one from the untouched commands for the nodes below. */
module Relay {
  import opened Disk
  import opened FileMarshal

  datatype Cmd = Cmd(currentName: string, destName: string, symlinkTarget: string, ftype: int)

  /** A node with its root directory, its disk, and the nodes below it. */
  datatype Node = Node(root: string, disk: Files, kids: seq<Node>)

  /** What became of a node: the disk it ends with, the commands it read, what it left unread. */
  datatype Reached = Lost
                   | Reached(root: string, disk: Files, cmds: seq<Cmd>, unread: nat, kids: seq<Reached>)

  // ----- The list of files for the next hop -----

  function FileFor(root: string, c: Cmd): File {
    File(root + c.destName, c.destName, c.symlinkTarget, c.ftype)
  }

  function FilesFor(root: string, cmds: seq<Cmd>): seq<File> {
    if cmds == [] then []
    else if cmds[0].ftype <= 2 then [FileFor(root, cmds[0])] + FilesFor(root, cmds[1..])
    else FilesFor(root, cmds[1..])
  }

  lemma FilesStep(root: string, cmds: seq<Cmd>, k: nat)
    requires k < |cmds|
    ensures FilesFor(root, cmds[k..]) ==
            (if cmds[k].ftype <= 2 then [FileFor(root, cmds[k])] else []) + FilesFor(root, cmds[k + 1..])
  {
    assert cmds[k..][0] == cmds[k] && cmds[k..][1..] == cmds[k + 1..];
  }

  /** The files are those of the first `n` commands, special ones excepted, in order: `at` says of which. */
  ghost predicate MadeFrom(root: string, cmds: seq<Cmd>, n: nat, files: seq<File>, at: seq<nat>) {
    && n <= |cmds| && |at| == |files|
    && (forall k | 0 <= k < |at| :: at[k] < n && cmds[at[k]].ftype <= 2)
    && (forall j, k | 0 <= j < k < |at| :: at[j] < at[k])
    && (forall i | 0 <= i < n && cmds[i].ftype <= 2 :: i in at)
    && (forall k | 0 <= k < |at| ::
          var c := cmds[at[k]]; files[k] == File(root + c.destName, c.destName, c.symlinkTarget, c.ftype))
  }

  lemma MadeStep(root: string, cmds: seq<Cmd>, k: nat, files: seq<File>, at: seq<nat>)
    requires k < |cmds| && MadeFrom(root, cmds, k, files, at)
    ensures var c := cmds[k];
            if c.ftype > 2 then MadeFrom(root, cmds, k + 1, files, at)
            else MadeFrom(root, cmds, k + 1, files + [File(root + c.destName, c.destName, c.symlinkTarget, c.ftype)],
                          at + [k])
  {
    if cmds[k].ftype <= 2 { assert (at + [k])[|at|] == k && forall i | i in at :: i in at + [k]; }
  }

  method BuildFiles(root: string, cmds: seq<Cmd>) returns (files: seq<File>)
    ensures files == FilesFor(root, cmds)
    ensures exists at :: MadeFrom(root, cmds, |cmds|, files, at)
  {
    files := [];
    ghost var at: seq<nat> := [];
    assert cmds[0..] == cmds;
    for k := 0 to |cmds|
      invariant FilesFor(root, cmds) == files + FilesFor(root, cmds[k..])
      invariant MadeFrom(root, cmds, k, files, at)
    {
      FilesStep(root, cmds, k);
      MadeStep(root, cmds, k, files, at);
      hide MadeFrom, FilesFor;
      var c := cmds[k];
      var comesFrom := root + c.destName;
      if c.ftype > 2 { continue; }
      files := files + [File(comesFrom, c.destName, c.symlinkTarget, c.ftype)];
      at := at + [k];
    }
  }

  /** A command whose destination no earlier command has. */
  predicate IsFirst(cmds: seq<Cmd>, i: nat) {
    i < |cmds| && cmds[i].ftype <= 2
    && forall j | 0 <= j < i && cmds[j].ftype <= 2 :: cmds[j].destName != cmds[i].destName
  }

  lemma {:induction false} FirstOf(root: string, cmds: seq<Cmd>, i: nat)
    requires IsFirst(cmds, i)
    ensures var files := FilesFor(root, cmds);
            var k := First(files, root + cmds[i].destName);
            k < |files| && files[k] == FileFor(root, cmds[i])
  {
    if i > 0 {
      var rest := cmds[1..];
      assert cmds[i] == rest[i - 1];
      assert forall j | 0 <= j < i - 1 :: rest[j] == cmds[j + 1];
      FirstOf(root, rest, i - 1);
      if cmds[0].ftype <= 2 {
        assert (root + cmds[0].destName)[|root|..] == cmds[0].destName;
        assert (root + cmds[i].destName)[|root|..] == cmds[i].destName;
      }
    }
  }

  lemma {:induction false} CmdOf(root: string, cmds: seq<Cmd>, k: nat) returns (i: nat)
    requires k < |FilesFor(root, cmds)|
    requires First(FilesFor(root, cmds), FilesFor(root, cmds)[k].currentName) == k
    ensures IsFirst(cmds, i) && FilesFor(root, cmds)[k] == FileFor(root, cmds[i])
  {
    var files, rest := FilesFor(root, cmds), cmds[1..];
    if cmds[0].ftype <= 2 && k == 0 {
      i := 0;
    } else {
      var k' := if cmds[0].ftype <= 2 then k - 1 else k;
      i := CmdOf(root, rest, k');
      i := i + 1;
      assert rest[i - 1] == cmds[i];
      if cmds[0].ftype <= 2 { assert files[0].currentName != files[k].currentName; }
      assert forall j | 0 < j < i :: cmds[j] == rest[j - 1];
    }
  }

  // ----- Relaying -----

  function Deliver(src: Files, srcRoot: string, cmds: seq<Cmd>, n: Node): Reached
    decreases n
  {
    match DecodeSpec(n.root, n.disk, EncodeSpec(src, Doc(cmds, FilesFor(srcRoot, cmds))).msgs)
    case Refused(_, _) => Lost
    case Received(doc, disk, rest) =>
      Reached(n.root, disk, doc.body, |rest|,
              seq(|n.kids|, i requires 0 <= i < |n.kids| => Deliver(disk, n.root, doc.body, n.kids[i])))
  }

  /** Destinations are rooted, links have targets, and only directories lie on the way to others. */
  ghost predicate WellFormed(cmds: seq<Cmd>) {
    && (forall i | 0 <= i < |cmds| :: |cmds[i].destName| > 0 && cmds[i].destName[0] == '/')
    && (forall i | 0 <= i < |cmds| && cmds[i].ftype == 2 :: cmds[i].symlinkTarget != "")
    && (forall i, j | 0 <= i < |cmds| && 0 <= j < |cmds| && cmds[i].ftype != 1 ::
          !Above(cmds[i].destName, cmds[j].destName))
  }

  /** Under `root`, the disk has the originator's contents of every regular file. */
  ghost predicate Stocked(origin: Files, cmds: seq<Cmd>, root: string, d: Files) {
    forall i: nat | IsFirst(cmds, i) && cmds[i].ftype == 0 ::
      var p := cmds[i].destName;
      p in origin && origin[p].Regular? && root + p in d && d[root + p] == origin[p]
  }

  /** Nothing lies under the root yet, and the way to it is free. */
  ghost predicate FreshRoot(d: Files, root: string) {
    forall q | q in d :: !(root + "/" <= q) && (Above(q, root) || q == root ==> d[q] == Dir)
  }

  ghost predicate FreshTree(n: Node) {
    FreshRoot(n.disk, n.root) && forall i | 0 <= i < |n.kids| :: FreshTree(n.kids[i])
  }

  /** The files, directories and links of the commands are in place under `root`. */
  ghost predicate Holds(origin: Files, cmds: seq<Cmd>, root: string, d: Files) {
    forall i: nat | IsFirst(cmds, i) :: HoldsOne(origin, cmds[i], root, d)
  }

  ghost predicate HoldsOne(origin: Files, c: Cmd, root: string, d: Files) {
    var p := root + c.destName;
    && (c.ftype == 0 ==> c.destName in origin && origin[c.destName].Regular? && p in d && d[p] == origin[c.destName])
    && (c.ftype == 1 ==> p in d && d[p] == Dir)
    && (c.ftype == 2 ==> p in d && d[p] == Link(if c.symlinkTarget != "" && c.symlinkTarget[0] == '/'
                                                then root + c.symlinkTarget else c.symlinkTarget))
  }

  /** A node and all below it have read the whole request, hold everything, and keep what they had. */
  ghost predicate Served(origin: Files, cmds: seq<Cmd>, n: Node, r: Reached)
    decreases n
  {
    && r.Reached? && r.cmds == cmds && r.unread == 0 && r.root == n.root && |r.kids| == |n.kids|
    && Holds(origin, cmds, n.root, r.disk)
    && (forall q | q in n.disk :: q in r.disk && r.disk[q] == n.disk[q])
    && (forall i | 0 <= i < |n.kids| :: Served(origin, cmds, n.kids[i], r.kids[i]))
  }

  // ----- One hop -----

  lemma {:induction false} ItemsAt(src: Files, root: string, files: seq<File>, names: seq<string>, k: nat)
    requires forall n | n in names :: First(files, n) < |files|
    ensures |ItemsOf(src, root, files, names)| == |names|
    ensures k < |names| ==> ItemsOf(src, root, files, names)[k] == ItemOf(src, root, files[First(files, names[k])])
  {
    if names != [] {
      ItemsAt(src, root, files, names[1..], if k > 0 then k - 1 else 0);
    }
  }

  /** Where the k-th item of a hop goes, and which command it stands for. */
  lemma ItemCmd(src: Files, srcRoot: string, cmds: seq<Cmd>, root: string, k: nat) returns (i: nat)
    requires WellFormed(cmds) && k < |NamesOf(FilesFor(srcRoot, cmds), {})|
    ensures var files := FilesFor(srcRoot, cmds);
            var names := NamesOf(files, {});
            var items := ItemsOf(src, root, files, names);
            |items| == |names| && IsFirst(cmds, i) && items[k] == ItemOf(src, root, FileFor(srcRoot, cmds[i]))
            && names[k] == srcRoot + cmds[i].destName
  {
    var files := FilesFor(srcRoot, cmds);
    var names := NamesOf(files, {});
    NamesFound(files);
    ItemsAt(src, root, files, names, k);
    i := CmdOf(srcRoot, cmds, First(files, names[k]));
  }

  lemma NamesFound(files: seq<File>)
    ensures forall n | n in NamesOf(files, {}) :: n != "" && First(files, n) < |files|
  {
    forall n | n in NamesOf(files, {}) ensures n != "" && First(files, n) < |files| { NamesOfHas(files, {}, n); }
  }

  /** Every first command of its destination has its item. */
  lemma CmdItem(src: Files, srcRoot: string, cmds: seq<Cmd>, root: string, i: nat) returns (k: nat)
    requires WellFormed(cmds) && IsFirst(cmds, i)
    ensures var files := FilesFor(srcRoot, cmds);
            var names := NamesOf(files, {});
            var items := ItemsOf(src, root, files, names);
            |items| == |names| && k < |items| && items[k] == ItemOf(src, root, FileFor(srcRoot, cmds[i]))
  {
    var files := FilesFor(srcRoot, cmds);
    var names := NamesOf(files, {});
    FirstOf(srcRoot, cmds, i);
    var n := srcRoot + cmds[i].destName;
    NamesOfHas(files, {}, n);
    assert n in names;
    k :| 0 <= k < |names| && names[k] == n;
    NamesFound(files);
    ItemsAt(src, root, files, names, k);
  }

  lemma LongIsUnder(root: string, p: string, q: string)
    requires |p| > 0 && p[0] == '/'
    ensures Above(q, root + p) && |q| > |root| ==> root + "/" <= q
  {
    if Above(q, root + p) && |q| > |root| { assert q[..|root| + 1] == root + "/"; }
  }

  /** Under a fresh root, only directories lie on the way to a rooted destination. */
  lemma WayIsFree(d: Files, root: string, p: string, q: string)
    requires FreshRoot(d, root) && q in d && |p| > 0 && p[0] == '/'
    ensures root + p !in d
    ensures Above(q, root + p) ==> d[q] == Dir
  {
    assert forall x: string | root + "/" <= x :: x !in d;
    assert (root + p)[..|root| + 1] == root + "/";
    LongIsUnder(root, p, q);
    if Above(q, root + p) {
      if |q| < |root| {
        assert q == root[..|q|] && Above(q, root);
      } else if |q| == |root| {
        assert q == root;
      }
    }
  }

  lemma AboveUnderRoot(root: string, p: string, q: string)
    requires |p| > 0 && p[0] == '/' && |q| > 0
    ensures Above(root + p, root + q) ==> Above(p, q)
  {
    if Above(root + p, root + q) {
      assert (root + q)[|root| + |p|] == q[|p|];
      assert (root + q)[..|root| + |p|][|root|..] == q[..|p|];
      assert (root + p)[|root|..] == p;
      assert (root + p)[|root| + |p| - 1] == p[|p| - 1];
    }
  }

  lemma HopCompatible(src: Files, srcRoot: string, cmds: seq<Cmd>, root: string, d: Files)
    requires WellFormed(cmds) && FreshRoot(d, root)
    ensures var files := FilesFor(srcRoot, cmds);
            Compatible(d, ItemsOf(src, root, files, NamesOf(files, {})))
  {
    var files := FilesFor(srcRoot, cmds);
    var names := NamesOf(files, {});
    var items := ItemsOf(src, root, files, names);
    hide ItemsOf, NamesOf, First, FilesFor, IsFirst, FreshRoot;
    NamesFound(files);
    ItemsAt(src, root, files, names, 0);
    NamesDistinct(files);
    forall i, j | 0 <= i < j < |items| ensures items[i].dest != items[j].dest {
      var a := ItemCmd(src, srcRoot, cmds, root, i);
      var b := ItemCmd(src, srcRoot, cmds, root, j);
      assert names[i] != names[j];
      assert (root + cmds[a].destName)[|root|..] == cmds[a].destName;
      assert (root + cmds[b].destName)[|root|..] == cmds[b].destName;
    }
    forall i, q | 0 <= i < |items| && q in d ensures items[i].dest !in d && (Above(q, items[i].dest) ==> d[q] == Dir) {
      var a := ItemCmd(src, srcRoot, cmds, root, i);
      WayIsFree(d, root, cmds[a].destName, q);
    }
    forall i, j | 0 <= i < |items| && 0 <= j < |items| && !items[i].DirItem?
      ensures !Above(items[i].dest, items[j].dest)
    {
      var a := ItemCmd(src, srcRoot, cmds, root, i);
      var b := ItemCmd(src, srcRoot, cmds, root, j);
      AboveUnderRoot(root, cmds[a].destName, cmds[b].destName);
    }
  }

  lemma {:induction false} SendsAll<V>(src: Files, files: seq<File>, names: seq<string>)
    requires forall k | 0 <= k < |names| && First(files, names[k]) < |files| &&
                        files[First(files, names[k])].ftype == 0 ::
               Read(src, files[First(files, names[k])].currentName).Content?
    ensures SendFiles<V>(src, files, names).ok
  {
    if names != [] {
      assert forall k | 0 <= k < |names[1..]| :: names[1..][k] == names[k + 1];
      SendsAll<V>(src, files, names[1..]);
    }
  }

  lemma HopSends(origin: Files, src: Files, srcRoot: string, cmds: seq<Cmd>)
    requires WellFormed(cmds) && Stocked(origin, cmds, srcRoot, src)
    ensures EncodeSpec(src, Doc(cmds, FilesFor(srcRoot, cmds))).ok
    ensures LinksNamed(FilesFor(srcRoot, cmds))
  {
    var files := FilesFor(srcRoot, cmds);
    var names := NamesOf(files, {});
    NamesFound(files);
    forall k | 0 <= k < |names| && First(files, names[k]) < |files| && files[First(files, names[k])].ftype == 0
      ensures Read(src, files[First(files, names[k])].currentName).Content?
    {
      var i := CmdOf(srcRoot, cmds, First(files, names[k]));
    }
    SendsAll<seq<Cmd>>(src, files, names);
    LinksKept(srcRoot, cmds);
  }

  lemma {:induction false} LinksKept(root: string, cmds: seq<Cmd>)
    requires forall i | 0 <= i < |cmds| && cmds[i].ftype == 2 :: cmds[i].symlinkTarget != ""
    ensures LinksNamed(FilesFor(root, cmds))
  {
    if cmds != [] {
      assert forall i | 0 <= i < |cmds[1..]| :: cmds[1..][i] == cmds[i + 1];
      LinksKept(root, cmds[1..]);
    }
  }

  /** One hop: the receiver reads the request to its end and ends up holding everything. */
  lemma Hop(origin: Files, src: Files, srcRoot: string, cmds: seq<Cmd>, root: string, d: Files)
    requires WellFormed(cmds) && Stocked(origin, cmds, srcRoot, src) && FreshRoot(d, root)
    ensures var r := DecodeSpec(root, d, EncodeSpec(src, Doc(cmds, FilesFor(srcRoot, cmds))).msgs);
            && r.Received? && r.doc.body == cmds && r.rest == []
            && Holds(origin, cmds, root, r.disk)
            && (forall q | q in d :: q in r.disk && r.disk[q] == d[q])
  {
    var files := FilesFor(srcRoot, cmds);
    var doc := Doc(cmds, files);
    var names := NamesOf(files, {});
    var items := ItemsOf(src, root, files, names);
    HopSends(origin, src, srcRoot, cmds);
    HopCompatible(src, srcRoot, cmds, root, d);
    AllInPlace(d, items);
    DecodeEncode(src, root, d, doc, []);
    assert EncodeSpec(src, doc).msgs + [] == EncodeSpec(src, doc).msgs;
    hide ItemsOf, NamesOf, First, FilesFor, FreshRoot, WellFormed, Stocked, IsFirst, PlaceAll, InPlace, HoldsOne,
         DecodeSpec, EncodeSpec, Compatible, ItemOf, RewriteAll, LinksNamed;
    var disk := PlaceAll(d, items).disk;
    forall i: nat | IsFirst(cmds, i) ensures HoldsOne(origin, cmds[i], root, disk) {
      var k := CmdItem(src, srcRoot, cmds, root, i);
      InPlaceHolds(origin, src, srcRoot, cmds, i, root, d, disk);
    }
    forall q | q in d ensures forall k | 0 <= k < |items| :: items[k].dest != q {
      NotADest(src, srcRoot, cmds, root, d, q);
    }
  }

  lemma NotADest(src: Files, srcRoot: string, cmds: seq<Cmd>, root: string, d: Files, q: string)
    requires WellFormed(cmds) && FreshRoot(d, root) && q in d
    ensures var files := FilesFor(srcRoot, cmds);
            forall k | 0 <= k < |ItemsOf(src, root, files, NamesOf(files, {}))| ::
              ItemsOf(src, root, files, NamesOf(files, {}))[k].dest != q
  {
    var files := FilesFor(srcRoot, cmds);
    var items := ItemsOf(src, root, files, NamesOf(files, {}));
    NamesFound(files);
    ItemsAt(src, root, files, NamesOf(files, {}), 0);
    forall k | 0 <= k < |items| ensures items[k].dest != q {
      var i := ItemCmd(src, srcRoot, cmds, root, k);
      WayIsFree(d, root, cmds[i].destName, q);
    }
  }

  lemma InPlaceHolds(origin: Files, src: Files, srcRoot: string, cmds: seq<Cmd>, i: nat, root: string,
                     d: Files, disk: Files)
    requires WellFormed(cmds) && Stocked(origin, cmds, srcRoot, src) && FreshRoot(d, root) && IsFirst(cmds, i)
    requires InPlace(d, disk, ItemOf(src, root, FileFor(srcRoot, cmds[i])))
    ensures HoldsOne(origin, cmds[i], root, disk)
  {
    var c := cmds[i];
    assert root + "/" <= root + c.destName;
    assert OldData(d, root + c.destName) == [];
  }

  /** At any depth of the tree, every node ends with each regular file as the originator has it, each
      directory, and each link with the node's own root in front of an absolute target exactly once. */
  lemma {:induction false} EveryNodeServed(origin: Files, src: Files, srcRoot: string, cmds: seq<Cmd>, n: Node)
    requires WellFormed(cmds) && Stocked(origin, cmds, srcRoot, src) && FreshTree(n)
    ensures Served(origin, cmds, n, Deliver(src, srcRoot, cmds, n))
    decreases n
  {
    Hop(origin, src, srcRoot, cmds, n.root, n.disk);
    var r := Deliver(src, srcRoot, cmds, n);
    assert Stocked(origin, cmds, n.root, r.disk);
    forall i | 0 <= i < |n.kids| ensures Served(origin, cmds, n.kids[i], r.kids[i]) {
      EveryNodeServed(origin, r.disk, n.root, cmds, n.kids[i]);
    }
  }

  /** The originator itself is stocked: it sends from the paths the commands name. */
  lemma OriginStocked(origin: Files, cmds: seq<Cmd>)
    requires forall i | 0 <= i < |cmds| && cmds[i].ftype == 0 ::
               cmds[i].destName in origin && origin[cmds[i].destName].Regular?
    ensures Stocked(origin, cmds, "", origin)
  {
    forall i: nat | IsFirst(cmds, i) ensures "" + cmds[i].destName == cmds[i].destName {}
  }
}
