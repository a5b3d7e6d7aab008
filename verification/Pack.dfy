/** Packing: walking paths, listing what is found, and following the links that are met. */
module Pack {
  import opened Paths

  datatype Stat = Absent | Regular(size: nat) | Dir(entries: seq<string>) | Symlink | Special

  /** The file system as the walk sees it. A directory's entries are given by their joined paths. */
  datatype Env = Env(stat: string -> Stat, readlink: string -> string, trim: string -> string)

  datatype Cmd = Cmd(name: string, ftype: nat, target: string)

  // ----- Where a link leads -----

  /** The length of the directory part of a path, with its final slash. */
  function DirLength(p: string): (n: nat)
    ensures n <= |p|
    ensures n > 0 ==> p[n - 1] == '/'
    ensures forall i | n <= i < |p| :: p[i] != '/'
  {
    if p == [] then 0 else if p[|p| - 1] == '/' then |p| else DirLength(p[..|p| - 1])
  }

  /** The path to walk for a link: an absolute target is taken as it is, any other is taken from the
      directory of the link. */
  function WalkPath(e: Env, link: string): string {
    var target := e.readlink(link);
    var dir, file := target[..DirLength(target)], target[DirLength(target)..];
    var own := link[..DirLength(link)];
    Join2(if dir == "" then own else if dir[0] != '/' then Join2(own, dir) else dir, file)
  }

  /** That is the usual reading of a link, cleaned: an absolute target stands for itself, and any other
      follows the directory of the link. */
  lemma WalkPathReads(e: Env, link: string)
    ensures var target := e.readlink(link);
            var full := if Rooted(target) then target else link[..DirLength(link)] + target;
            WalkPath(e, link) == if full == "" then "" else Clean(full)
  {
    hide DirLength, Clean, Join2;
    var target := e.readlink(link);
    var n := DirLength(target);
    var own, dir, file := link[..DirLength(link)], target[..n], target[n..];
    assert dir + file == target;
    if n == 0 {
      JoinDir(own, file);
    } else if target[0] == '/' {
      JoinDir(dir, file);
    } else {
      JoinTwice(own, dir, file);
      assert own + (dir + file) == own + target;
    }
  }

  lemma JoinTwice(own: string, dir: string, file: string)
    requires own != "" ==> own[|own| - 1] == '/'
    requires dir != "" && dir[|dir| - 1] == '/'
    ensures Join2(Join2(own, dir), file) == Clean(own + (dir + file))
  {
    hide *;
    JoinDir(own, dir);
    JoinCleaned(own + dir, file);
    assert (own + dir) + file == own + (dir + file);
  }

  /** Joining something to a directory that ends in a slash. */
  lemma JoinDir(dir: string, file: string)
    requires dir != "" ==> dir[|dir| - 1] == '/'
    ensures Join2(dir, file) == if dir + file == "" then "" else Clean(dir + file)
  {
    hide Clean;
    if dir == "" { assert dir + file == file; }
    else if file == "" { assert dir + file == dir; }
    else { DoubleSlash(dir, file); }
  }

  lemma JoinCleaned(dir: string, file: string)
    requires dir != "" && dir[|dir| - 1] == '/'
    ensures Join2(Clean(dir), file) == Clean(dir + file)
  {
    CleanFront(dir, file);
    CleanStack(dir);
    hide Clean;
    if file == "" { assert dir + file == dir; }
  }

  function FtypeOf(st: Stat): nat {
    match st case Regular(_) => 0 case Dir(_) => 1 case Symlink => 2 case _ => 3
  }

  function SizeOf(st: Stat): nat {
    if st.Regular? then st.size else 0
  }

  /** What is listed for a path that was walked to. */
  function CmdFor(e: Env, p: string): Cmd {
    Cmd(e.trim(p), FtypeOf(e.stat(p)), if e.stat(p).Symlink? then e.readlink(e.trim(p)) else "")
  }

  function CmdsFor(e: Env, from: seq<string>): (r: seq<Cmd>)
    ensures |r| == |from| && forall i | 0 <= i < |from| :: r[i] == CmdFor(e, from[i])
  {
    seq(|from|, i requires 0 <= i < |from| => CmdFor(e, from[i]))
  }

  /** The command for a path: its trimmed name, its kind as a number, and the text of the link if it is one. */
  predicate Told(e: Env, p: string, c: Cmd) {
    && c.name == e.trim(p)
    && (c.ftype == 0 <==> e.stat(p).Regular?) && (c.ftype == 1 <==> e.stat(p).Dir?)
    && (c.ftype == 2 <==> e.stat(p).Symlink?) && c.ftype <= 3
    && c.target == if e.stat(p).Symlink? then e.readlink(c.name) else ""
  }

  lemma CmdTold(e: Env, p: string)
    ensures Told(e, p, CmdFor(e, p))
  {}

  function Total(e: Env, from: seq<string>): nat {
    if from == [] then 0 else Total(e, from[..|from| - 1]) + SizeOf(e.stat(from[|from| - 1]))
  }

  /** A directory given as "dir/." comes along without its contents. */
  predicate Bare(name: string) {
    |name| >= 2 && name[|name| - 2..] == "/."
  }

  lemma BareExact(name: string)
    ensures Bare(name) <==> exists dir: string :: name == dir + "/."
  {
    if Bare(name) { assert name == name[..|name| - 2] + "/."; }
  }

  // ----- The walk -----

  /** A finite set of paths that the walk cannot leave, and a rank that falls along links, so that no
      chain of links loops. */
  datatype Scope = Scope(paths: set<string>, rank: string -> nat)

  ghost predicate Closed(e: Env, s: Scope) {
    && (forall p, q | p in s.paths && e.stat(p).Dir? && q in e.stat(p).entries :: q in s.paths)
    && (forall p | p in s.paths && e.stat(p).Symlink? ::
          WalkPath(e, e.trim(p)) in s.paths && s.rank(WalkPath(e, e.trim(p))) < s.rank(p))
  }

  ghost function Left(e: Env, s: Scope, visited: set<string>): set<string> {
    (set p | p in s.paths :: e.trim(p)) - visited
  }

  /** The paths listed so far, and the names marked as visited. */
  datatype View = View(from: seq<string>, visited: set<string>)

  ghost function Walk(e: Env, s: Scope, v: View, p: string): (r: View)
    requires Closed(e, s) && p in s.paths
    ensures v.visited <= r.visited && v.from <= r.from
    decreases Left(e, s, v.visited), 0, s.rank(p)
  {
    var n := e.trim(p);
    if e.stat(p).Absent? || n in v.visited then v
    else if e.stat(p).Dir? then
      var v1 := View(v.from + [p], v.visited + {n});
      assert n in Left(e, s, v.visited) && n !in Left(e, s, v1.visited);
      if Bare(n) then v1 else WalkAll(e, s, v1, e.stat(p).entries)
    else
      var v1 := View(v.from + [p], v.visited);
      var v2 := if e.stat(p).Symlink? then Walk(e, s, v1, WalkPath(e, n)) else v1;
      View(v2.from, v2.visited + {n})
  }

  ghost function WalkAll(e: Env, s: Scope, v: View, ps: seq<string>): (r: View)
    requires Closed(e, s) && forall q | q in ps :: q in s.paths
    ensures v.visited <= r.visited && v.from <= r.from
    decreases Left(e, s, v.visited), 1, |ps|
  {
    if ps == [] then v
    else
      var v1 := Walk(e, s, v, ps[0]);
      assert Left(e, s, v1.visited) <= Left(e, s, v.visited);
      WalkAll(e, s, v1, ps[1..])
  }

  // ----- The walk as it runs -----

  class PackVisitor {
    var cmds: seq<Cmd>
    var alreadyVisited: set<string>
    var bytesToTransfer: nat
    ghost var from: seq<string>

    ghost function ToView(): View
      reads this
    {
      View(from, alreadyVisited)
    }

    /** The list is that of the paths walked to, and the total is that of the listed regular files. */
    ghost predicate Valid(e: Env)
      reads this
    {
      && cmds == CmdsFor(e, from) && bytesToTransfer == Total(e, from)
      && forall i | 0 <= i < |from| :: Told(e, from[i], cmds[i])
    }

    constructor (ghost e: Env)
      ensures Valid(e) && ToView() == View([], {})
    {
      cmds, alreadyVisited, bytesToTransfer, from := [], {}, 0, [];
    }

    method Append(e: Env, p: string, c: Cmd)
      requires Valid(e) && c == CmdFor(e, p)
      modifies this
      ensures Valid(e) && ToView() == View(old(from) + [p], old(alreadyVisited))
    {
      cmds := cmds + [c];
      bytesToTransfer := bytesToTransfer + SizeOf(e.stat(p));
      from := from + [p];
      assert from[..|from| - 1] == old(from);
    }

    /** Whether to go on into the directory. */
    method VisitDir(e: Env, p: string) returns (enter: bool)
      requires Valid(e) && e.stat(p).Dir?
      modifies this
      ensures Valid(e)
      ensures if e.trim(p) in old(alreadyVisited) then !enter && ToView() == old(ToView())
              else ToView() == View(old(from) + [p], old(alreadyVisited) + {e.trim(p)}) && enter == !Bare(e.trim(p))
      ensures enter <==> e.trim(p) !in old(alreadyVisited) && forall dir: string :: e.trim(p) != dir + "/."
    {
      BareExact(e.trim(p));
      var filePath := e.trim(p);
      if filePath in alreadyVisited { return false; }
      Append(e, p, Cmd(filePath, 1, ""));
      alreadyVisited := alreadyVisited + {filePath};
      return !Bare(filePath);
    }

    /** A link's target is walked before the link is marked. */
    method VisitFile(e: Env, ghost s: Scope, p: string)
      requires Valid(e) && Closed(e, s) && p in s.paths && !e.stat(p).Absent? && !e.stat(p).Dir?
      modifies this
      ensures Valid(e) && ToView() == Walk(e, s, old(ToView()), p)
      decreases Left(e, s, alreadyVisited), 0, s.rank(p), 0
    {
      hide WalkPath, CmdsFor, Total, WalkAll, Told;
      var filePath := e.trim(p);
      if filePath in alreadyVisited { return; }
      var st := e.stat(p);
      Append(e, p, Cmd(filePath, FtypeOf(st), if st.Symlink? then e.readlink(filePath) else ""));
      if st.Symlink? {
        WalkFrom(e, s, WalkPath(e, filePath));
      }
      alreadyVisited := alreadyVisited + {filePath};
    }

    method WalkFrom(e: Env, ghost s: Scope, p: string)
      requires Valid(e) && Closed(e, s) && p in s.paths
      modifies this
      ensures Valid(e) && ToView() == Walk(e, s, old(ToView()), p)
      decreases Left(e, s, alreadyVisited), 0, s.rank(p), 1
    {
      if e.stat(p).Absent? { return; }
      if !e.stat(p).Dir? {
        VisitFile(e, s, p);
        return;
      }
      var enter := VisitDir(e, p);
      if !enter { return; }
      var entries := e.stat(p).entries;
      ghost var n := e.trim(p);
      ghost var v1 := ToView();
      assert n in Left(e, s, old(alreadyVisited)) && n !in Left(e, s, alreadyVisited);
      assert entries[0..] == entries;
      for k := 0 to |entries|
        invariant Valid(e) && old(alreadyVisited) <= alreadyVisited && n in alreadyVisited
        invariant WalkAll(e, s, v1, entries) == WalkAll(e, s, ToView(), entries[k..])
      {
        assert entries[k..][0] == entries[k] && entries[k..][1..] == entries[k + 1..];
        assert entries[k] in entries;
        assert Left(e, s, alreadyVisited) < Left(e, s, old(alreadyVisited));
        WalkFrom(e, s, entries[k]);
      }
    }
  }
}
