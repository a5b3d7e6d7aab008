/** The libraries a program needs, found by a work list. */
module Ldd {

  const QUEUE := 256

  datatype Elf = NotElf | Broken | Elf(imports: seq<string>)

  datatype ReadLink = NoLink | LinkTo(name: string)

  /** The file system as the search sees it. Opening a file follows links; `join` makes a path of parts. */
  datatype Env = Env(root: string, libpath: seq<string>, join: seq<string> -> string,
                     open: string -> Elf, readlink: string -> ReadLink)

  datatype Outcome = Listed(files: seq<string>) | Failed | Blocked

  /** Where a name was found: the path, and the library directory it was found in. */
  datatype Found = Missing | Found(path: string, dir: string)

  predicate IsAbs(name: string) {
    name != "" && name[0] == '/'
  }

  // ----- What a name stands for -----

  function FindIn(e: Env, name: string, k: nat): Found
    requires k <= |e.libpath|
    decreases |e.libpath| - k
  {
    if k == |e.libpath| then Missing
    else
      var p := e.join([e.root, e.libpath[k], name]);
      if e.open(p).NotElf? then FindIn(e, name, k + 1) else Found(p, e.libpath[k])
  }

  function Find(e: Env, name: string): Found {
    if IsAbs(name) then
      var p := e.join([e.root + name]);
      if e.open(p).NotElf? then Missing else Found(p, "")
    else FindIn(e, name, 0)
  }

  /** Where a name that is not absolute is found: in the first library directory whose file opens. */
  ghost predicate FirstOpens(e: Env, name: string, k: nat) {
    && k < |e.libpath| && !e.open(e.join([e.root, e.libpath[k], name])).NotElf?
    && forall j | 0 <= j < k :: e.open(e.join([e.root, e.libpath[j], name])).NotElf?
  }

  lemma {:induction false} FindInExact(e: Env, name: string, k: nat)
    requires k <= |e.libpath| && forall j | 0 <= j < k :: e.open(e.join([e.root, e.libpath[j], name])).NotElf?
    ensures match FindIn(e, name, k)
            case Missing => forall j | 0 <= j < |e.libpath| :: e.open(e.join([e.root, e.libpath[j], name])).NotElf?
            case Found(p, dir) =>
              exists j: nat ::
                FirstOpens(e, name, j) && dir == e.libpath[j] && p == e.join([e.root, e.libpath[j], name])
    decreases |e.libpath| - k
  {
    if k < |e.libpath| {
      if e.open(e.join([e.root, e.libpath[k], name])).NotElf? {
        FindInExact(e, name, k + 1);
      } else {
        assert FirstOpens(e, name, k);
      }
    }
  }

  /** What a name resolves to: an absolute one to the file under the root, any other to the file of that name
      in the first library directory where one opens. */
  lemma FindExact(e: Env, name: string)
    ensures name != "" && name[0] == '/' ==>
              Find(e, name) == if e.open(e.join([e.root + name])).NotElf? then Missing
                               else Found(e.join([e.root + name]), "")
    ensures name == "" || name[0] != '/' ==>
              && (Find(e, name) == Missing <==>
                    forall k | 0 <= k < |e.libpath| :: e.open(e.join([e.root, e.libpath[k], name])).NotElf?)
              && forall p, dir :: Find(e, name) == Found(p, dir) <==>
                   exists k: nat :: FirstOpens(e, name, k) && dir == e.libpath[k] && p == e.join([e.root, dir, name])
  {
    if name == "" || name[0] != '/' {
      FindInExact(e, name, 0);
      forall j: nat, k: nat | FirstOpens(e, name, j) && FirstOpens(e, name, k) ensures j == k {}
    }
  }

  /** The name resolves to a file whose imports can be read. */
  predicate Usable(e: Env, name: string) {
    Find(e, name).Found? && e.open(Find(e, name).path).Elf?
  }

  function Imports(e: Env, name: string): seq<string> {
    if Usable(e, name) then e.open(Find(e, name).path).imports else []
  }

  /** The names met in following links from a path, up to the first path that is no link. */
  predicate IsChain(e: Env, dir: string, path: string, links: seq<string>)
    decreases |links|
  {
    match e.readlink(path)
    case NoLink => links == []
    case LinkTo(l) => links != [] && links[0] == l && IsChain(e, dir, e.join([e.root, dir, l]), links[1..])
  }

  ghost predicate ChainEnds(e: Env, name: string) {
    Find(e, name).Found? ==> exists links :: IsChain(e, Find(e, name).dir, Find(e, name).path, links)
  }

  lemma {:induction false} OneChain(e: Env, dir: string, path: string, a: seq<string>, b: seq<string>)
    requires IsChain(e, dir, path, a) && IsChain(e, dir, path, b)
    ensures a == b
    decreases |a|
  {
    match e.readlink(path)
    case NoLink =>
    case LinkTo(l) =>
      OneChain(e, dir, e.join([e.root, dir, l]), a[1..], b[1..]);
      assert a == [a[0]] + a[1..] && b == [b[0]] + b[1..];
  }

  /** The links that lead on from where a name was found. */
  ghost function Links(e: Env, name: string): (links: seq<string>)
    ensures Find(e, name).Found? && ChainEnds(e, name) ==> IsChain(e, Find(e, name).dir, Find(e, name).path, links)
  {
    if Find(e, name).Found? && ChainEnds(e, name) then
      var links :| IsChain(e, Find(e, name).dir, Find(e, name).path, links);
      links
    else []
  }

  function PathOf(e: Env, name: string): string {
    match Find(e, name) case Missing => "" case Found(p, _) => p
  }

  // ----- What is needed -----

  ghost predicate Route(e: Env, w: seq<string>) {
    |w| > 0 && forall i | 0 <= i < |w| - 1 :: w[i + 1] in Imports(e, w[i])
  }

  /** `n` is the command or is imported, at any distance, by it. */
  ghost predicate Needed(e: Env, cmd: string, n: string) {
    exists w :: Route(e, w) && w[0] == cmd && w[|w| - 1] == n
  }

  lemma NeedsItself(e: Env, cmd: string)
    ensures Needed(e, cmd, cmd)
  {
    assert Route(e, [cmd]) && [cmd][0] == cmd;
  }

  lemma NeedsImports(e: Env, cmd: string, n: string, m: string)
    requires Needed(e, cmd, n) && m in Imports(e, n)
    ensures Needed(e, cmd, m)
  {
    var w :| Route(e, w) && w[0] == cmd && w[|w| - 1] == n;
    var v := w + [m];
    assert Route(e, v) && v[0] == cmd && v[|v| - 1] == m;
  }

  /** What is needed besides the command is what the files of needed names import. */
  lemma NeededExactly(e: Env, cmd: string, m: string)
    ensures Needed(e, cmd, m) <==>
            m == cmd || exists n :: Needed(e, cmd, n) && Find(e, n).Found? && e.open(Find(e, n).path).Elf? &&
                                    m in e.open(Find(e, n).path).imports
  {
    if Needed(e, cmd, m) && m != cmd {
      var w :| Route(e, w) && w[0] == cmd && w[|w| - 1] == m;
      var v, n := w[..|w| - 1], w[|w| - 2];
      assert w[|w| - 2 + 1] in Imports(e, n);
      assert Route(e, v) && v[0] == cmd && v[|v| - 1] == n;
    } else if m == cmd {
      NeedsItself(e, cmd);
    }
    forall n | Needed(e, cmd, n) && m in Imports(e, n) ensures Needed(e, cmd, m) { NeedsImports(e, cmd, n, m); }
  }

  /** A set with the command that is closed under imports has everything needed. */
  lemma ClosedHasNeeded(e: Env, cmd: string, names: set<string>)
    requires cmd in names && forall n, m | n in names && m in Imports(e, n) :: m in names
    ensures forall n | Needed(e, cmd, n) :: n in names
  {
    forall n | Needed(e, cmd, n) ensures n in names {
      var w :| Route(e, w) && w[0] == cmd && w[|w| - 1] == n;
      for i := 0 to |w| - 1
        invariant w[i] in names
      {
        assert w[i + 1] in Imports(e, w[i]);
      }
    }
  }

  // ----- Counting dependency edges -----

  predicate NoRepeats(names: seq<string>) {
    forall i, j | 0 <= i < j < |names| :: names[i] != names[j]
  }

  function Edges(e: Env, names: seq<string>): nat {
    if names == [] then 0 else |Imports(e, names[0])| + Edges(e, names[1..])
  }

  lemma {:induction false} EdgesSplit(e: Env, a: seq<string>, b: seq<string>)
    ensures Edges(e, a + b) == Edges(e, a) + Edges(e, b)
  {
    if a == [] {
      assert a + b == b;
    } else {
      assert (a + b)[1..] == a[1..] + b;
      EdgesSplit(e, a[1..], b);
    }
  }

  lemma {:induction false} EdgesWithin(e: Env, a: seq<string>, b: seq<string>)
    requires NoRepeats(a) && forall n | n in a :: n in b
    ensures Edges(e, a) <= Edges(e, b)
  {
    if a != [] {
      assert a[0] in b;
      var i :| 0 <= i < |b| && b[i] == a[0];
      var c := b[..i] + b[i + 1..];
      assert b == b[..i] + ([b[i]] + b[i + 1..]);
      EdgesSplit(e, b[..i], b[i + 1..]);
      EdgesSplit(e, b[..i], [b[i]] + b[i + 1..]);
      assert ([b[i]] + b[i + 1..])[1..] == b[i + 1..];
      forall n | n in a[1..] ensures n in c {
        var k :| 0 <= k < |a[1..]| && a[1..][k] == n;
        assert a[k + 1] == n && a[0] != a[k + 1];
        assert n in b;
      }
      EdgesWithin(e, a[1..], c);
    }
  }

  // ----- The list that is returned -----

  ghost predicate Followable(e: Env, names: seq<string>) {
    forall n | n in names :: Usable(e, n) && ChainEnds(e, n)
  }

  /** For each name that was opened its path, then the names of the links it leads through, as read. */
  ghost function Entries(e: Env, read: seq<string>): seq<string> {
    if read == [] then []
    else
      var n := read[|read| - 1];
      Entries(e, read[..|read| - 1]) + [PathOf(e, n)] + Links(e, n)
  }

  lemma {:induction false} EntriesHave(e: Env, read: seq<string>, n: string)
    requires n in read
    ensures PathOf(e, n) in Entries(e, read) && forall l | l in Links(e, n) :: l in Entries(e, read)
  {
    var less := read[..|read| - 1];
    if n != read[|read| - 1] {
      assert read == less + [read[|read| - 1]];
      EntriesHave(e, less, n);
    }
  }

  ghost predicate KnownAs(e: Env, read: seq<string>, n: string)
  {
    n in read || exists o :: o in read && n in Links(e, o)
  }

  /** A name met in following a link resolves to a file with no imports beyond those of the link. */
  ghost predicate Faithful(e: Env, universe: seq<string>) {
    forall o, l, m | o in universe && Usable(e, o) && ChainEnds(e, o) && l in Links(e, o) && m in Imports(e, l) ::
      m in Imports(e, o)
  }

  /** The command, and then the imports of each name in turn. */
  function Mentioned(e: Env, cmd: string, read: seq<string>): seq<string> {
    if read == [] then [cmd] else Mentioned(e, cmd, read[..|read| - 1]) + Imports(e, read[|read| - 1])
  }

  /** `at` says where, among the first `h` names mentioned, those that were opened stand, in order. */
  ghost predicate Picked(e: Env, cmd: string, read: seq<string>, h: nat, at: seq<nat>) {
    var all := Mentioned(e, cmd, read);
    && h <= |all| && |at| == |read|
    && (forall k | 0 <= k < |at| :: at[k] < h && all[at[k]] == read[k])
    && (forall j, k | 0 <= j < k < |at| :: at[j] < at[k])
  }

  /** The names were opened in the order in which they were mentioned first in, first out. */
  ghost predicate InOrder(e: Env, cmd: string, read: seq<string>) {
    exists h: nat, at :: Picked(e, cmd, read, h, at)
  }

  /** The files are those of distinct needed names, each opened once; if links are faithful, every
      needed name was opened or was met as the name of a link. */
  ghost predicate Reading(e: Env, cmd: string, universe: seq<string>, files: seq<string>, read: seq<string>) {
    && Followable(e, read) && files == Entries(e, read) && InOrder(e, cmd, read)
    && NoRepeats(read) && (forall n | n in read :: Needed(e, cmd, n) && |Imports(e, n)| <= QUEUE)
    && (Faithful(e, universe) ==> forall n | Needed(e, cmd, n) :: KnownAs(e, read, n))
  }

  ghost predicate Complete(e: Env, cmd: string, universe: seq<string>, files: seq<string>) {
    exists read :: Reading(e, cmd, universe, files, read)
  }

  /** In `all`, the part from `from` on is the path of the file of `n`, and then the links that it leads
      through. */
  ghost predicate Section(e: Env, all: seq<string>, from: nat, n: string) {
    && from + |Links(e, n)| < |all| && all[from] == PathOf(e, n)
    && forall i | 0 <= i < |Links(e, n)| :: all[from + 1 + i] == Links(e, n)[i]
  }

  /** The list has one such section for each name that was opened, in order, and nothing else. */
  lemma {:induction false} EntriesLayout(e: Env, read: seq<string>) returns (at: seq<nat>)
    ensures |at| == |read| + 1 && at[0] == 0 && at[|read|] == |Entries(e, read)|
    ensures forall k | 0 <= k < |read| ::
              at[k + 1] == at[k] + 1 + |Links(e, read[k])| && Section(e, Entries(e, read), at[k], read[k])
  {
    hide *;
    if read == [] {
      NoEntries(e);
      at := [0];
    } else {
      var less, n := read[..|read| - 1], read[|read| - 1];
      var a, b := Entries(e, less), [PathOf(e, n)] + Links(e, n);
      LastSection(e, less, n);
      assert less + [n] == read;
      at := EntriesLayout(e, less);
      forall k | 0 <= k < |less| ensures Section(e, a + b, at[k], less[k]) { SectionStays(e, a, b, at[k], less[k]); }
      at := at + [|a + b|];
    }
  }

  lemma NoEntries(e: Env)
    ensures Entries(e, []) == []
  {}

  lemma LastSection(e: Env, less: seq<string>, n: string)
    ensures var a, b := Entries(e, less), [PathOf(e, n)] + Links(e, n);
            Entries(e, less + [n]) == a + b && Section(e, a + b, |a|, n)
  {
    assert (less + [n])[..|less|] == less;
  }

  lemma SectionStays(e: Env, a: seq<string>, b: seq<string>, from: nat, n: string)
    requires Section(e, a, from, n)
    ensures Section(e, a + b, from, n)
  {}

  /** The list has every needed name, by the path it was found under or as the name of a link. */
  lemma NeededListed(e: Env, cmd: string, universe: seq<string>, files: seq<string>, n: string)
    requires Complete(e, cmd, universe, files) && Faithful(e, universe) && Needed(e, cmd, n)
    ensures PathOf(e, n) in files || n in files
  {
    hide Needed, Links, Imports, Usable, Find, InOrder;
    var read :| Reading(e, cmd, universe, files, read);
    if n in read {
      EntriesHave(e, read, n);
    } else {
      var o :| o in read && n in Links(e, o);
      EntriesHave(e, read, o);
    }
  }

  /** Something needed cannot be opened, or its imports cannot be read. */
  ghost predicate SomeUnusable(e: Env, cmd: string) {
    e.open(e.join([e.root, cmd])).NotElf? || exists n :: Needed(e, cmd, n) && !Usable(e, n)
  }

  // ----- The work list -----

  method Locate(e: Env, name: string) returns (f: Found)
    ensures f == Find(e, name)
    ensures name != "" && name[0] == '/' ==>
              f == if e.open(e.join([e.root + name])).NotElf? then Missing else Found(e.join([e.root + name]), "")
    ensures name == "" || name[0] != '/' ==>
              && (f == Missing <==>
                    forall k | 0 <= k < |e.libpath| :: e.open(e.join([e.root, e.libpath[k], name])).NotElf?)
              && forall p, dir :: f == Found(p, dir) <==>
                   exists k: nat :: FirstOpens(e, name, k) && dir == e.libpath[k] && p == e.join([e.root, dir, name])
  {
    FindExact(e, name);
    if IsAbs(name) {
      var p := e.join([e.root + name]);
      if e.open(p).NotElf? { return Missing; }
      return Found(p, "");
    }
    for k := 0 to |e.libpath|
      invariant FindIn(e, name, 0) == FindIn(e, name, k)
    {
      var p := e.join([e.root, e.libpath[k], name]);
      if !e.open(p).NotElf? { return Found(p, e.libpath[k]); }
    }
    return Missing;
  }

  /** Gathering the links of an opened file: each becomes known, so it will not be opened itself. */
  method FollowLinks(e: Env, name: string, known: map<string, string>)
    returns (known': map<string, string>, links: seq<string>)
    requires Find(e, name).Found? && ChainEnds(e, name)
    ensures links == Links(e, name)
    ensures exists paths: seq<string> ::
              && |paths| == |links| + 1 && paths[0] == Find(e, name).path && e.readlink(paths[|links|]).NoLink?
              && forall i | 0 <= i < |links| ::
                   && e.readlink(paths[i]) == LinkTo(links[i])
                   && paths[i + 1] == e.join([e.root, Find(e, name).dir, links[i]])
    ensures known'.Keys == known.Keys + set l | l in links
  {
    var dir, binpath := Find(e, name).dir, Find(e, name).path;
    ghost var left := Links(e, name);
    ghost var paths := [binpath];
    known', links := known, [];
    while e.readlink(binpath).LinkTo?
      invariant IsChain(e, dir, binpath, left) && links + left == Links(e, name)
      invariant |paths| == |links| + 1 && paths[0] == Find(e, name).path && paths[|links|] == binpath
      invariant forall i | 0 <= i < |links| ::
                  && e.readlink(paths[i]) == LinkTo(links[i])
                  && paths[i + 1] == e.join([e.root, Find(e, name).dir, links[i]])
      invariant known'.Keys == known.Keys + set l | l in links
      decreases left
    {
      var l := e.readlink(binpath).name;
      binpath := e.join([e.root, dir, l]);
      assert links + left == (links + [l]) + left[1..];
      links, left, paths := links + [l], left[1..], paths + [binpath];
      known' := known'[l := binpath];
    }
  }

  /** Sending names down the channel that is also the queue: with no receiver but the sender itself, a
      send to a full channel never returns. */
  method Send(queue: seq<string>, libs: seq<string>) returns (ok: bool, queue': seq<string>)
    requires |queue| <= QUEUE
    ensures ok <==> |queue| + |libs| <= 256
    ensures ok ==> queue' == queue + libs
  {
    queue' := queue;
    for k := 0 to |libs|
      invariant queue' == queue + libs[..k] && |queue'| <= QUEUE
    {
      if |queue'| == QUEUE { return false, queue'; }
      assert libs[..k + 1] == libs[..k] + [libs[k]];
      queue' := queue' + [libs[k]];
    }
    ok := true;
  }

  /** Finitely many names that contain the command and all it needs, with no endless run of links. */
  ghost predicate Universe(e: Env, cmd: string, names: seq<string>) {
    && NoRepeats(names) && cmd in names
    && (forall n, m | n in names && m in Imports(e, n) :: m in names)
    && (forall n | n in names :: ChainEnds(e, n))
  }

  ghost predicate Wanted(e: Env, cmd: string, universe: seq<string>, names: seq<string>) {
    forall n | n in names :: n in universe && Needed(e, cmd, n)
  }

  /** Whatever an opened name imports is known or queued. */
  ghost predicate Followed(e: Env, queue: seq<string>, known: set<string>, read: seq<string>) {
    forall n, m | n in read && m in Imports(e, n) :: m in known || m in queue
  }

  ghost predicate QueueInv(e: Env, cmd: string, universe: seq<string>, queue: seq<string>,
                           known: set<string>, read: seq<string>) {
    && NoRepeats(read) && Followable(e, read) && Wanted(e, cmd, universe, queue) && Wanted(e, cmd, universe, read)
    && (forall n | n in read :: n in known && |Imports(e, n)| <= QUEUE)
    && (forall n | n in known :: KnownAs(e, read, n))
    && Followed(e, queue, known, read)
    && |queue| <= QUEUE && (cmd in known || cmd in queue)
    && (if read == [] then queue == [cmd] else |queue| <= Edges(e, read))
  }

  lemma NotThere(e: Env, cmd: string)
    requires e.open(e.join([e.root, cmd])).NotElf?
    ensures SomeUnusable(e, cmd)
  {}

  lemma StartQueue(e: Env, cmd: string, universe: seq<string>)
    requires Universe(e, cmd, universe)
    ensures QueueInv(e, cmd, universe, [cmd], {}, []) && Followable(e, []) && Entries(e, []) == []
  {
    NeedsItself(e, cmd);
  }

  lemma SkipKnown(e: Env, cmd: string, universe: seq<string>, queue: seq<string>, known: set<string>, read: seq<string>)
    requires QueueInv(e, cmd, universe, queue, known, read) && queue != [] && queue[0] in known
    ensures QueueInv(e, cmd, universe, queue[1..], known, read)
  {
    hide Needed, Edges, Imports, Find, Links, Usable, Followable;
    assert KnownAs(e, read, queue[0]);
    assert queue == [queue[0]] + queue[1..];
  }

  lemma MoreEntries(e: Env, read: seq<string>, lib: string)
    requires Followable(e, read) && Usable(e, lib) && ChainEnds(e, lib)
    ensures Followable(e, read + [lib])
    ensures Entries(e, read + [lib]) == Entries(e, read) + [PathOf(e, lib)] + Links(e, lib)
  {
    assert (read + [lib])[..|read|] == read;
  }

  lemma NewDistinct(read: seq<string>, lib: string)
    requires NoRepeats(read) && lib !in read
    ensures NoRepeats(read + [lib])
  {}

  lemma KnownMore(e: Env, known: set<string>, read: seq<string>, lib: string)
    requires forall n | n in known :: KnownAs(e, read, n)
    ensures forall n | n in known + {lib} + (set l | l in Links(e, lib)) :: KnownAs(e, read + [lib], n)
  {
    hide Links;
    assert lib in read + [lib];
    forall n | n in known ensures KnownAs(e, read + [lib], n) {
      assert KnownAs(e, read, n);
      if n !in read {
        var o :| o in read && n in Links(e, o);
        assert o in read + [lib];
      }
    }
  }

  /** Opening the next name, queueing its imports and following its links keeps the invariant. */
  lemma OpenNext(e: Env, cmd: string, universe: seq<string>, queue: seq<string>, known: set<string>, read: seq<string>)
    requires QueueInv(e, cmd, universe, queue, known, read) && queue != [] && queue[0] !in known
    requires Usable(e, queue[0]) && ChainEnds(e, queue[0])
    requires Universe(e, cmd, universe)
    requires |queue| - 1 + |Imports(e, queue[0])| <= QUEUE
    ensures var lib := queue[0];
            QueueInv(e, cmd, universe, queue[1..] + Imports(e, lib), known + {lib} + (set l | l in Links(e, lib)),
                     read + [lib])
            && Followable(e, read + [lib])
            && Entries(e, read + [lib]) == Entries(e, read) + [PathOf(e, lib)] + Links(e, lib)
  {
    var lib, more := queue[0], read + [queue[0]];
    var queue', known' := queue[1..] + Imports(e, lib), known + {lib} + set l | l in Links(e, lib);
    MoreEntries(e, read, lib);
    EdgesSplit(e, read, [lib]);
    assert Edges(e, [lib]) == |Imports(e, lib)|;
    WantedMore(e, cmd, universe, queue, read);
    KnownMore(e, known, read, lib);
    FollowedMore(e, queue, known, read);
    hide Wanted, Followed, Edges, Imports, Find, Links, Usable, Entries, NoRepeats, Universe, KnownAs, Followable;
    assert queue == [lib] + queue[1..] && lib in queue;
    NewDistinct(read, lib);
  }

  lemma WantedMore(e: Env, cmd: string, universe: seq<string>, queue: seq<string>, read: seq<string>)
    requires queue != [] && Wanted(e, cmd, universe, queue) && Wanted(e, cmd, universe, read)
    requires Universe(e, cmd, universe)
    ensures Wanted(e, cmd, universe, queue[1..] + Imports(e, queue[0])) && Wanted(e, cmd, universe, read + [queue[0]])
  {
    var lib := queue[0];
    assert queue == [lib] + queue[1..] && lib in queue;
    forall n | n in queue[1..] + Imports(e, lib) ensures n in universe && Needed(e, cmd, n) {
      if n in Imports(e, lib) { NeedsImports(e, cmd, lib, n); } else { assert n in queue; }
    }
  }

  lemma FollowedMore(e: Env, queue: seq<string>, known: set<string>, read: seq<string>)
    requires queue != [] && Followed(e, queue, known, read)
    ensures Followed(e, queue[1..] + Imports(e, queue[0]), known + {queue[0]} + (set l | l in Links(e, queue[0])),
                     read + [queue[0]])
  {
    hide Imports, Links;
    assert queue == [queue[0]] + queue[1..];
  }

  lemma BlocksOnlyIf(e: Env, cmd: string, universe: seq<string>, queue: seq<string>, known: set<string>,
                     read: seq<string>)
    requires QueueInv(e, cmd, universe, queue, known, read) && queue != [] && queue[0] !in known
    requires |queue| - 1 + |Imports(e, queue[0])| > QUEUE
    ensures Edges(e, universe) > QUEUE
  {
    var lib, more := queue[0], read + [queue[0]];
    assert queue == [lib] + queue[1..] && lib in queue;
    EdgesSplit(e, read, [lib]);
    assert Edges(e, [lib]) == |Imports(e, lib)|;
    EdgesWithin(e, more, universe);
  }

  lemma NothingLeft(e: Env, cmd: string, universe: seq<string>, known: set<string>, read: seq<string>)
    requires QueueInv(e, cmd, universe, [], known, read) && InOrder(e, cmd, read)
    ensures Complete(e, cmd, universe, Entries(e, read))
  {
    if Faithful(e, universe) { AllKnown(e, cmd, universe, known, read); }
    hide Faithful, InOrder, Entries, Needed, Followable, KnownAs, Imports, NoRepeats, Edges;
    assert Reading(e, cmd, universe, Entries(e, read), read);
  }

  lemma AllKnown(e: Env, cmd: string, universe: seq<string>, known: set<string>, read: seq<string>)
    requires QueueInv(e, cmd, universe, [], known, read) && Faithful(e, universe)
    ensures forall n | Needed(e, cmd, n) :: KnownAs(e, read, n)
  {
    forall n, m | n in known && m in Imports(e, n) ensures m in known {
      if n !in read {
        var o :| o in read && n in Links(e, o);
        assert m in Imports(e, o);
      }
    }
    ClosedHasNeeded(e, cmd, known);
  }

  lemma NextName(e: Env, cmd: string, universe: seq<string>, queue: seq<string>, known: set<string>, read: seq<string>)
    requires QueueInv(e, cmd, universe, queue, known, read) && queue != []
    requires Universe(e, cmd, universe)
    ensures queue[0] in universe && Needed(e, cmd, queue[0]) && ChainEnds(e, queue[0]) && |queue| <= QUEUE
    ensures Followable(e, read) && Followable(e, read + [queue[0]]) == Usable(e, queue[0])
  {}

  lemma UsableWhen(e: Env, cmd: string, name: string)
    requires Needed(e, cmd, name)
    ensures if Find(e, name).Missing? || e.open(Find(e, name).path).Broken? then SomeUnusable(e, cmd)
            else && Usable(e, name) && Imports(e, name) == e.open(Find(e, name).path).imports
                 && PathOf(e, name) == Find(e, name).path
  {
    FoundOpens(e, name, 0);
  }

  lemma {:induction false} FoundOpens(e: Env, name: string, k: nat)
    requires k <= |e.libpath|
    ensures FindIn(e, name, k).Found? ==> !e.open(FindIn(e, name, k).path).NotElf?
    decreases |e.libpath| - k
  {
    if k < |e.libpath| { FoundOpens(e, name, k + 1); }
  }

  /** The queue is what has been mentioned and not yet been taken. */
  ghost predicate Queued(e: Env, cmd: string, read: seq<string>, h: nat, at: seq<nat>, queue: seq<string>) {
    Picked(e, cmd, read, h, at) && queue == Mentioned(e, cmd, read)[h..]
  }

  lemma StartQueued(e: Env, cmd: string)
    ensures Queued(e, cmd, [], 0, [], [cmd])
  {}

  lemma SkipQueued(e: Env, cmd: string, read: seq<string>, h: nat, at: seq<nat>, queue: seq<string>)
    requires Queued(e, cmd, read, h, at, queue) && queue != []
    ensures Queued(e, cmd, read, h + 1, at, queue[1..])
  {
    hide Mentioned;
  }

  lemma OpenQueued(e: Env, cmd: string, read: seq<string>, h: nat, at: seq<nat>, queue: seq<string>)
    requires Queued(e, cmd, read, h, at, queue) && queue != []
    ensures Queued(e, cmd, read + [queue[0]], h + 1, at + [h], queue[1..] + Imports(e, queue[0]))
  {
    var more, all := read + [queue[0]], Mentioned(e, cmd, read);
    assert more[..|more| - 1] == read;
    assert Mentioned(e, cmd, more) == all + Imports(e, queue[0]);
    hide Mentioned, Imports;
  }

  lemma OrderKept(e: Env, cmd: string, read: seq<string>, h: nat, at: seq<nat>, queue: seq<string>)
    requires Queued(e, cmd, read, h, at, queue)
    ensures InOrder(e, cmd, read)
  {}

  lemma Capacity()
    ensures QUEUE == 256
  {}

  /** The whole search. It ends, since each name of a finite universe is opened at most once. */
  method Lddroot(e: Env, cmd: string, ghost universe: seq<string>) returns (r: Outcome)
    requires Universe(e, cmd, universe)
    ensures match r
            case Listed(files) => Complete(e, cmd, universe, files)
            case Failed => SomeUnusable(e, cmd)
            case Blocked => Edges(e, universe) > 256
  {
    hide *;
    Capacity();
    if e.open(e.join([e.root, cmd])).NotElf? {
      NotThere(e, cmd);
      return Failed;
    }
    var queue, known, ret := [cmd], map[], [];
    ghost var read, h, at := [], 0, [];
    ghost var names := set n | n in universe;
    StartQueue(e, cmd, universe);
    StartQueued(e, cmd);
    assert known.Keys == {};
    while |queue| > 0
      invariant QueueInv(e, cmd, universe, queue, known.Keys, read)
      invariant ret == Entries(e, read)
      invariant Queued(e, cmd, read, h, at, queue)
      decreases names - known.Keys, |queue|
    {
      var lib := queue[0];
      NextName(e, cmd, universe, queue, known.Keys, read);
      ghost var before := queue;
      queue := queue[1..];
      if lib in known {
        SkipKnown(e, cmd, universe, before, known.Keys, read);
        SkipQueued(e, cmd, read, h, at, before);
        h := h + 1;
        continue;
      }
      var f := Locate(e, lib);
      UsableWhen(e, cmd, lib);
      if f.Missing? { return Failed; }
      if e.open(f.path).Broken? { return Failed; }
      var dynlibs := e.open(f.path).imports;
      var sent, longer := Send(queue, dynlibs);
      if !sent {
        BlocksOnlyIf(e, cmd, universe, before, known.Keys, read);
        return Blocked;
      }
      queue := longer;
      OpenNext(e, cmd, universe, before, known.Keys, read);
      ghost var done := known.Keys;
      known := known[lib := f.path];
      assert known.Keys == done + {lib};
      ret := ret + [f.path];
      var known', links := FollowLinks(e, lib, known);
      known, ret := known', ret + links;
      assert known.Keys == done + {lib} + set l | l in Links(e, lib);
      assert lib in names - done && lib !in names - known.Keys;
      OpenQueued(e, cmd, read, h, at, before);
      read, at, h := read + [lib], at + [h], h + 1;
    }
    OrderKept(e, cmd, read, h, at, queue);
    NothingLeft(e, cmd, universe, known.Keys, read);
    r := Listed(ret);
  }
}
