/** Delegation of a command down the tree of slaves, and which nodes end up running it. */
module Delegation {
  import opened Text
  import opened NodeList
  import opened Registry

  /** A slave with the slaves registered at it.  `up` says whether dialing it succeeds. */
  datatype Node = Node(id: string, server: string, up: bool, kids: seq<Node>)

  /** A node is named by the ids on the way down to it. */
  type Path = seq<string>

  /** What comes of a request.  Where the rest of the node list starts with a bad range, the process may end
      before the program gets started; and the slave may not answer at all. */
  datatype Outcome = Runs | MayRun | NoAnswer

  datatype Request = Request(path: Path, outcome: Outcome)

  function RegOf(kids: seq<Node>): Reg {
    if kids == [] then Empty
    else Added(RegOf(kids[..|kids| - 1]), Info(kids[|kids| - 1].id, kids[|kids| - 1].server))
  }

  function Servers(kids: seq<Node>): seq<string> {
    seq(|kids|, j requires 0 <= j < |kids| => kids[j].server)
  }

  /** `ServIntersect` on the registry of a node. */
  function Selected(kids: seq<Node>, nodes: seq<string>): seq<string>
    requires |nodes| > 0
  {
    if nodes[0] == "." then Servers(kids) else Lookup(RegOf(kids), nodes)
  }

  function Under(id: string, ps: seq<Request>): seq<Request> {
    seq(|ps|, i requires 0 <= i < |ps| => Request([id] + ps[i].path, ps[i].outcome))
  }

  /** The place of the kid listening at an address, or the number of kids if there is none. */
  function KidAt(kids: seq<Node>, server: string): (j: nat)
    ensures j <= |kids| && (j < |kids| ==> kids[j].server == server)
    ensures forall i | 0 <= i < j :: kids[i].server != server
  {
    if kids == [] then 0 else if kids[0].server == server then 0 else 1 + KidAt(kids[1..], server)
  }

  /** `slaveProc`: run the program here in a goroutine of its own, then hand the request on to the slaves that
      the first (and only) entry of the node list selects. */
  function Slave(node: Node, nodes: string): (r: seq<Request>)
    ensures forall i | 0 <= i < |r| :: r[i].path != []
    decreases node, 1, 0
  {
    match ParseList(nodes)
    case BadRange => [Request([node.id], MayRun)]
    case Good(l) =>
      [Request([node.id], Runs)] + Under(node.id, Forward(node, Selected(node.kids, l[0].nodes), l[0].subnodes))
  }

  function Sent(k: Node, nodes: string): (r: seq<Request>)
    ensures forall i | 0 <= i < |r| :: r[i].path != []
    decreases k, 2, 0
  {
    if k.up then Slave(k, nodes) else [Request([k.id], NoAnswer)]
  }

  /** `sendCommandsToANodeSet`: one request for each address. */
  function Forward(node: Node, sel: seq<string>, sub: string): (r: seq<Request>)
    ensures forall i | 0 <= i < |r| :: r[i].path != []
    decreases node, 0, |sel|
  {
    if sel == [] then []
    else
      var j := KidAt(node.kids, sel[0]);
      (if j < |node.kids| then Sent(node.kids[j], sub) else []) + Forward(node, sel[1..], sub)
  }

  /** `sendCommandsToNodes` at the master: all terms, in turn; nothing at all for a bad range. */
  function Command(master: Node, l: string): seq<Request> {
    match ParseList(l)
    case BadRange => []
    case Good(ts) => Terms(master, ts)
  }

  /** Slaves that did not answer are dropped from the master's registry before the next term. */
  function Terms(master: Node, ts: seq<NodeExec>): seq<Request>
    decreases |ts|
  {
    if ts == [] then []
    else if |ts[0].nodes| == 0 then Terms(master, ts[1..])
    else
      var sel := Selected(master.kids, ts[0].nodes);
      Forward(master, sel, ts[0].subnodes) + Terms(Without(master, sel), ts[1..])
  }

  function Remaining(kids: seq<Node>, sel: seq<string>): seq<Node> {
    if kids == [] then []
    else (if kids[0].server in sel && !kids[0].up then [] else [kids[0]]) + Remaining(kids[1..], sel)
  }

  function Without(master: Node, sel: seq<string>): Node {
    master.(kids := Remaining(master.kids, sel))
  }

  predicate Starts(a: Request, early: bool) {
    a.outcome == Runs || (a.outcome == MayRun && early)
  }

  /** The programs that get started: all that are sure to be, and others as it happens. */
  function Started(ps: seq<Request>, early: seq<bool>): seq<Path>
    requires |early| == |ps|
  {
    if ps == [] then []
    else (if Starts(ps[0], early[0]) then [ps[0].path] else []) + Started(ps[1..], early[1..])
  }

  // ----- In which order -----

  /** The slaves that requests are sent to directly, in order. */
  function Direct(ps: seq<Request>): seq<string> {
    if ps == [] then []
    else (if |ps[0].path| == 1 then [ps[0].path[0]] else []) + Direct(ps[1..])
  }

  lemma {:induction false} DirectJoin(a: seq<Request>, b: seq<Request>)
    ensures Direct(a + b) == Direct(a) + Direct(b)
  {
    if a == [] {
      assert a + b == b;
    } else {
      assert (a + b)[1..] == a[1..] + b;
      DirectJoin(a[1..], b);
    }
  }

  lemma {:induction false} NoneDirect(ps: seq<Request>)
    requires forall i | 0 <= i < |ps| :: |ps[i].path| != 1
    ensures Direct(ps) == []
  {
    if ps != [] { NoneDirect(ps[1..]); }
  }

  lemma SentDirect(k: Node, sub: string)
    ensures Direct(Sent(k, sub)) == [k.id] && Sent(k, sub)[0].path == [k.id]
  {
    hide Forward;
    var first := Sent(k, sub)[0];
    assert [first][1..] == [] && Direct([]) == [] && first.path == [k.id];
    assert Direct([first]) == [k.id] + Direct([]);
    if k.up && ParseList(sub).Good? {
      var l := ParseList(sub).list;
      var below := Forward(k, Selected(k.kids, l[0].nodes), l[0].subnodes);
      DirectJoin([first], Under(k.id, below));
      NoneDirect(Under(k.id, below));
    }
  }

  predicate IsServer(node: Node, s: string) {
    exists j :: 0 <= j < |node.kids| && node.kids[j].server == s
  }

  /** One request goes to each selected slave, in the order of selection, and each is followed by those that it
      causes before the next one is sent. */
  lemma {:induction false} SentInOrder(node: Node, sel: seq<string>, sub: string)
    requires forall i | 0 <= i < |sel| :: IsServer(node, sel[i])
    ensures |Direct(Forward(node, sel, sub))| == |sel|
    ensures forall i | 0 <= i < |sel| ::
              KidAt(node.kids, sel[i]) < |node.kids|
              && Direct(Forward(node, sel, sub))[i] == node.kids[KidAt(node.kids, sel[i])].id
  {
    if sel != [] {
      var j := KidAt(node.kids, sel[0]);
      assert j < |node.kids| by {
        assert IsServer(node, sel[0]);
      }
      assert forall i | 0 <= i < |sel[1..]| :: sel[1..][i] == sel[i + 1];
      SentInOrder(node, sel[1..], sub);
      SentDirect(node.kids[j], sub);
      DirectJoin(Sent(node.kids[j], sub), Forward(node, sel[1..], sub));
      hide Sent;
    }
  }

  // ----- What the language promises -----

  /** A segment names a slave: "." everybody, otherwise its id or address, or a range holding its id. */
  ghost predicate SegmentNames(seg: string, k: Node) {
    match CutAt(seg, '-')
    case Whole(h) => h == "." || h == k.id || h == k.server
    case Pair(b, e) => exists i :: AtoiOr0(b) <= i <= AtoiOr0(e) && Itoa(i) == k.id
  }

  /** The path is matched, level by level, by a non-empty prefix of the segments, over nodes that answer; the
      last one does if `up`. */
  ghost predicate Matches(node: Node, segs: seq<string>, p: Path, up: bool)
    decreases |p|
  {
    |p| > 0 && |segs| > 0 &&
    exists j | 0 <= j < |node.kids| ::
      && node.kids[j].id == p[0] && SegmentNames(segs[0], node.kids[j])
      && if |p| == 1 then node.kids[j].up == up
         else node.kids[j].up && Matches(node.kids[j], segs[1..], p[1..], up)
  }

  /** What is left of the segments after `n` levels does not start with a bad range. */
  predicate GoodAfter(segs: seq<string>, n: nat) {
    n >= |segs| || !BadSegment(segs[n])
  }

  /** Ids and addresses are unique among the slaves of a node, and cannot be mistaken for one another. */
  ghost predicate Sane(node: Node)
    decreases node
  {
    var kids := node.kids;
    && (forall i, j | 0 <= i < j < |kids| :: kids[i].id != kids[j].id && kids[i].server != kids[j].server)
    && (forall j | 0 <= j < |kids| :: kids[j].id != "" && ':' !in kids[j].id && ':' in kids[j].server)
    && (forall j | 0 <= j < |kids| :: Sane(kids[j]))
  }

  /** The term matches the path, and the node there answers, with something well formed left for it, as the
      outcome says. */
  ghost predicate Delivers(node: Node, term: string, a: Request) {
    && Matches(node, Split(term, '/'), a.path, a.outcome != NoAnswer)
    && Fits(Split(term, '/'), |a.path|, a.outcome)
  }

  predicate Fits(segs: seq<string>, n: nat, o: Outcome) {
    o != NoAnswer ==> GoodAfter(segs, n) == (o == Runs)
  }

  ghost function CountMatching(node: Node, terms: seq<string>, a: Request): nat {
    if terms == [] then 0
    else (if Delivers(node, terms[0], a) then 1 else 0) + CountMatching(node, terms[1..], a)
  }

  // ----- Selection -----

  lemma {:induction false} RegFinds(kids: seq<Node>, n: string)
    requires forall i, j | 0 <= i < j < |kids| :: kids[i].id != kids[j].id && kids[i].server != kids[j].server
    requires forall j | 0 <= j < |kids| :: kids[j].id != "" && ':' !in kids[j].id && ':' in kids[j].server
    ensures var r := RegOf(kids);
            && (n in r.slaves <==> exists j :: 0 <= j < |kids| && kids[j].id == n)
            && (n in r.addr2id <==> exists j :: 0 <= j < |kids| && kids[j].server == n)
            && forall j | 0 <= j < |kids| ::
                 && (kids[j].id == n ==> n in r.slaves && r.slaves[n] == Info(n, kids[j].server))
                 && (kids[j].server == n ==> n in r.addr2id && r.addr2id[n] == kids[j].id)
  {
    if kids != [] {
      var init, last := kids[..|kids| - 1], kids[|kids| - 1];
      RegFinds(init, n);
      var r, r0 := RegOf(kids), RegOf(init);
      assert r.slaves == r0.slaves[last.id := Info(last.id, last.server)] &&
             r.addr2id == r0.addr2id[last.server := last.id];
      hide RegOf;
      if n in r0.slaves {
        var j :| 0 <= j < |init| && init[j].id == n;
        assert kids[j].id == n;
      }
      if n in r0.addr2id {
        var j :| 0 <= j < |init| && init[j].server == n;
        assert kids[j].server == n;
      }
      assert forall j | 0 <= j < |kids| :: j == |kids| - 1 || kids[j] == init[j];
    }
  }

  /** `Get` finds a kid exactly under its id and under its address. */
  lemma FindKid(node: Node, n: string)
    requires Sane(node)
    ensures match Find(RegOf(node.kids), n)
            case Missing => forall j | 0 <= j < |node.kids| :: node.kids[j].id != n && node.kids[j].server != n
            case Slave(s) => exists j :: 0 <= j < |node.kids| && s == Info(node.kids[j].id, node.kids[j].server) &&
                                         (n == node.kids[j].id || n == node.kids[j].server)
  {
    var kids, r := node.kids, RegOf(node.kids);
    RegFinds(kids, n);
    if n in r.slaves {
      var j :| 0 <= j < |kids| && kids[j].id == n;
    } else if n in r.addr2id {
      var j :| 0 <= j < |kids| && kids[j].server == n;
      RegFinds(kids, kids[j].id);
      assert Find(r, n) == Registry.Slave(Info(kids[j].id, kids[j].server));
    } else {
      RegFinds(kids, "");
    }
  }

  /** Looking a list of names up yields the address of kid `j` once for each name of it. */
  lemma {:induction false} LookupCount(node: Node, names: seq<string>, j: nat)
    requires Sane(node) && j < |node.kids|
    ensures var k := node.kids[j];
            multiset(Lookup(RegOf(node.kids), names))[k.server] == multiset(names)[k.id] + multiset(names)[k.server]
  {
    if names != [] {
      var k := node.kids[j];
      var n := names[0];
      var rest := Lookup(RegOf(node.kids), names[1..]);
      LookupCount(node, names[1..], j);
      FindKid(node, n);
      assert names == [n] + names[1..];
      match Find(RegOf(node.kids), n)
      case Missing =>
      case Slave(s) =>
        var i :| 0 <= i < |node.kids| && s == Info(node.kids[i].id, node.kids[i].server) &&
                 (n == node.kids[i].id || n == node.kids[i].server);
        KidsApart(node, i, j);
        assert multiset([s.server] + rest)[k.server] ==
               multiset(rest)[k.server] + if s.server == k.server then 1 else 0;
    }
  }

  lemma KidsApart(node: Node, i: nat, j: nat)
    requires Sane(node) && i < |node.kids| && j < |node.kids|
    ensures node.kids[i].id != node.kids[j].server
    ensures i != j ==> node.kids[i].id != node.kids[j].id && node.kids[i].server != node.kids[j].server
  {}

  lemma {:induction false} ServersCount(kids: seq<Node>, j: nat)
    requires j < |kids| && forall i, k | 0 <= i < k < |kids| :: kids[i].server != kids[k].server
    ensures multiset(Servers(kids))[kids[j].server] == 1
  {
    var s := Servers(kids);
    assert s == s[..j] + ([s[j]] + s[j + 1..]);
    assert kids[j].server !in s[..j] && kids[j].server !in s[j + 1..];
  }

  /** A segment selects each slave it names once, and nobody else. */
  lemma SelectedCount(node: Node, seg: string, j: nat)
    requires Sane(node) && j < |node.kids| && !BadSegment(seg)
    ensures multiset(Selected(node.kids, SegmentNodes(seg)))[node.kids[j].server] ==
            if SegmentNames(seg, node.kids[j]) then 1 else 0
  {
    var k := node.kids[j];
    match CutAt(seg, '-')
    case Whole(h) =>
      if h == "." { ServersCount(node.kids, j); } else { LookupCount(node, [h], j); KidsApart(node, j, j); }
    case Pair(b, e) =>
      var ids := Ids(AtoiOr0(b), AtoiOr0(e));
      LookupCount(node, [""] + ids, j);
      IdsHas(AtoiOr0(b), AtoiOr0(e), k.id);
      IdsHas(AtoiOr0(b), AtoiOr0(e), k.server);
      forall i | Itoa(i) == k.server ensures false { NumberHasNoColon(i); }
      hide Itoa, Ids, Lookup, Servers, Sane;
      assert multiset([""] + ids)[k.id] == multiset(ids)[k.id];
      assert multiset([""] + ids)[k.server] == multiset(ids)[k.server];
  }

  lemma NumberHasNoColon(i: int)
    ensures ':' !in Itoa(i)
  {
    var s := DigitsOf(if i < 0 then -i else i);
    forall c | c in s ensures IsDigit(c) {}
  }

  // ----- Delivery -----

  lemma {:induction false} UnderCount(id: string, ps: seq<Request>, a: Request)
    ensures multiset(Under(id, ps))[a] ==
            if a.path != [] && a.path[0] == id then multiset(ps)[Request(a.path[1..], a.outcome)] else 0
  {
    if ps == [] {
      assert Under(id, ps) == [];
    } else {
      UnderCount(id, ps[1..], a);
      var p := a.path;
      assert ps == [ps[0]] + ps[1..];
      assert Under(id, ps) == [Request([id] + ps[0].path, ps[0].outcome)] + Under(id, ps[1..]);
      if p != [] && p[0] == id {
        assert [id] + ps[0].path == p <==> ps[0].path == p[1..] by {
          assert p == [p[0]] + p[1..] && ([id] + ps[0].path)[1..] == ps[0].path;
        }
      }
    }
  }

  /** What arrives in a slave's subtree, in terms of what it forwards. */
  lemma SlaveCount(node: Node, nodes: string, a: Request)
    ensures multiset(Slave(node, nodes))[a] ==
            (if a == Request([node.id], if ParseList(nodes).Good? then Runs else MayRun) then 1 else 0) +
            (if a.path != [] && a.path[0] == node.id && ParseList(nodes).Good? then
               var l := ParseList(nodes).list;
               multiset(Forward(node, Selected(node.kids, l[0].nodes), l[0].subnodes))[Request(a.path[1..], a.outcome)]
             else 0)
  {
    hide Forward, Selected;
    match ParseList(nodes)
    case BadRange =>
    case Good(l) => UnderCount(node.id, Forward(node, Selected(node.kids, l[0].nodes), l[0].subnodes), a);
  }

  lemma SentCount(k: Node, nodes: string, a: Request)
    requires a.path == [] || k.id != a.path[0]
    ensures multiset(Sent(k, nodes))[a] == 0
  {
    SlaveCount(k, nodes, a);
  }

  /** Forwarding reaches `a` if the address of its first node was selected. */
  lemma {:induction false} ForwardCount(node: Node, sel: seq<string>, sub: string, a: Request, j: nat)
    requires Sane(node) && j < |node.kids| && a.path != [] && node.kids[j].id == a.path[0]
    requires multiset(sel)[node.kids[j].server] <= 1
    ensures var k := node.kids[j];
            multiset(Forward(node, sel, sub))[a] ==
            if multiset(sel)[k.server] == 1 then multiset(Sent(k, sub))[a] else 0
    decreases |sel|
  {
    if sel != [] {
      var k := node.kids[j];
      CountHead(sel, k.server);
      ForwardCount(node, sel[1..], sub, a, j);
      FirstHop(node, sel[0], sub, a, j);
      assert Forward(node, sel, sub) == Hop(node, sel[0], sub) + Forward(node, sel[1..], sub);
      CountJoin(Hop(node, sel[0], sub), Forward(node, sel[1..], sub), a);
    }
  }

  lemma CountHead(sel: seq<string>, s: string)
    requires sel != []
    ensures multiset(sel)[s] == multiset(sel[1..])[s] + if sel[0] == s then 1 else 0
  {
    assert sel == [sel[0]] + sel[1..];
  }

  lemma CountJoin<T>(a: seq<T>, b: seq<T>, x: T)
    ensures multiset(a + b)[x] == multiset(a)[x] + multiset(b)[x]
  {}

  function Hop(node: Node, server: string, sub: string): seq<Request> {
    var j := KidAt(node.kids, server);
    if j < |node.kids| then Sent(node.kids[j], sub) else []
  }

  lemma FirstHop(node: Node, server: string, sub: string, a: Request, j: nat)
    requires Sane(node) && j < |node.kids| && a.path != [] && node.kids[j].id == a.path[0]
    ensures multiset(Hop(node, server, sub))[a] ==
            if server == node.kids[j].server then multiset(Sent(node.kids[j], sub))[a] else 0
  {
    var i := KidAt(node.kids, server);
    if i < |node.kids| {
      KidsApart(node, i, j);
      if i != j { SentCount(node.kids[i], sub, a); }
    }
  }

  lemma {:induction false} ForwardStays(node: Node, sel: seq<string>, sub: string, a: Request)
    requires a.path == [] || forall j | 0 <= j < |node.kids| :: node.kids[j].id != a.path[0]
    ensures multiset(Forward(node, sel, sub))[a] == 0
    decreases |sel|
  {
    if sel != [] {
      ForwardStays(node, sel[1..], sub, a);
      var i := KidAt(node.kids, sel[0]);
      if i < |node.kids| { SentCount(node.kids[i], sub, a); }
    }
  }

  lemma NoNames(node: Node, p: Path, up: bool)
    requires Sane(node)
    ensures !Matches(node, [""], p, up)
  {
    CutNone("", '-');
  }

  /** One term, at the master or at a slave: requests are sent where the term matches the path. */
  lemma {:induction false} TermRuns(node: Node, term: string, a: Request)
    requires Sane(node) && !BadSegment(Head(term)) && ',' !in term
    ensures multiset(Forward(node, Selected(node.kids, SegmentNodes(Head(term))), Rest(term)))[a] ==
            if Delivers(node, term, a) then 1 else 0
    decreases |a.path|, 1
  {
    CutIsSplit(term, '/');
    var p := a.path;
    var sel := Selected(node.kids, SegmentNodes(Head(term)));
    hide Forward, Slave, Selected, SegmentNodes, BadSegment, Rest, Sane, Split, CutAt, GoodAfter;
    if p == [] || forall j | 0 <= j < |node.kids| :: node.kids[j].id != p[0] {
      ForwardStays(node, sel, Rest(term), a);
    } else {
      var j :| 0 <= j < |node.kids| && node.kids[j].id == p[0];
      SelectedCount(node, Head(term), j);
      ForwardCount(node, sel, Rest(term), a, j);
      SubtreeRuns(node, term, a, j);
      MatchesAt(node, Split(term, '/'), p, j, a.outcome != NoAnswer);
      hide Matches;
    }
  }

  /** Only the kid with the first id of the path can match it. */
  lemma MatchesAt(node: Node, segs: seq<string>, p: Path, j: nat, up: bool)
    requires Sane(node) && j < |node.kids| && p != [] && node.kids[j].id == p[0] && segs != []
    ensures Matches(node, segs, p, up) <==>
            && SegmentNames(segs[0], node.kids[j])
            && if |p| == 1 then node.kids[j].up == up
               else node.kids[j].up && Matches(node.kids[j], segs[1..], p[1..], up)
  {
    forall i | 0 <= i < |node.kids| && node.kids[i].id == p[0] ensures i == j { KidsApart(node, i, j); }
    hide Sane;
  }

  /** At and below kid `j`: the request for itself, and whatever the rest of the term matches there. */
  lemma {:induction false} SubtreeRuns(node: Node, term: string, a: Request, j: nat)
    requires Sane(node) && j < |node.kids| && a.path != [] && node.kids[j].id == a.path[0] && ',' !in term
    ensures var k, up := node.kids[j], a.outcome != NoAnswer;
            multiset(Sent(k, Rest(term)))[a] ==
            if (if |a.path| == 1 then k.up == up else k.up && Matches(k, Split(term, '/')[1..], a.path[1..], up)) &&
               Fits(Split(term, '/'), |a.path|, a.outcome)
            then 1 else 0
    decreases |a.path|, 0
  {
    var k, sub, p := node.kids[j], Rest(term), a.path;
    CutClean(term, '/', ',');
    GoodRest(term, |p|);
    hide *;
    if |p| == 1 {
      AtKid(k, sub, a);
    } else {
      AboveKid(k, sub, a);
      BelowKid(k, sub, Request(p[1..], a.outcome));
      Remainder(k, term, a);
    }
  }

  lemma AboveKid(k: Node, sub: string, a: Request)
    requires |a.path| > 1 && a.path[0] == k.id
    ensures multiset(Sent(k, sub))[a] ==
            if k.up && ParseList(sub).Good? then
              var l := ParseList(sub).list;
              multiset(Forward(k, Selected(k.kids, l[0].nodes), l[0].subnodes))[Request(a.path[1..], a.outcome)]
            else 0
  {
    hide Slave, Forward, ParseList, Selected;
    SlaveCount(k, sub, a);
  }

  lemma Remainder(k: Node, term: string, a: Request)
    requires Sane(k) && |a.path| > 1
    ensures Delivers(k, Rest(term), Request(a.path[1..], a.outcome)) <==>
            && Matches(k, Split(term, '/')[1..], a.path[1..], a.outcome != NoAnswer)
            && Fits(Split(term, '/'), |a.path|, a.outcome)
  {
    GoodRest(term, |a.path|);
    hide Matches, Split, CutAt, GoodAfter, Sane;
    if CutAt(term, '/').Whole? {
      NoNames(k, a.path[1..], a.outcome != NoAnswer);
      NoSegments(k, a.path[1..], a.outcome != NoAnswer);
    }
  }

  lemma AtKid(k: Node, sub: string, a: Request)
    requires ',' !in sub && a.path == [k.id]
    ensures multiset(Sent(k, sub))[a] ==
            if k.up == (a.outcome != NoAnswer) && (k.up ==> !BadSegment(Head(sub)) == (a.outcome == Runs)) then 1 else 0
  {
    SubList(sub);
    SlaveCount(k, sub, a);
    assert a.path[1..] == [];
    if ParseList(sub).Good? {
      var l := ParseList(sub).list;
      ForwardStays(k, Selected(k.kids, l[0].nodes), l[0].subnodes, Request([], a.outcome));
    }
    hide Slave, ParseList, Forward, Head;
  }

  /** What a term leaves for the next level. */
  lemma GoodRest(term: string, n: nat)
    requires n > 0
    ensures Split(term, '/')[1..] == (if CutAt(term, '/').Whole? then [] else Split(Rest(term), '/'))
    ensures CutAt(term, '/').Whole? ==> Split(Rest(term), '/') == [""]
    ensures GoodAfter(Split(term, '/'), 1) <==> !BadSegment(Head(Rest(term)))
    ensures CutAt(term, '/').Pair? ==>
              GoodAfter(Split(term, '/'), n) == GoodAfter(Split(Rest(term), '/'), n - 1)
  {
    CutIsSplit(term, '/');
    CutIsSplit(Rest(term), '/');
    CutNone("", '-');
  }

  lemma NoSegments(node: Node, p: Path, up: bool)
    ensures !Matches(node, [], p, up)
  {}

  lemma {:induction false} BelowKid(k: Node, sub: string, a: Request)
    requires Sane(k) && ',' !in sub
    ensures (if ParseList(sub).Good? then
               var l := ParseList(sub).list;
               multiset(Forward(k, Selected(k.kids, l[0].nodes), l[0].subnodes))[a]
             else 0) == if Delivers(k, sub, a) then 1 else 0
    decreases |a.path|, 2
  {
    SubList(sub);
    if BadSegment(Head(sub)) { BadMatchesNobody(k, sub, a.path, a.outcome != NoAnswer); } else { TermRuns(k, sub, a); }
  }

  /** A string without a comma parses to its own head and rest. */
  lemma SubList(sub: string)
    requires ',' !in sub
    ensures ParseList(sub) ==
            if BadSegment(Head(sub)) then BadRange else Good([NodeExec(SegmentNodes(Head(sub)), Rest(sub))])
  {
    SplitOne(sub, ',');
    hide Split, BadSegment, SegmentNodes, Head, Rest;
    assert [sub][1..] == [] && ParseTerms([sub][1..]) == Good([]);
    assert ParseTerms([sub]) ==
           if BadSegment(Head(sub)) then BadRange else Good([NodeExec(SegmentNodes(Head(sub)), Rest(sub))] + []);
  }

  lemma BadMatchesNobody(node: Node, term: string, p: Path, up: bool)
    requires BadSegment(Head(term))
    ensures !Matches(node, Split(term, '/'), p, up)
  {
    CutIsSplit(term, '/');
  }

  // ----- Slaves that are dropped -----

  lemma {:induction false} RemainingHas(kids: seq<Node>, sel: seq<string>, k: Node)
    ensures k in Remaining(kids, sel) <==> k in kids && !(k.server in sel && !k.up)
  {
    if kids != [] { RemainingHas(kids[1..], sel, k); }
  }

  lemma {:induction false} RemainingSane(kids: seq<Node>, sel: seq<string>)
    requires forall i, j | 0 <= i < j < |kids| :: kids[i].id != kids[j].id && kids[i].server != kids[j].server
    ensures var r := Remaining(kids, sel);
            forall i, j | 0 <= i < j < |r| :: r[i].id != r[j].id && r[i].server != r[j].server
  {
    if kids != [] {
      RemainingSane(kids[1..], sel);
      var r := Remaining(kids[1..], sel);
      forall i | 0 <= i < |r| ensures r[i].id != kids[0].id && r[i].server != kids[0].server {
        RemainingHas(kids[1..], sel, r[i]);
        var j :| 0 <= j < |kids[1..]| && kids[1..][j] == r[i];
        assert kids[j + 1] == r[i];
      }
    }
  }

  lemma WithoutSane(master: Node, sel: seq<string>)
    requires Sane(master)
    ensures Sane(Without(master, sel))
  {
    RemainingSane(master.kids, sel);
    var r := Remaining(master.kids, sel);
    forall j | 0 <= j < |r| ensures r[j].id != "" && ':' !in r[j].id && ':' in r[j].server && Sane(r[j]) {
      RemainingHas(master.kids, sel, r[j]);
    }
  }

  ghost predicate Listed(kids: seq<Node>, r: Reg, n: string) {
    && (n in r.slaves ==> exists k :: k in kids && k.id == n)
    && (n in r.addr2id ==> exists k :: k in kids && k.server == n)
    && (forall k | k in kids && k.id == n :: n in r.slaves && r.slaves[n] == Info(n, k.server))
    && (forall k | k in kids && k.server == n :: n in r.addr2id && r.addr2id[n] == k.id)
  }

  lemma RegLists(node: Node, n: string)
    requires Sane(node)
    ensures Listed(node.kids, RegOf(node.kids), n)
  {
    RegFinds(node.kids, n);
    if j :| 0 <= j < |node.kids| && node.kids[j].id == n { assert node.kids[j] in node.kids; }
    if j :| 0 <= j < |node.kids| && node.kids[j].server == n { assert node.kids[j] in node.kids; }
  }

  /** The kids that remain are those that the master's registry has left once it has dropped what failed. */
  lemma RegistryFollows(master: Node, sel: seq<string>, up: string -> bool)
    requires Sane(master) && forall k | k in master.kids :: up(k.server) == k.up
    ensures RegOf(Without(master, sel).kids) == Registry.Without(RegOf(master.kids), Failed(up, sel))
  {
    hide RegOf, Remaining, Sane, Without, Failed;
    WithoutSane(master, sel);
    var m, dead := Without(master, sel), Failed(up, sel);
    var r, r' := RegOf(m.kids), Registry.Without(RegOf(master.kids), dead);
    KidsLeft(master, sel, up);
    forall n ensures (n in r.slaves <==> n in r'.slaves) && (n in r.slaves ==> r.slaves[n] == r'.slaves[n]) {
      RegLists(m, n);
      RegLists(master, n);
      KidsUnique(master, n);
    }
    assert r.slaves == r'.slaves;
    forall n ensures (n in r.addr2id <==> n in r'.addr2id) && (n in r.addr2id ==> r.addr2id[n] == r'.addr2id[n]) {
      RegLists(m, n);
      RegLists(master, n);
    }
    assert r.addr2id == r'.addr2id;
  }

  lemma KidsLeft(master: Node, sel: seq<string>, up: string -> bool)
    requires forall k | k in master.kids :: up(k.server) == k.up
    ensures forall k :: k in Without(master, sel).kids <==> k in master.kids && k.server !in Failed(up, sel)
  {
    forall k ensures k in Without(master, sel).kids <==> k in master.kids && k.server !in Failed(up, sel) {
      RemainingHas(master.kids, sel, k);
    }
  }

  lemma KidsUnique(node: Node, n: string)
    requires Sane(node)
    ensures forall k, k' | k in node.kids && k' in node.kids && (k.id == k'.id == n || k.server == k'.server == n) ::
              k == k'
  {}

  /** Dropping slaves that do not answer only changes whether they are asked again. */
  lemma WithoutMatches(master: Node, sel: seq<string>, segs: seq<string>, p: Path, up: bool)
    ensures Matches(Without(master, sel), segs, p, up) ==> Matches(master, segs, p, up)
    ensures (up || |p| != 1 || forall k | k in master.kids && k.id == p[0] && !k.up :: k.server !in sel) ==>
              Matches(Without(master, sel), segs, p, up) == Matches(master, segs, p, up)
    ensures |p| == 1 && !up && (forall k | k in master.kids && k.id == p[0] && !k.up :: k.server in sel) ==>
              !Matches(Without(master, sel), segs, p, up)
  {
    var m := Without(master, sel);
    forall k ensures k in m.kids <==> k in master.kids && !(k.server in sel && !k.up) {
      RemainingHas(master.kids, sel, k);
    }
    hide Remaining;
    if |p| > 0 && |segs| > 0 {
      MatchesIn(master, segs, p, up);
      MatchesIn(m, segs, p, up);
    }
  }

  ghost predicate KidMatches(k: Node, segs: seq<string>, p: Path, up: bool)
    requires |p| > 0 && |segs| > 0
  {
    k.id == p[0] && SegmentNames(segs[0], k) &&
    if |p| == 1 then k.up == up else k.up && Matches(k, segs[1..], p[1..], up)
  }

  lemma MatchesIn(node: Node, segs: seq<string>, p: Path, up: bool)
    requires |p| > 0 && |segs| > 0
    ensures Matches(node, segs, p, up) <==> exists k :: k in node.kids && KidMatches(k, segs, p, up)
  {
    assert Matches(node, segs, p, up) <==>
           exists j | 0 <= j < |node.kids| :: KidMatches(node.kids[j], segs, p, up);
    hide Matches, KidMatches;
    if j :| 0 <= j < |node.kids| && KidMatches(node.kids[j], segs, p, up) { assert node.kids[j] in node.kids; }
    if k :| k in node.kids && KidMatches(k, segs, p, up) {
      var j :| 0 <= j < |node.kids| && node.kids[j] == k;
    }
  }

  // ----- Whole commands -----

  /** A request for a slave of the master's that does not answer. */
  predicate Dropped(a: Request) {
    a.outcome == NoAnswer && |a.path| == 1
  }

  lemma {:induction false} CountSame(master: Node, sel: seq<string>, terms: seq<string>, a: Request)
    requires Dropped(a) ==> forall k | k in master.kids && k.id == a.path[0] && !k.up :: k.server !in sel
    ensures CountMatching(Without(master, sel), terms, a) == CountMatching(master, terms, a)
  {
    if terms != [] {
      CountSame(master, sel, terms[1..], a);
      WithoutMatches(master, sel, Split(terms[0], '/'), a.path, a.outcome != NoAnswer);
    }
  }

  lemma {:induction false} CountNone(master: Node, sel: seq<string>, terms: seq<string>, a: Request)
    requires Dropped(a) && forall k | k in master.kids && k.id == a.path[0] && !k.up :: k.server in sel
    ensures CountMatching(Without(master, sel), terms, a) == 0
  {
    if terms != [] {
      CountNone(master, sel, terms[1..], a);
      WithoutMatches(master, sel, Split(terms[0], '/'), a.path, false);
    }
  }

  /** What the first term leaves of the rest. */
  lemma CountLeft(master: Node, term: string, terms: seq<string>, a: Request)
    requires Sane(master) && !BadSegment(Head(term))
    ensures var sel := Selected(master.kids, SegmentNodes(Head(term)));
            CountMatching(Without(master, sel), terms, a) ==
            if Dropped(a) && Delivers(master, term, a) then 0 else CountMatching(master, terms, a)
  {
    var seg := Head(term);
    var sel := Selected(master.kids, SegmentNodes(seg));
    CutIsSplit(term, '/');
    forall j | 0 <= j < |master.kids| ensures master.kids[j].server in sel <==> SegmentNames(seg, master.kids[j]) {
      SelectedCount(master, seg, j);
    }
    hide Selected, SegmentNodes, SegmentNames, CountMatching, Split;
    if Dropped(a) && Delivers(master, term, a) {
      var j :| 0 <= j < |master.kids| && master.kids[j].id == a.path[0] && SegmentNames(seg, master.kids[j]);
      forall k | k in master.kids && k.id == a.path[0] ensures k.server in sel { OneOfId(master, j, k); }
      CountNone(master, sel, terms, a);
    } else {
      if Dropped(a) {
        forall k | k in master.kids && k.id == a.path[0] && !k.up ensures k.server !in sel {
          var j :| 0 <= j < |master.kids| && master.kids[j] == k;
          MatchesAt(master, Split(term, '/'), a.path, j, false);
        }
      }
      CountSame(master, sel, terms, a);
    }
  }

  lemma OneOfId(node: Node, j: nat, k: Node)
    requires Sane(node) && j < |node.kids| && k in node.kids && k.id == node.kids[j].id
    ensures k == node.kids[j]
  {
    var i :| 0 <= i < |node.kids| && node.kids[i] == k;
    KidsApart(node, i, j);
  }

  lemma {:induction false} TermsRun(master: Node, terms: seq<string>, a: Request)
    requires Sane(master)
    requires forall i | 0 <= i < |terms| :: ',' !in terms[i] && !BadSegment(Head(terms[i]))
    ensures ParseTerms(terms).Good?
    ensures var n := CountMatching(master, terms, a);
            multiset(Terms(master, ParseTerms(terms).list))[a] == if Dropped(a) && n > 0 then 1 else n
    decreases |terms|
  {
    if terms != [] {
      var ne := NodeExec(SegmentNodes(Head(terms[0])), Rest(terms[0]));
      var sel := Selected(master.kids, ne.nodes);
      WithoutSane(master, sel);
      TermsRun(Without(master, sel), terms[1..], a);
      TermRuns(master, terms[0], a);
      CountLeft(master, terms[0], terms[1..], a);
      var rest := ParseTerms(terms[1..]).list;
      assert ([ne] + rest)[1..] == rest;
    }
  }

  /** A command sends a request to a node once for each comma term whose segments match its path, except that
      the master asks a slave that does not answer only once; a bad range in the first segment of any term
      sends nothing anywhere. */
  lemma CommandRuns(master: Node, l: string, a: Request)
    requires Sane(master)
    ensures var n := CountMatching(master, Split(l, ','), a);
            multiset(Command(master, l))[a] ==
            if exists i :: 0 <= i < |Split(l, ',')| && BadSegment(Head(Split(l, ',')[i])) then 0
            else if Dropped(a) && n > 0 then 1 else n
  {
    var terms := Split(l, ',');
    SplitClean(l, ',', ',');
    SingleTerms(terms);
    if ParseList(l).Good? { TermsRun(master, terms, a); }
  }

  // ----- Programs -----

  /** Each request that arrives starts the program once if it is sure to, and at most once otherwise. */
  lemma {:induction false} StartedBetween(ps: seq<Request>, early: seq<bool>, p: Path)
    requires |early| == |ps|
    ensures var n, sure := multiset(Started(ps, early))[p], multiset(ps)[Request(p, Runs)];
            sure <= n <= sure + multiset(ps)[Request(p, MayRun)]
  {
    if ps != [] {
      StartedBetween(ps[1..], early[1..], p);
      StartedHead(ps, early, p);
    }
  }

  lemma StartedHead(ps: seq<Request>, early: seq<bool>, p: Path)
    requires |early| == |ps| && ps != []
    ensures multiset(Started(ps, early))[p] ==
            (if ps[0].path == p && Starts(ps[0], early[0]) then 1 else 0) + multiset(Started(ps[1..], early[1..]))[p]
    ensures forall o ::
              multiset(ps)[Request(p, o)] ==
              (if ps[0] == Request(p, o) then 1 else 0) + multiset(ps[1..])[Request(p, o)]
  {
    var head, rest := if Starts(ps[0], early[0]) then [ps[0].path] else [], Started(ps[1..], early[1..]);
    assert Started(ps, early) == head + rest;
    hide Started;
    CountJoin(head, rest, p);
    forall o ensures multiset(ps)[Request(p, o)] ==
                     (if ps[0] == Request(p, o) then 1 else 0) + multiset(ps[1..])[Request(p, o)]
    {
      CountFirst(ps, Request(p, o));
    }
  }

  lemma CountFirst<T>(ps: seq<T>, x: T)
    requires ps != []
    ensures multiset(ps)[x] == (if ps[0] == x then 1 else 0) + multiset(ps[1..])[x]
  {
    assert ps == [ps[0]] + ps[1..];
  }

  /** And every number in between is possible. */
  lemma {:induction false} StartedAny(ps: seq<Request>, p: Path, n: nat) returns (early: seq<bool>)
    requires multiset(ps)[Request(p, Runs)] <= n <= multiset(ps)[Request(p, Runs)] + multiset(ps)[Request(p, MayRun)]
    ensures |early| == |ps| && multiset(Started(ps, early))[p] == n
  {
    if ps == [] {
      early := [];
    } else {
      var sure := multiset(ps)[Request(p, Runs)];
      var go := ps[0] == Request(p, MayRun) && n > sure;
      StartedHead(ps, seq(|ps|, i => false), p);
      var rest := StartedAny(ps[1..], p, if ps[0] == Request(p, Runs) || go then n - 1 else n);
      early := [go] + rest;
      assert early[1..] == rest;
      StartedHead(ps, early, p);
    }
  }

  /** How often a command starts the program at a node: once for each term that matches its path and leaves
      nothing ill-formed there, and at most once more for each that matches and leaves a bad range. */
  lemma ProgramsRun(master: Node, l: string, early: seq<bool>, p: Path)
    requires Sane(master) && |early| == |Command(master, l)|
    requires forall i | 0 <= i < |Split(l, ',')| :: !BadSegment(Head(Split(l, ',')[i]))
    ensures var n := multiset(Started(Command(master, l), early))[p];
            var terms := Split(l, ',');
            var sure := CountMatching(master, terms, Request(p, Runs));
            sure <= n <= sure + CountMatching(master, terms, Request(p, MayRun))
  {
    CommandRuns(master, l, Request(p, Runs));
    CommandRuns(master, l, Request(p, MayRun));
    StartedBetween(Command(master, l), early, p);
  }

  /** No request goes deeper in the tree than a term has segments. */
  lemma {:induction false} MatchDepth(node: Node, segs: seq<string>, p: Path, up: bool)
    requires Matches(node, segs, p, up)
    ensures 1 <= |p| <= |segs|
    decreases |p|
  {
    if |p| > 1 {
      var j :| 0 <= j < |node.kids| && node.kids[j].id == p[0] && Matches(node.kids[j], segs[1..], p[1..], up);
      MatchDepth(node.kids[j], segs[1..], p[1..], up);
    }
  }

  /** Every node on the way to one that a request is sent to is sure to run the program. */
  lemma {:induction false} WholePathRuns(node: Node, segs: seq<string>, p: Path, up: bool, n: nat)
    requires Matches(node, segs, p, up) && 1 <= n < |p|
    ensures Matches(node, segs, p[..n], true) && GoodAfter(segs, n)
    decreases |p|
  {
    var j :| 0 <= j < |node.kids| && node.kids[j].id == p[0] && node.kids[j].up &&
             SegmentNames(segs[0], node.kids[j]) && Matches(node.kids[j], segs[1..], p[1..], up);
    if n > 1 {
      WholePathRuns(node.kids[j], segs[1..], p[1..], up, n - 1);
      assert p[1..][..n - 1] == p[..n][1..];
    } else {
      assert exists i :: 0 <= i < |node.kids[j].kids| && SegmentNames(segs[1..][0], node.kids[j].kids[i]);
    }
  }

  // ----- The master's loops -----

  function FirstLevel(ps: seq<Request>): nat {
    if ps == [] then 0 else (if |ps[0].path| == 1 && ps[0].outcome != NoAnswer then 1 else 0) + FirstLevel(ps[1..])
  }

  lemma {:induction false} FirstLevelJoin(a: seq<Request>, b: seq<Request>)
    ensures FirstLevel(a + b) == FirstLevel(a) + FirstLevel(b)
  {
    if a == [] {
      assert a + b == b;
    } else {
      assert (a + b)[1..] == a[1..] + b;
      FirstLevelJoin(a[1..], b);
    }
  }

  lemma {:induction false} DeepPaths(ps: seq<Request>)
    requires forall i | 0 <= i < |ps| :: |ps[i].path| > 1
    ensures FirstLevel(ps) == 0
  {
    if ps != [] { DeepPaths(ps[1..]); }
  }

  /** A request that gets through arrives once at its first hop, and otherwise below it. */
  lemma SlaveFirstLevel(node: Node, nodes: string)
    ensures FirstLevel(Slave(node, nodes)) == 1
  {
    var own := Request([node.id], if ParseList(nodes).Good? then Runs else MayRun);
    assert [own][1..] == [] && FirstLevel([own]) == 1;
    if ParseList(nodes).Good? {
      var l := ParseList(nodes).list;
      var below := Forward(node, Selected(node.kids, l[0].nodes), l[0].subnodes);
      FirstLevelJoin([own], Under(node.id, below));
      DeepPaths(Under(node.id, below));
    }
  }

  lemma OneSend(master: Node, sel: seq<string>, sub: string)
    requires sel != []
    ensures var j := KidAt(master.kids, sel[0]);
            FirstLevel(Forward(master, sel, sub)) ==
            (if j < |master.kids| && master.kids[j].up then 1 else 0) + FirstLevel(Forward(master, sel[1..], sub))
  {
    var j := KidAt(master.kids, sel[0]);
    FirstLevelJoin(Hop(master, sel[0], sub), Forward(master, sel[1..], sub));
    if j < |master.kids| { SlaveFirstLevel(master.kids[j], sub); }
  }

  /** The loop of `sendCommandsToANodeSet`. */
  method SendToSet(master: Node, sub: string, nodeSet: seq<string>) returns (numnodes: nat)
    ensures numnodes == FirstLevel(Forward(master, nodeSet, sub))
  {
    numnodes := 0;
    for i := 0 to |nodeSet|
      invariant numnodes + FirstLevel(Forward(master, nodeSet[i..], sub)) == FirstLevel(Forward(master, nodeSet, sub))
    {
      assert nodeSet[i..][0] == nodeSet[i] && nodeSet[i..][1..] == nodeSet[i + 1..];
      OneSend(master, nodeSet[i..], sub);
      var j := KidAt(master.kids, nodeSet[i]);
      if j < |master.kids| && master.kids[j].up { numnodes := numnodes + 1; }
    }
  }

  /** `sendCommandsToNodes`: the number of nodes reported to the user's process is the number of
      requests that got through directly below the master, each of which will connect back once. */
  method SendCommandsToNodes(master: Node, l: string) returns (numnodes: nat)
    ensures numnodes == FirstLevel(Command(master, l))
  {
    numnodes := 0;
    var ok, slaveNodes := ParseNodeList(l);
    if !ok { return; }
    var left := master;
    for i := 0 to |slaveNodes|
      invariant numnodes + FirstLevel(Terms(left, slaveNodes[i..])) == FirstLevel(Terms(master, slaveNodes))
    {
      hide Forward;
      assert slaveNodes[i..][0] == slaveNodes[i] && slaveNodes[i..][1..] == slaveNodes[i + 1..];
      var aNode := slaveNodes[i];
      if |aNode.nodes| > 0 {
        var nodeSet := Selected(left.kids, aNode.nodes);
        FirstLevelJoin(Forward(left, nodeSet, aNode.subnodes), Terms(Without(left, nodeSet), slaveNodes[i + 1..]));
        var n := SendToSet(left, aNode.subnodes, nodeSet);
        numnodes := numnodes + n;
        left := Without(left, nodeSet);
      }
    }
  }
}
