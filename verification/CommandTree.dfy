/** From a command to the completion protocol: the requests that a command causes form the tree that the
    protocol runs on, so that the command alone decides whether the user's process returns. */
module CommandTree {
  import opened Text
  import opened NodeList
  import opened Delegation
  import C = Completion
  import O = Orphans
  import R = Returning

  /** A request with the requests that it causes. */
  datatype Req = Req(path: Path, fate: C.Fate, kids: seq<Req>)

  /** What becomes of a request, if `own` is what becomes of one that is well formed and arrives. */
  function FateOf(o: Outcome, own: C.Fate): C.Fate {
    match o
    case NoAnswer => C.NoDial
    case MayRun => if own == C.NoDialBack then C.NoDialBack else C.BadRange
    case Runs => own
  }

  function OutcomeAt(k: Node, nodes: string): Outcome {
    if !k.up then NoAnswer else if ParseList(nodes).Good? then Runs else MayRun
  }

  function One(k: Node, nodes: string, at: Path, how: Path -> C.Fate): Req
    decreases k, 1, 0
  {
    var p := at + [k.id];
    Req(p, FateOf(OutcomeAt(k, nodes), how(p)),
        if OutcomeAt(k, nodes) == Runs then
          var l := ParseList(nodes).list;
          Asked(k, Selected(k.kids, l[0].nodes), l[0].subnodes, p, how)
        else [])
  }

  function Asked(node: Node, sel: seq<string>, sub: string, at: Path, how: Path -> C.Fate): seq<Req>
    decreases node, 0, |sel|
  {
    if sel == [] then []
    else
      var j := KidAt(node.kids, sel[0]);
      (if j < |node.kids| then [One(node.kids[j], sub, at, how)] else []) + Asked(node, sel[1..], sub, at, how)
  }

  function AskedTerms(master: Node, ts: seq<NodeExec>, how: Path -> C.Fate): seq<Req>
    decreases |ts|
  {
    if ts == [] then []
    else if |ts[0].nodes| == 0 then AskedTerms(master, ts[1..], how)
    else
      var sel := Selected(master.kids, ts[0].nodes);
      Asked(master, sel, ts[0].subnodes, [], how) + AskedTerms(Without(master, sel), ts[1..], how)
  }

  function AskedCommand(master: Node, l: string, how: Path -> C.Fate): seq<Req> {
    match ParseList(l)
    case BadRange => []
    case Good(ts) => AskedTerms(master, ts, how)
  }

  // ----- Numbering the requests -----

  datatype Item = Item(parent: nat, fate: C.Fate, host: Path)

  /** The requests below node `p`, each followed by those that it causes; the first has number `base`. */
  function Flat(rs: seq<Req>, p: nat, base: nat): seq<Item> {
    if rs == [] then []
    else
      var below := Flat(rs[0].kids, base, base + 1);
      [Item(p, rs[0].fate, rs[0].path)] + below + Flat(rs[1..], p, base + 1 + |below|)
  }

  function TreeOf(items: seq<Item>): C.Tree {
    C.Tree([0] + seq(|items|, i requires 0 <= i < |items| => items[i].parent),
           [C.Fine] + seq(|items|, i requires 0 <= i < |items| => items[i].fate),
           [[]] + seq(|items|, i requires 0 <= i < |items| => items[i].host))
  }

  /** The tree of requests of a command; `how` says what becomes of those that arrive well formed. */
  function Requests(master: Node, l: string, how: Path -> C.Fate): C.Tree {
    TreeOf(Flat(AskedCommand(master, l, how), 0, 1))
  }

  /** The i-th item belongs to a slave of the item it comes from, which arrived well formed. */
  ghost predicate NestedAt(items: seq<Item>, i: nat, p: nat, base: nat, at: Path, how: Path -> C.Fate)
    requires i < |items|
  {
    items[i].host != [] &&
    var q, above := items[i].parent, items[i].host[..|items[i].host| - 1];
    (q == p && above == at) ||
    (base <= q < base + i && items[q - base].host == above && items[q - base].fate == how(above))
  }

  ghost predicate Nested(items: seq<Item>, p: nat, base: nat, at: Path, how: Path -> C.Fate) {
    forall i | 0 <= i < |items| :: NestedAt(items, i, p, base, at, how)
  }

  /** The items stand for the requests of `ps`, one by one. */
  ghost predicate Describes(items: seq<Item>, at: Path, ps: seq<Request>, how: Path -> C.Fate) {
    && |items| == |ps|
    && forall i | 0 <= i < |ps| ::
         items[i].host == at + ps[i].path && items[i].fate == FateOf(ps[i].outcome, how(items[i].host))
  }

  lemma {:induction false} FlatJoin(a: seq<Req>, b: seq<Req>, p: nat, base: nat)
    ensures var x := Flat(a, p, base); Flat(a + b, p, base) == x + Flat(b, p, base + |x|)
  {
    if a == [] {
      assert a + b == b;
    } else {
      var below := Flat(a[0].kids, base, base + 1);
      assert (a + b)[0] == a[0] && (a + b)[1..] == a[1..] + b;
      FlatJoin(a[1..], b, p, base + 1 + |below|);
    }
  }

  lemma NestedJoin(x: seq<Item>, y: seq<Item>, p: nat, base: nat, at: Path, how: Path -> C.Fate)
    requires Nested(x, p, base, at, how) && Nested(y, p, base + |x|, at, how)
    ensures Nested(x + y, p, base, at, how)
  {
    forall i | 0 <= i < |x + y| ensures NestedAt(x + y, i, p, base, at, how) {
      if i < |x| { NestedFirst(x, y, i, p, base, at, how); } else { NestedLast(x, y, i - |x|, p, base, at, how); }
    }
  }

  lemma NestedFirst(x: seq<Item>, y: seq<Item>, i: nat, p: nat, base: nat, at: Path, how: Path -> C.Fate)
    requires i < |x| && NestedAt(x, i, p, base, at, how)
    ensures NestedAt(x + y, i, p, base, at, how)
  {
    var q := x[i].parent;
    assert (x + y)[i] == x[i] && (base <= q < base + i ==> (x + y)[q - base] == x[q - base]);
  }

  lemma NestedLast(x: seq<Item>, y: seq<Item>, i: nat, p: nat, base: nat, at: Path, how: Path -> C.Fate)
    requires i < |y| && NestedAt(y, i, p, base + |x|, at, how)
    ensures NestedAt(x + y, |x| + i, p, base, at, how)
  {
    var q := y[i].parent;
    assert (x + y)[|x| + i] == y[i];
    if base + |x| <= q < base + |x| + i { assert (x + y)[q - base] == y[q - (base + |x|)]; }
  }

  lemma DescribesJoin(x: seq<Item>, y: seq<Item>, at: Path, a: seq<Request>, b: seq<Request>, how: Path -> C.Fate)
    requires Describes(x, at, a, how) && Describes(y, at, b, how)
    ensures Describes(x + y, at, a + b, how)
  {}

  lemma NothingThere(p: nat, base: nat, at: Path, how: Path -> C.Fate)
    ensures Flat([], p, base) == [] && Nested([], p, base, at, how) && Describes([], at, [], how)
  {}

  lemma {:induction false} OneItems(k: Node, nodes: string, at: Path, how: Path -> C.Fate, p: nat, base: nat)
    ensures var items := Flat([One(k, nodes, at, how)], p, base);
            Nested(items, p, base, at, how) && Describes(items, at, Sent(k, nodes), how)
    decreases k, 1, 0
  {
    hide Nested, NestedAt, Describes, Forward;
    var r := One(k, nodes, at, how);
    var first := Item(p, r.fate, r.path);
    var below := Flat(r.kids, base, base + 1);
    assert [r][1..] == [] && Flat([r], p, base) == [first] + below;
    if OutcomeAt(k, nodes) == Runs {
      var l := ParseList(nodes).list;
      var sel := Selected(k.kids, l[0].nodes);
      AskedItems(k, sel, l[0].subnodes, r.path, how, base, base + 1);
      Wrap(first, below, at, how, p, base, k.id, Forward(k, sel, l[0].subnodes));
    } else {
      assert below == [];
      Alone(first, at, how, base, k.id, OutcomeAt(k, nodes));
    }
  }

  lemma Alone(first: Item, at: Path, how: Path -> C.Fate, base: nat, id: string, o: Outcome)
    requires first.host == at + [id] && first.fate == FateOf(o, how(at + [id]))
    ensures Nested([first] + [], first.parent, base, at, how)
    ensures Describes([first] + [], at, [Request([id], o)], how)
  {
    assert first.host[..|first.host| - 1] == at;
  }

  /** A request and those that it causes. */
  lemma Wrap(first: Item, below: seq<Item>, at: Path, how: Path -> C.Fate, p: nat, base: nat, id: string,
             ps: seq<Request>)
    requires first == Item(p, how(at + [id]), at + [id])
    requires Nested(below, base, base + 1, first.host, how) && Describes(below, first.host, ps, how)
    ensures Nested([first] + below, p, base, at, how)
    ensures Describes([first] + below, at, [Request([id], Runs)] + Under(id, ps), how)
  {
    assert first.host[..|first.host| - 1] == at;
    forall i | 0 <= i < |[first] + below| ensures NestedAt([first] + below, i, p, base, at, how) {
      if i > 0 { NestedBelow(first, below, i - 1, p, base, at, how); }
    }
    assert Describes([first], at, [Request([id], Runs)], how);
    DescribesUnder(below, at, ps, how, id);
    hide Nested, NestedAt, Describes;
    DescribesJoin([first], below, at, [Request([id], Runs)], Under(id, ps), how);
  }

  lemma NestedBelow(first: Item, below: seq<Item>, i: nat, p: nat, base: nat, at: Path, how: Path -> C.Fate)
    requires i < |below| && NestedAt(below, i, base, base + 1, first.host, how) && first.fate == how(first.host)
    ensures NestedAt([first] + below, i + 1, p, base, at, how)
  {
    var q, items := below[i].parent, [first] + below;
    assert items[i + 1] == below[i];
    if q != base { assert items[q - base] == below[q - (base + 1)]; }
  }

  lemma DescribesUnder(below: seq<Item>, at: Path, ps: seq<Request>, how: Path -> C.Fate, id: string)
    requires Describes(below, at + [id], ps, how)
    ensures Describes(below, at, Under(id, ps), how)
  {
    forall i | 0 <= i < |ps| ensures at + Under(id, ps)[i].path == below[i].host {
      assert at + ([id] + ps[i].path) == at + [id] + ps[i].path;
    }
  }

  lemma {:induction false} AskedItems(node: Node, sel: seq<string>, sub: string, at: Path, how: Path -> C.Fate,
                                      p: nat, base: nat)
    ensures var items := Flat(Asked(node, sel, sub, at, how), p, base);
            Nested(items, p, base, at, how) && Describes(items, at, Forward(node, sel, sub), how)
    decreases node, 0, |sel|
  {
    hide *;
    AskedStep(node, sel, sub, at, how);
    NothingThere(p, base, at, how);
    if sel != [] {
      var j := KidAt(node.kids, sel[0]);
      var head := if j < |node.kids| then [One(node.kids[j], sub, at, how)] else [];
      var x, rest := Flat(head, p, base), Asked(node, sel[1..], sub, at, how);
      if j < |node.kids| { OneItems(node.kids[j], sub, at, how, p, base); }
      AskedItems(node, sel[1..], sub, at, how, p, base + |x|);
      FlatJoin(head, rest, p, base);
      NestedJoin(x, Flat(rest, p, base + |x|), p, base, at, how);
      DescribesJoin(x, Flat(rest, p, base + |x|), at, Hop(node, sel[0], sub), Forward(node, sel[1..], sub), how);
    }
  }

  /** One address after another. */
  lemma AskedStep(node: Node, sel: seq<string>, sub: string, at: Path, how: Path -> C.Fate)
    ensures sel == [] ==> Asked(node, sel, sub, at, how) == [] && Forward(node, sel, sub) == []
    ensures sel != [] ==>
              var j := KidAt(node.kids, sel[0]);
              && Asked(node, sel, sub, at, how) ==
                 (if j < |node.kids| then [One(node.kids[j], sub, at, how)] else [])
                 + Asked(node, sel[1..], sub, at, how)
              && Hop(node, sel[0], sub) == (if j < |node.kids| then Sent(node.kids[j], sub) else [])
              && Forward(node, sel, sub) == Hop(node, sel[0], sub) + Forward(node, sel[1..], sub)
  {
    hide One, Sent;
  }

  lemma {:induction false} TermsItems(master: Node, ts: seq<NodeExec>, how: Path -> C.Fate, base: nat)
    requires base > 0
    ensures var items := Flat(AskedTerms(master, ts, how), 0, base);
            Nested(items, 0, base, [], how) && Describes(items, [], Terms(master, ts), how)
    decreases |ts|
  {
    hide Nested, Describes, Forward, Asked;
    if ts == [] {
      NothingThere(0, base, [], how);
    } else {
      if |ts[0].nodes| == 0 {
        TermsItems(master, ts[1..], how, base);
      } else {
        var sel, sub := Selected(master.kids, ts[0].nodes), ts[0].subnodes;
        var head, rest := Asked(master, sel, sub, [], how), AskedTerms(Without(master, sel), ts[1..], how);
        var x := Flat(head, 0, base);
        AskedItems(master, sel, sub, [], how, 0, base);
        TermsItems(Without(master, sel), ts[1..], how, base + |x|);
        FlatJoin(head, rest, 0, base);
        var y := Flat(rest, 0, base + |x|);
        NestedJoin(x, y, 0, base, [], how);
        DescribesJoin(x, y, [], Forward(master, sel, sub), Terms(Without(master, sel), ts[1..]), how);
      }
    }
  }

  // ----- The tree of a command -----

  /** Node `j` is a slave of the node above it, which arrived well formed. */
  ghost predicate Hangs(t: C.Tree, how: Path -> C.Fate, j: nat)
    requires |t.parent| == |t.fate| == |t.host| && 0 < j < |t.parent|
  {
    && t.parent[j] < j && t.host[j] != [] && t.host[t.parent[j]] == t.host[j][..|t.host[j]| - 1]
    && (t.parent[j] > 0 ==> t.fate[t.parent[j]] == how(t.host[t.parent[j]]))
  }

  /** Its nodes are the requests that the command sends, in order. */
  lemma RequestsTree(master: Node, l: string, how: Path -> C.Fate)
    ensures var t, ps := Requests(master, l, how), Command(master, l);
            && t.Valid() && |t.parent| == |ps| + 1 && t.host[0] == []
            && (forall i | 0 <= i < |ps| ::
                  t.host[i + 1] == ps[i].path && t.fate[i + 1] == FateOf(ps[i].outcome, how(ps[i].path)))
            && (forall j | 0 < j < |t.parent| :: Hangs(t, how, j))
  {
    var rs, ps := AskedCommand(master, l, how), Command(master, l);
    var items := Flat(rs, 0, 1);
    match ParseList(l) {
      case BadRange =>
      case Good(ts) => TermsItems(master, ts, how, 1);
    }
    hide Command, AskedCommand, Flat, Nested;
    assert Nested(items, 0, 1, [], how) && Describes(items, [], ps, how);
    ItemsTree(items, ps, how);
  }

  lemma ItemsTree(items: seq<Item>, ps: seq<Request>, how: Path -> C.Fate)
    requires Nested(items, 0, 1, [], how) && Describes(items, [], ps, how)
    ensures var t := TreeOf(items);
            && t.Valid() && |t.parent| == |ps| + 1
            && (forall i | 0 <= i < |ps| ::
                  t.host[i + 1] == ps[i].path && t.fate[i + 1] == FateOf(ps[i].outcome, how(ps[i].path)))
            && (forall j | 0 < j < |t.parent| :: Hangs(t, how, j))
  {
    var t := TreeOf(items);
    forall j | 0 < j < |t.parent| ensures Hangs(t, how, j) { ItemHangs(items, how, j - 1); }
    HangValid(t, how);
    forall i | 0 <= i < |ps|
      ensures t.host[i + 1] == ps[i].path && t.fate[i + 1] == FateOf(ps[i].outcome, how(ps[i].path))
    {
      assert [] + ps[i].path == ps[i].path;
    }
    hide Hangs;
  }

  lemma ItemHangs(items: seq<Item>, how: Path -> C.Fate, i: nat)
    requires i < |items| && Nested(items, 0, 1, [], how)
    ensures Hangs(TreeOf(items), how, i + 1)
  {
    assert NestedAt(items, i, 0, 1, [], how);
  }

  lemma HangValid(t: C.Tree, how: Path -> C.Fate)
    requires |t.parent| == |t.fate| == |t.host| > 0 && t.fate[0] == C.Fine && t.host[0] == []
    requires forall j | 0 < j < |t.parent| :: Hangs(t, how, j)
    ensures t.Valid()
  {
    forall i | 0 < i < |t.parent| ensures t.parent[i] < i && t.host[i] != [] { assert Hangs(t, how, i); }
    forall i, j | 0 < i < |t.parent| && 0 < j < |t.parent| && t.host[i] == t.host[j]
      ensures t.host[t.parent[i]] == t.host[t.parent[j]]
    {
      assert Hangs(t, how, i) && Hangs(t, how, j);
    }
    hide Hangs;
  }

  function AllWell(): Path -> C.Fate {
    (p: Path) => C.Fine
  }

  /** With every process that is reached dialing back and starting its program, all but the leaves are fine. */
  lemma {:induction false} AboveFine(t: C.Tree, j: nat)
    requires t.Valid() && 0 < j < |t.parent| && forall k | 0 < k < |t.parent| :: Hangs(t, AllWell(), k)
    ensures O.FineTo(t, t.parent[j])
    decreases j
  {
    assert Hangs(t, AllWell(), j);
    if t.parent[j] > 0 { AboveFine(t, t.parent[j]); }
  }

  /** A slave that is handed a bad range is named once. */
  ghost predicate BadOnce(ps: seq<Request>) {
    forall i, j | 0 <= i < |ps| && 0 <= j < |ps| && i != j && ps[i].path == ps[j].path :: ps[i].outcome != MayRun
  }

  /** Every slave below the first level that a request is sent to answers. */
  ghost predicate AllAnswer(ps: seq<Request>) {
    forall i | 0 <= i < |ps| && |ps[i].path| > 1 :: ps[i].outcome != NoAnswer
  }

  lemma TreeAnswers(master: Node, l: string)
    ensures var t := Requests(master, l, AllWell());
            && t.Valid() && (BadOnce(Command(master, l)) ==> R.Unblocked(t))
            && (AllAnswer(Command(master, l)) <==> R.NoneLost(t))
  {
    RequestsTree(master, l, AllWell());
    var t, ps := Requests(master, l, AllWell()), Command(master, l);
    hide Requests, Command, R.Unblocked, BadOnce, O.FineTo;
    forall j | 0 < j < |t.parent|
      ensures O.FineTo(t, t.parent[j]) && t.fate[j] == FateOf(ps[j - 1].outcome, C.Fine)
      ensures (t.parent[j] == 0 <==> |ps[j - 1].path| == 1) && ps[j - 1].path != []
    {
      AboveFine(t, j);
      NodeOf(t, ps, AllWell(), j);
    }
    forall i | 0 <= i < |ps| ensures t.host[i + 1] == ps[i].path && t.fate[i + 1] == FateOf(ps[i].outcome, C.Fine) {
      NodeOf(t, ps, AllWell(), i + 1);
    }
    AnswersIff(t, ps);
    if BadOnce(ps) { OnceUnblocked(t, ps); }
  }

  /** One node of the tree and its request. */
  lemma NodeOf(t: C.Tree, ps: seq<Request>, how: Path -> C.Fate, j: nat)
    requires t.Valid() && |t.parent| == |ps| + 1 && 0 < j < |t.parent| && t.host[0] == []
    requires forall i | 0 <= i < |ps| ::
               t.host[i + 1] == ps[i].path && t.fate[i + 1] == FateOf(ps[i].outcome, how(ps[i].path))
    requires forall k | 0 < k < |t.parent| :: Hangs(t, how, k)
    ensures t.host[j] == ps[j - 1].path && t.fate[j] == FateOf(ps[j - 1].outcome, how(ps[j - 1].path))
    ensures (t.parent[j] == 0 <==> |ps[j - 1].path| == 1) && ps[j - 1].path != []
  {
    assert t.host[j - 1 + 1] == ps[j - 1].path;
    assert t.fate[j - 1 + 1] == FateOf(ps[j - 1].outcome, how(ps[j - 1].path));
    assert Hangs(t, how, j);
    if t.parent[j] > 0 { assert Hangs(t, how, t.parent[j]); }
  }

  lemma AnswersIff(t: C.Tree, ps: seq<Request>)
    requires t.Valid() && |t.parent| == |ps| + 1
    requires forall j | 0 < j < |t.parent| ::
               && O.FineTo(t, t.parent[j]) && t.fate[j] == FateOf(ps[j - 1].outcome, C.Fine)
               && (t.parent[j] == 0 <==> |ps[j - 1].path| == 1) && ps[j - 1].path != []
    ensures AllAnswer(ps) <==> R.NoneLost(t)
  {
    hide O.FineTo;
    if R.NoneLost(t) {
      forall i | 0 <= i < |ps| && |ps[i].path| > 1 ensures ps[i].outcome != NoAnswer {
        assert O.FineTo(t, t.parent[i + 1]) && ps[i + 1 - 1] == ps[i];
      }
    }
  }

  lemma OnceUnblocked(t: C.Tree, ps: seq<Request>)
    requires t.Valid() && |t.parent| == |ps| + 1 && BadOnce(ps)
    requires forall i | 0 <= i < |ps| :: t.host[i + 1] == ps[i].path && t.fate[i + 1] == FateOf(ps[i].outcome, C.Fine)
    requires forall j | 0 < j < |t.parent| :: O.FineTo(t, t.parent[j])
    ensures R.Unblocked(t)
  {
    forall j, k | 0 < j < |t.parent| && 0 < k < |t.parent| && j != k && t.host[j] == t.host[k] &&
                  O.FineTo(t, t.parent[j]) && t.fate[j] != C.NoDial
      ensures O.Steady(t, k)
    {
      assert ps[k - 1].path == t.host[k - 1 + 1] == t.host[j - 1 + 1] == ps[j - 1].path;
      assert t.fate[k - 1 + 1] == FateOf(ps[k - 1].outcome, C.Fine);
      FineSteady(t, t.parent[k]);
    }
  }

  lemma {:induction false} FineSteady(t: C.Tree, j: nat)
    requires t.Valid() && j < |t.parent| && O.FineTo(t, j)
    ensures O.Steady(t, j)
    decreases j
  {
    if j > 0 { FineSteady(t, t.parent[j]); }
  }

  // ----- When the user's process returns -----

  /** Where every process that is reached dials back and starts its program: in every maximal run the user's
      process returns if and only if no term names, below the first level, a slave that does not answer under
      slaves that do. */
  lemma CommandReturnsIff(master: Node, l: string)
    requires Sane(master) && BadOnce(Command(master, l))
    requires forall i | 0 <= i < |Split(l, ',')| :: !BadSegment(Head(Split(l, ',')[i]))
    ensures var t := Requests(master, l, AllWell());
            && t.Valid()
            && ((forall acts | R.Maximal(t, acts) :: R.Returned(t, acts)) <==>
                forall p: Path | |p| > 1 :: CountMatching(master, Split(l, ','), Request(p, NoAnswer)) == 0)
  {
    TreeAnswers(master, l);
    R.ReturnsIffNoneLost(Requests(master, l, AllWell()));
    var ps := Command(master, l);
    forall p: Path | |p| > 1
      ensures CountMatching(master, Split(l, ','), Request(p, NoAnswer)) == 0 <==> Request(p, NoAnswer) !in ps
    {
      CommandRuns(master, l, Request(p, NoAnswer));
    }
    hide CountMatching, Command;
    if forall p: Path | |p| > 1 :: Request(p, NoAnswer) !in ps {
      forall i | 0 <= i < |ps| && |ps[i].path| > 1 ensures ps[i].outcome != NoAnswer {
        assert Request(ps[i].path, ps[i].outcome) == ps[i] && ps[i] in ps;
      }
    }
  }

  /** And when it does, every request that arrived anywhere is done. */
  lemma CommandDone(master: Node, l: string, acts: seq<C.Act>, i: nat)
    requires var t := Requests(master, l, AllWell());
             t.Valid() && R.Maximal(t, acts) && BadOnce(Command(master, l)) && AllAnswer(Command(master, l))
    requires i < |Command(master, l)| && Command(master, l)[i].outcome != NoAnswer
    ensures var t := Requests(master, l, AllWell());
            && |t.parent| == |Command(master, l)| + 1
            && R.Returned(t, acts) && C.After(t, C.Initial(t), acts).status[i + 1] == C.Reaped
  {
    TreeAnswers(master, l);
    RequestsTree(master, l, AllWell());
    var t := Requests(master, l, AllWell());
    hide *;
    NodeOf(t, Command(master, l), AllWell(), i + 1);
    Arrived(Command(master, l)[i].outcome);
    AboveFine(t, i + 1);
    R.MaximalRunsComplete(t, acts);
  }

  lemma Arrived(o: Outcome)
    ensures forall p :: AllWell()(p) == C.Fine
    ensures o != NoAnswer ==> FateOf(o, C.Fine) != C.NoDial
  {}

  // ----- The count that the user's process is told -----

  predicate IsTold(ps: seq<Request>, j: nat) {
    0 < j <= |ps| && |ps[j - 1].path| == 1 && ps[j - 1].outcome != NoAnswer
  }

  /** The requests that get through to the first level, by number. */
  ghost function Told(ps: seq<Request>): set<nat> {
    set j: nat | j <= |ps| && IsTold(ps, j)
  }

  lemma {:induction false} ToldCount(ps: seq<Request>)
    ensures |Told(ps)| == Delegation.FirstLevel(ps)
  {
    if ps == [] {
      assert Told(ps) == {};
    } else {
      var n := |ps| - 1;
      var init, last := ps[..n], ps[n];
      ToldCount(init);
      FirstLevelJoin(init, [last]);
      assert init + [last] == ps && [last][1..] == [];
      forall j: nat | j <= n ensures IsTold(ps, j) == IsTold(init, j) {}
      assert Told(ps) == if IsTold(ps, n + 1) then Told(init) + {n + 1} else Told(init);
    }
  }

  /** Once everything has been sent, the tokens that the user's process has to take, of all that will be issued,
      are as many as the count that it is told. */
  lemma CountIsSent(master: Node, l: string, how: Path -> C.Fate, s: C.State)
    requires forall p :: how(p) != C.NoDial
    requires var t := Requests(master, l, how); C.WellSized(t, s) && C.AllTried(t, s, 0)
    ensures var t := Requests(master, l, how);
            |C.SentKids(t, s)| == Delegation.FirstLevel(Command(master, l))
  {
    RequestsTree(master, l, how);
    var t, ps := Requests(master, l, how), Command(master, l);
    hide Requests, Command;
    ToldCount(ps);
    forall j: nat ensures j in C.SentKids(t, s) <==> j in Told(ps) {
      if 0 < j <= |ps| { NodeOf(t, ps, how, j); }
    }
    assert C.SentKids(t, s) == Told(ps);
  }
}
