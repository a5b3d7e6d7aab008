/** Small type graphs: three on which calls go wrong, and two recursive ones on which they do not. */
module DoExamples {
  import opened TypeGraph
  import opened ReachSearch
  import opened ReachCorrect
  import opened Compiler
  import opened CompilerCorrect
  import opened Traversal
  import opened TraversalCorrect
  import opened CompileOrder
  import opened Knots
  import opened Asking
  import opened Histories
  import opened HiddenFields
  import opened Meeting
  import opened DoExact

  // ----- A trap -----

  /** int; the target; map[int]S; struct S { P *M; Y target }; *M. */
  const TrapGraph: Graph :=
    [Leaf, Leaf, Map(0, 3), Struct([Field(4, true), Field(1, true)]), Ptr(2)]

  /** A pointer to a map with one S in it. */
  const TrapValue: Value :=
    Value(4, Pointee(Value(2, Entries([Entry(Value(0, Atom), Value(3, Parts([Value(4, Null), Value(1, Atom)])))]))))

  lemma TrapThere()
    ensures WF(TrapGraph) && Trap(TrapGraph, 1, 2, 4)
  {
    var g := TrapGraph;
    assert WF(g);
    NoSelfRoute(g, 1, 0);
    assert Edge(g, 3, g[3].fields[1].ty) && Edge(g, 3, g[3].fields[0].ty);
    ReachesHit(g, 1, 1);
    ReachesStep(g, 1, 3, 1);
    ReachesStep(g, 1, 2, 3);
    LeadsSelf(g, 1, 3);
    LeadsStep(g, 1, 3, 3, 4);
  }

  lemma TrapMembers()
    ensures Typed(TrapGraph, TrapValue) && Members(TrapGraph, 1, TrapValue) == [Value(1, Atom)]
  {
    var g := TrapGraph;
    var st := Value(3, Parts([Value(4, Null), Value(1, Atom)]));
    assert Typed(g, Value(4, Null)) && Typed(g, Value(1, Atom)) && Typed(g, Value(0, Atom));
    assert Typed(g, st);
    assert FieldMembers(g, 1, st, 2) == [] && FieldMembers(g, 1, st, 1) == [Value(1, Atom)];
    assert Members(g, 1, st) == [Value(1, Atom)];
    var mv := TrapValue.body.to;
    assert Typed(g, mv) && EntryMembers(g, 1, mv, 1) == [];
    assert Members(g, 1, mv) == [Value(1, Atom)];
  }

  /** Once an int and then a map were walked, walking a pointer to the map misses the target in it. */
  lemma TrapExample()
    ensures WF(TrapGraph) && Trap(TrapGraph, 1, 2, 4) && Legal(TrapGraph, [0, 2])
    ensures !AllRight(TrapGraph, 1, After(TrapGraph, 1, [0, 2]))
    ensures Typed(TrapGraph, TrapValue) && Members(TrapGraph, 1, TrapValue) == [Value(1, Atom)]
    ensures DoSpec(TrapGraph, 1, After(TrapGraph, 1, [0, 2]), TrapValue).1 == Calls([])
  {
    TrapThere();
    TrapMembers();
    TrapSprings(TrapGraph, 1, 2, 4);
    TrapMisses(TrapGraph, 1, 2, 4, TrapValue);
    SpringIs();
    hide *;
  }

  lemma SpringIs()
    ensures Spring(TrapGraph, 2, 4) == [0, 2]
  {
    assert [0] + [] + [2] == [0, 2];
  }

  // ----- A linked list -----

  /** struct List { Next *List; Targ target }; *List; the target. */
  const ListGraph: Graph := [Struct([Field(1, true), Field(2, true)]), Ptr(0), Leaf]

  lemma ListReaches()
    ensures WF(ListGraph) && Reaches(ListGraph, 2, 0) && Reaches(ListGraph, 2, 1) && Reaches(ListGraph, 2, 2)
    ensures TrapFree(ListGraph, 2) && HiddenFree(ListGraph, 2)
  {
    var g := ListGraph;
    assert Edge(g, 0, g[0].fields[1].ty);
    ReachesHit(g, 2, 2);
    ReachesStep(g, 2, 0, 2);
    ReachesStep(g, 2, 1, 0);
  }

  lemma ListKnot()
    ensures WF(ListGraph) && Knot(ListGraph, 2, 1, 0)
  {
    var g := ListGraph;
    ListReaches();
    assert Mentions(g, 0, g[0].fields[0].ty);
    assert Live(g, 2, 0, 1) && Live(g, 2, 1, 0);
    LiveToSelf(g, 2, 0);
    LiveToStep(g, 2, 0, 0, 1);
  }

  /** Walking a List, rather than a *List, first: *List captures the dummy. */
  lemma KnotExample()
    ensures WF(ListGraph) && TrapFree(ListGraph, 2) && Knot(ListGraph, 2, 1, 0)
    ensures Captured(Travs(ListGraph, After(ListGraph, 2, [0]))[1]) && !Pure(ListGraph, After(ListGraph, 2, [0]))
  {
    ListReaches();
    ListKnot();
    KnotIsBad(ListGraph, 2, 1, 0);
    assert 1 in VisitAll(ListGraph, 2, {}, [0]).bad;
    CapturedExactly(ListGraph, 2, [0], 1);
    PureAfterIff(ListGraph, 2, [0]);
  }

  /** Without interfaces a value asks for no further types. */
  lemma {:induction false} NothingAsked(g: Graph, t: Ty, v: Value)
    requires Typed(g, v) && forall x | 0 <= x < |g| :: !g[x].Iface?
    ensures Dynamics(g, t, v) == []
    decreases v
  {
    if v.ty != t && Reaches(g, t, v.ty) {
      match g[v.ty]
      case Ptr(_) => if v.body.Pointee? { NothingAsked(g, t, v.body.to); }
      case Struct(fs) =>
        for i := |fs| downto 0
          invariant FieldDynamics(g, t, v, i) == []
        {
          assert Typed(g, v.body.vs[i]);
          NothingAsked(g, t, v.body.vs[i]);
        }
      case Map(_, _) =>
        for i := |v.body.kvs| downto 0
          invariant EntryDynamics(g, t, v, i) == []
        {
          NothingAsked(g, t, v.body.kvs[i].key);
          NothingAsked(g, t, v.body.kvs[i].val);
        }
      case List(_) =>
        for i := |v.body.vs| downto 0
          invariant ItemDynamics(g, t, v, i) == []
        {
          NothingAsked(g, t, v.body.vs[i]);
        }
      case Leaf =>
    }
  }

  /** Entered at *List on a fresh cache, every list is walked in full. */
  lemma ListByPointer(v: Value)
    requires Typed(ListGraph, v) && v.ty == 1
    ensures WF(ListGraph) && DoSpec(ListGraph, 2, Fresh, v).1 == Calls(Members(ListGraph, 2, v))
  {
    var g := ListGraph;
    ListReaches();
    NothingAsked(g, 2, v);
    assert Wants(g, 2, v) == [1];
    FreshSound(g, 2);
    FreshPure(g);
    ListOrder();
    CallIsRightIff(g, 2, Fresh, v);
  }

  lemma ListOrder()
    ensures WF(ListGraph) && VisitAll(ListGraph, 2, {}, [1]).bad == {}
  {
    var g := ListGraph;
    ListReaches();
    assert Asks(g, 0) == [1, 2] && Asks(g, 1) == [0];
    assert Visit(g, 2, {}, {1, 0}, 1) == Visited({}, {});
    assert Visit(g, 2, {}, {1, 0}, 2) == Visited({2}, {});
    assert VisitAsked(g, 2, {}, {1, 0}, 0, 1).bad == {};
    assert VisitAsked(g, 2, {}, {1, 0}, 0, 0).bad == {};
    assert {} + {1} == {1} && {1} + {0} == {1, 0};
    assert Visit(g, 2, {}, {1}, 0).bad == {};
    assert VisitAsked(g, 2, {}, {1}, 1, 0).bad == {};
  }

  /** Entered by value on a fresh cache, a list is walked in full exactly if it has no second element. */
  lemma ListByValue(v: Value)
    requires Typed(ListGraph, v) && v.ty == 0
    ensures WF(ListGraph) && v.body.Parts? && |v.body.vs| == 2
    ensures DoSpec(ListGraph, 2, Fresh, v).1 == Calls(Members(ListGraph, 2, v)) <==> v.body.vs[0].body.Null?
  {
    ListReaches();
    ListMeets(v);
    NothingAsked(ListGraph, 2, v);
    assert [] + Wants(ListGraph, 2, v) == [0];
    ValueOrder();
    AfterNothing(ListGraph, 2);
    hide Meets, VisitAll, DoSpec, Members, Typed;
    CallExact(ListGraph, 2, [], v);
  }

  lemma ListMeets(v: Value)
    requires Typed(ListGraph, v) && v.ty == 0
    ensures v.body.Parts? && |v.body.vs| == 2
    ensures Meets(ListGraph, 2, v, {1}) <==> !v.body.vs[0].body.Null?
  {
    var g := ListGraph;
    ListReaches();
    hide Reaches;
    var next, targ := v.body.vs[0], v.body.vs[1];
    assert Typed(g, next) && next.ty == g[0].fields[0].ty && Typed(g, targ) && targ.ty == g[0].fields[1].ty;
    assert !Meets(g, 2, targ, {1}) && !FieldsMeet(g, 2, v, {1}, 2) && !FieldsMeet(g, 2, v, {1}, 1);
    assert Meets(g, 2, next, {1}) <==> !next.body.Null?;
  }

  lemma ValueOrder()
    ensures WF(ListGraph) && VisitAll(ListGraph, 2, {}, [0]).bad == {1}
  {
    var g := ListGraph;
    ListReaches();
    assert Asks(g, 0) == [1, 2] && Asks(g, 1) == [0];
    assert {} + {0} == {0} && {0} + {1} == {0, 1} && [0][1..] == [];
    assert Visit(g, 2, {}, {0, 1}, 0) == Visited({}, {});
    assert VisitAsked(g, 2, {}, {0, 1}, 1, 0) == Visited({}, {1});
    assert Visit(g, 2, {}, {0}, 1) == Visited({1}, {1});
    assert Visit(g, 2, {1}, {0}, 2) == Visited({1, 2}, {});
    assert VisitAsked(g, 2, {1}, {0}, 0, 1) == Visited({1, 2}, {});
    assert VisitAsked(g, 2, {}, {0}, 0, 0) == Visited({1, 2}, {1});
  }

  /** Any struct whose first field points to its own type: walked by value on a fresh cache, it runs
      into the dummy as soon as the pointer is not nil. */
  ghost predicate SelfLinked(g: Graph, t: Ty, c: Ty, p: Ty) {
    && c < |g| && p < |g| && c != t && p != t && Reaches(g, t, c)
    && g[c].Struct? && |g[c].fields| > 0 && g[c].fields[0].ty == p && g[p] == Ptr(c)
  }

  lemma SelfLinkedPanics(g: Graph, t: Ty, c: Ty, p: Ty, v: Value)
    requires WF(g) && TrapFree(g, t) && SelfLinked(g, t, c, p)
    requires Typed(g, v) && v.ty == c && v.body.vs[0].body.Pointee?
    ensures DoSpec(g, t, Fresh, v).1 == Panic
  {
    SelfLinkedCaptures(g, t, c, p);
    assert |v.body.vs| > 0 && g[c].Struct?;
    hide *;
    var (s, tr) := GetTrav(g, t, Fresh, c);
    LinkRun(g, t, s, tr.refs, v);
    StructRun(g, t, s, tr.refs, v);
    DoIsRun(g, t, v);
  }

  lemma DoIsRun(g: Graph, t: Ty, v: Value)
    requires WF(g) && Typed(g, v)
    ensures Quiet(g, Fresh)
    ensures var (s, tr) := GetTrav(g, t, Fresh, v.ty);
            tr != NoTrav ==> DoSpec(g, t, Fresh, v) == Run(g, t, s, tr, v, false)
  {
    hide GetTrav, Run;
  }

  lemma StructRun(g: Graph, t: Ty, s: State, refs: seq<Ref>, v: Value)
    requires WF(g) && Quiet(g, s) && Typed(g, v) && g[v.ty].Struct?
    ensures Run(g, t, s, StructT(refs), v, false) == RunFields(g, t, s, refs, v, false, 0)
  {
    hide RunFields, Quiet, Grows;
  }

  lemma LinkRun(g: Graph, t: Ty, s: State, refs: seq<Ref>, v: Value)
    requires WF(g) && Quiet(g, s) && Typed(g, v) && g[v.ty].Struct? && |v.body.vs| > 0
    requires refs != [] && refs[0].field == 0 && refs[0].info < |s.infos|
    requires s.infos[refs[0].info].trav == PtrT(Dummy) && v.body.vs[0].body.Pointee?
    ensures RunFields(g, t, s, refs, v, false, 0).1 == Panic
  {
    hide GetTrav, Grows;
    assert Typed(g, v.body.vs[0]) && Typed(g, v.body.vs[0].body.to);
    var ro := !g[v.ty].fields[0].exported;
    assert Run(g, t, s, Dummy, v.body.vs[0].body.to, ro).1 == Panic;
    assert Run(g, t, s, PtrT(Dummy), v.body.vs[0], ro).1 == Panic;
  }

  lemma SelfLinkedCaptures(g: Graph, t: Ty, c: Ty, p: Ty)
    requires WF(g) && TrapFree(g, t) && SelfLinked(g, t, c, p)
    ensures c < |g| && Quiet(g, Fresh)
    ensures var (s, tr) := GetTrav(g, t, Fresh, c);
            && tr.StructT? && tr.refs != [] && tr.refs[0].field == 0 && tr.refs[0].info < |s.infos|
            && s.infos[tr.refs[0].info].trav == PtrT(Dummy)
  {
    hide GetTrav, Compile, CanReach, Grows, AllRight, VisitAll, Visit;
    ReachesStep(g, t, p, c);
    assert Mentions(g, c, g[c].fields[0].ty);
    assert Live(g, t, c, p) && Live(g, t, p, c);
    LiveToSelf(g, t, c);
    LiveToStep(g, t, c, c, p);
    KnotIsBad(g, t, p, c);
    OneVisit(g, t, c);
    CapturedExactly(g, t, [c], p);
    AfterOneMore(g, t, [], c);
    assert [] + [c] == [c];
    FreshSound(g, t);
    FreshPure(g);
    GetTravSound(g, t, Fresh, c);
    GetTravVisits(g, t, Fresh, c);
    var (s, tr) := GetTrav(g, t, Fresh, c);
    assert c !in Open(Travs(g, s));
    assert Lists(g, t, s, c, 0, tr.refs);
    assert Built(g, t, s, Look(s, p).trav, p);
  }

  lemma OneVisit(g: Graph, t: Ty, c: Ty)
    requires WF(g) && c < |g|
    ensures VisitAll(g, t, {}, [c]).bad == Visit(g, t, {}, {}, c).bad
  {
    assert [c][1..] == [];
  }

  // ----- A hidden field -----

  /** struct { X target; y target }; the target. */
  const HiddenGraph: Graph := [Struct([Field(1, true), Field(1, false)]), Leaf]

  const HiddenValue: Value := Value(0, Parts([Value(1, Atom), Value(1, Atom)]))

  lemma HiddenExample()
    ensures WF(HiddenGraph) && Typed(HiddenGraph, HiddenValue)
    ensures Members(HiddenGraph, 1, HiddenValue) == [Value(1, Atom)]
    ensures DoSpec(HiddenGraph, 1, Fresh, HiddenValue).1 == Panic
  {
    HiddenWalk();
    FreshSound(HiddenGraph, 1);
    WalkPanics(HiddenGraph, 1, Fresh, HiddenValue);
  }

  lemma HiddenWalk()
    ensures WF(HiddenGraph) && TrapFree(HiddenGraph, 1) && Typed(HiddenGraph, HiddenValue)
    ensures Members(HiddenGraph, 1, HiddenValue) == [Value(1, Atom)]
    ensures Walk(HiddenGraph, 1, HiddenValue, false) == Panic
  {
    HiddenReaches();
    HiddenMembers();
    var g, v := HiddenGraph, HiddenValue;
    hide Reaches, Members;
    assert Walk(g, 1, v.body.vs[1], true) == Panic;
    FieldsPanic(g, 1, v, false, 0, 1);
  }

  lemma HiddenReaches()
    ensures WF(HiddenGraph) && TrapFree(HiddenGraph, 1) && Reaches(HiddenGraph, 1, 0)
  {
    var g := HiddenGraph;
    assert Edge(g, 0, g[0].fields[0].ty);
    ReachesHit(g, 1, 1);
    ReachesStep(g, 1, 0, 1);
  }

  lemma HiddenMembers()
    ensures Typed(HiddenGraph, HiddenValue) && Members(HiddenGraph, 1, HiddenValue) == [Value(1, Atom)]
  {
    var g, v := HiddenGraph, HiddenValue;
    assert Typed(g, v.body.vs[0]) && Typed(g, v.body.vs[1]);
    assert FieldMembers(g, 1, v, 2) == [] && FieldMembers(g, 1, v, 1) == [];
  }

  // ----- A large type -----

  /** struct Targ {}; the target *Targ; struct List { Next *List; Targ *Targ }; *List; struct Other; struct
      Big, with fields of the types that follow; [2]*Targ; []*Targ; map[int]*Targ; map[*Targ]int;
      map[*Targ]*Targ; ***Targ; **Targ; interface{}; *Big; int; chan *Targ; func(*Targ) *Targ. */
  const BigGraph: Graph :=
    [ Struct([]),
      Ptr(0),
      Struct([Field(3, true), Field(1, true)]),
      Ptr(2),
      Struct([Field(1, true)]),
      Struct([Field(1, true), Field(6, true), Field(7, true), Field(8, true), Field(9, true), Field(10, true),
              Field(11, true), Field(13, true), Field(3, true), Field(2, true), Field(16, true), Field(17, true)]),
      List(1),
      List(1),
      Map(15, 1),
      Map(1, 15),
      Map(1, 1),
      Ptr(12),
      Ptr(1),
      Iface,
      Ptr(5),
      Leaf,
      Leaf,
      Leaf
    ]

  /** The types that hold a target. */
  const BigReaching: set<Ty> := {1, 2, 3, 4, 5, 6, 7, 8, 9, 10, 11, 12, 13, 14}

  lemma BigWF()
    ensures WF(BigGraph)
  {}

  lemma BigReaches(x: Ty)
    requires x < |BigGraph|
    ensures Reaches(BigGraph, 1, x) <==> x in BigReaching
  {
    var g := BigGraph;
    BigWF();
    ReachesHit(g, 1, 1);
    ReachesHit(g, 1, 13);
    if x == 0 || x == 15 || x == 16 || x == 17 {
      NoSelfRoute(g, 1, x);
    } else if x == 11 {
      ReachesStep(g, 1, 12, 1);
      ReachesStep(g, 1, 11, 12);
    } else if x == 3 || x == 5 || x == 14 || x == 2 {
      assert Edge(g, 2, g[2].fields[1].ty) && Edge(g, 5, g[5].fields[0].ty);
      ReachesStep(g, 1, 2, 1);
      ReachesStep(g, 1, 3, 2);
      ReachesStep(g, 1, 5, 1);
      ReachesStep(g, 1, 14, 5);
    } else if x == 4 {
      assert Edge(g, 4, g[4].fields[0].ty);
      ReachesStep(g, 1, 4, 1);
    } else if x != 1 && x != 13 {
      ReachesStep(g, 1, x, 1);
    }
  }

  lemma BigGood()
    ensures WF(BigGraph) && TrapFree(BigGraph, 1) && HiddenFree(BigGraph, 1)
  {
    var g := BigGraph;
    BigWF();
    forall m: Ty, x: Ty ensures !Trap(g, 1, m, x) {
      if m < |g| && g[m].Map? { BigReaches(g[m].key); }
    }
  }

  /** A type all of whose members are done already, or cannot reach. */
  lemma {:induction false} AskedSettled(g: Graph, t: Ty, done: set<Ty>, open: set<Ty>, x: Ty, i: nat)
    requires WF(g) && x < |g| && i <= |Asks(g, x)|
    requires forall y | y in Asks(g, x) :: y !in open && (y in done || (y < |g| && !Reaches(g, t, y)))
    ensures VisitAsked(g, t, done, open, x, i) == Visited(done, {})
    decreases |Asks(g, x)| - i
  {
    if i < |Asks(g, x)| { AskedSettled(g, t, done, open, x, i + 1); }
  }

  lemma VisitSettled(g: Graph, t: Ty, done: set<Ty>, open: set<Ty>, x: Ty)
    requires WF(g) && x < |g| && x !in done && x !in open && Reaches(g, t, x)
    requires forall y | y in Asks(g, x) :: y != x && y !in open && (y in done || (y < |g| && !Reaches(g, t, y)))
    ensures Visit(g, t, done, open, x) == Visited(done + {x}, {})
  {
    if x != t { AskedSettled(g, t, done, open + {x}, x, 0); }
  }

  lemma AskNext(g: Graph, t: Ty, done: set<Ty>, open: set<Ty>, x: Ty, i: nat)
    requires WF(g) && x < |g| && i < |Asks(g, x)| && Asks(g, x)[i] < |g|
    requires Visit(g, t, done, open, Asks(g, x)[i]).bad == {}
    requires Asks(g, x)[i] !in open || g[x].Struct?
    ensures VisitAsked(g, t, done, open, x, i) ==
            VisitAsked(g, t, Visit(g, t, done, open, Asks(g, x)[i]).done, open, x, i + 1)
  {
    hide Visit;
  }

  lemma AskEnd(g: Graph, t: Ty, done: set<Ty>, open: set<Ty>, x: Ty)
    requires WF(g) && x < |g|
    ensures VisitAsked(g, t, done, open, x, |Asks(g, x)|) == Visited(done, {})
  {}

  /** What the walk needs to know of the graph. */
  ghost predicate BigShape(g: Graph) {
    && WF(g) && |g| == 18 && g[2].Struct? && g[5].Struct?
    && (forall x: Ty | x < 18 :: Reaches(g, 1, x) <==> x in BigReaching)
    && Asks(g, 5) == [1, 6, 7, 8, 9, 10, 11, 13, 3, 2, 16, 17]
    && Asks(g, 2) == [3, 1] && Asks(g, 4) == [1] && Asks(g, 14) == [5]
    && Asks(g, 11) == [12] && Asks(g, 12) == [1] && Asks(g, 3) == [2]
    && Asks(g, 6) == [1] && Asks(g, 7) == [1] && Asks(g, 8) == [15, 1]
    && Asks(g, 9) == [1, 15] && Asks(g, 10) == [1, 1] && Asks(g, 13) == []
  }

  lemma BigIsBig()
    ensures BigShape(BigGraph)
  {
    var g := BigGraph;
    BigWF();
    forall x: Ty | x < 18 ensures Reaches(g, 1, x) <==> x in BigReaching { BigReaches(x); }
    hide Reaches, WF, BigReaching;
  }

  /** A field of Big whose type is not recursive. */
  lemma BigField(g: Graph, done: set<Ty>, i: nat)
    requires BigShape(g) && i < 8 && i != 6 && 1 in done && i > 0
    ensures Asks(g, 5)[i] < |g|
    ensures var y := Asks(g, 5)[i];
            y !in done ==> VisitAsked(g, 1, done, {14, 5}, 5, i) ==
                           VisitAsked(g, 1, done + {y}, {14, 5}, 5, i + 1)
  {
    var y := Asks(g, 5)[i];
    hide Asks, Reaches, WF;
    if y !in done {
      VisitSettled(g, 1, done, {14, 5}, y);
      AskNext(g, 1, done, {14, 5}, 5, i);
    }
  }

  /** ***Targ, by way of **Targ. */
  lemma BigPointers(g: Graph, done: set<Ty>)
    requires BigShape(g) && 1 in done && 11 !in done && 12 !in done
    ensures VisitAsked(g, 1, done, {14, 5}, 5, 6) == VisitAsked(g, 1, done + {12} + {11}, {14, 5}, 5, 7)
  {
    hide Asks, Reaches, WF;
    VisitSettled(g, 1, done, {14, 5} + {11}, 12);
    AskNext(g, 1, done, {14, 5} + {11}, 11, 0);
    AskEnd(g, 1, done + {12}, {14, 5} + {11}, 11);
    assert Visit(g, 1, done, {14, 5}, 11) == Visited(done + {12} + {11}, {});
    AskNext(g, 1, done, {14, 5}, 5, 6);
  }

  /** *List, entered at the pointer: List asks for it while it is open, and may. */
  lemma BigList(g: Graph, done: set<Ty>)
    requires BigShape(g) && 1 in done && 3 !in done && 2 !in done
    ensures VisitAsked(g, 1, done, {14, 5}, 5, 8) == VisitAsked(g, 1, done + {2} + {3}, {14, 5}, 5, 9)
  {
    assert g[2].Struct? && g[5].Struct?;
    hide Asks, Reaches, WF;
    var o := {14, 5} + {3};
    assert Visit(g, 1, done, o + {2}, 3) == Visited(done, {});
    AskNext(g, 1, done, o + {2}, 2, 0);
    assert Visit(g, 1, done, o + {2}, 1) == Visited(done, {});
    AskNext(g, 1, done, o + {2}, 2, 1);
    AskEnd(g, 1, done, o + {2}, 2);
    assert Visit(g, 1, done, o, 2) == Visited(done + {2}, {});
    AskNext(g, 1, done, o, 3, 0);
    AskEnd(g, 1, done + {2}, o, 3);
    assert Visit(g, 1, done, {14, 5}, 3) == Visited(done + {2} + {3}, {});
    AskNext(g, 1, done, {14, 5}, 5, 8);
  }

  /** List itself, which is done by then, and the fields that cannot reach. */
  lemma BigRest(g: Graph, done: set<Ty>)
    requires BigShape(g) && 2 in done
    ensures VisitAsked(g, 1, done, {14, 5}, 5, 9) == Visited(done, {})
  {
    hide Asks, Reaches, WF;
    assert Visit(g, 1, done, {14, 5}, 2) == Visited(done, {});
    assert Visit(g, 1, done, {14, 5}, 16) == Visited(done, {});
    assert Visit(g, 1, done, {14, 5}, 17) == Visited(done, {});
    AskNext(g, 1, done, {14, 5}, 5, 9);
    AskNext(g, 1, done, {14, 5}, 5, 10);
    AskNext(g, 1, done, {14, 5}, 5, 11);
  }

  lemma BigFirst(g: Graph)
    requires BigShape(g)
    ensures Asks(g, 5) == [1, 6, 7, 8, 9, 10, 11, 13, 3, 2, 16, 17]
    ensures VisitAsked(g, 1, {}, {14, 5}, 5, 0) == VisitAsked(g, 1, {1}, {14, 5}, 5, 1)
  {
    hide Asks, Reaches, WF;
    assert Visit(g, 1, {}, {14, 5}, 1) == Visited({1}, {});
    AskNext(g, 1, {}, {14, 5}, 5, 0);
  }

  lemma BigFields(g: Graph)
    requires BigShape(g)
    ensures VisitAsked(g, 1, {}, {14, 5}, 5, 0) == Visited({1, 6, 7, 8, 9, 10, 12, 11, 13, 2, 3}, {})
  {
    hide *;
    BigFirst(g);
    BigField(g, {1}, 1);
    BigField(g, {1} + {6}, 2);
    BigField(g, {1} + {6} + {7}, 3);
    BigField(g, {1} + {6} + {7} + {8}, 4);
    BigField(g, {1} + {6} + {7} + {8} + {9}, 5);
    var d := {1} + {6} + {7} + {8} + {9} + {10};
    BigPointers(g, d);
    BigField(g, d + {12} + {11}, 7);
    BigList(g, d + {12} + {11} + {13});
    BigRest(g, d + {12} + {11} + {13} + {2} + {3});
    assert d + {12} + {11} + {13} + {2} + {3} == {1, 6, 7, 8, 9, 10, 12, 11, 13, 2, 3};
  }

  lemma BigOrder(g: Graph)
    requires BigShape(g)
    ensures Visit(g, 1, {}, {}, 14) == Visited(BigReaching - {4}, {})
  {
    BigFields(g);
    hide Asks, Reaches, WF;
    assert {} + {14} == {14} && {14} + {5} == {14, 5};
    var d := {1, 6, 7, 8, 9, 10, 12, 11, 13, 2, 3};
    assert Visit(g, 1, {}, {14}, 5) == Visited(d + {5}, {});
    AskNext(g, 1, {}, {14}, 14, 0);
    AskEnd(g, 1, d + {5}, {14}, 14);
    assert d + {5} + {14} == BigReaching - {4};
  }

  lemma {:induction false} BigLater(g: Graph, done: set<Ty>, h: seq<Ty>)
    requires BigShape(g) && Legal(g, h) && BigReaching - {4} <= done
    ensures VisitAll(g, 1, done, h).bad == {}
    decreases |h|
  {
    if h != [] {
      var y := h[0];
      if y == 4 && y !in done {
        VisitSettled(g, 1, done, {}, 4);
      }
      assert Visit(g, 1, done, {}, y).bad == {};
      BigLater(g, Visit(g, 1, done, {}, y).done, h[1..]);
    }
  }

  /** On a fresh cache, whatever a *Big holds, and whatever its interface field holds: the call returns and
      finds every target. */
  lemma BigByPointer(v: Value)
    requires Typed(BigGraph, v) && v.ty == 14
    ensures WF(BigGraph) && DoSpec(BigGraph, 1, Fresh, v).1 == Calls(Members(BigGraph, 1, v))
  {
    var g := BigGraph;
    BigGood();
    BigIsBig();
    BigOrder(g);
    var h := Dynamics(g, 1, v);
    BigLater(g, BigReaching - {4}, h);
    assert Wants(g, 1, v) == [14] + h;
    FreshSound(g, 1);
    FreshPure(g);
    VisitFirst(g, 1, 14, h);
    CallIsRightIff(g, 1, Fresh, v);
  }

  lemma VisitFirst(g: Graph, t: Ty, x: Ty, h: seq<Ty>)
    requires WF(g) && x < |g| && Legal(g, h)
    ensures Legal(g, [x] + h)
    ensures var r := Visit(g, t, {}, {}, x);
            VisitAll(g, t, {}, [x] + h).bad == r.bad + VisitAll(g, t, r.done, h).bad
  {
    assert ([x] + h)[1..] == h;
  }
}
