/** The type of the requests that travel between nodes: the walk inside the encoder and the decoder finds
    exactly the files of a request. */
module RequestType {
  import opened TypeGraph
  import opened ReachSearch
  import opened ReachCorrect
  import opened Traversal
  import opened TraversalCorrect
  import opened CompileOrder
  import opened Asking
  import opened Histories
  import opened HiddenFields
  import opened DoExact

  /** string; bool; int64; int; uint32; []string; struct cmdToExec; its pointer; a slice of those; os.File, whose
      inside is not part of this model; *os.File; struct File; *File, the target; []*File; struct StartReq, with
      its fields in order; *StartReq, which is encoded; **StartReq, which is decoded into. */
  const G: Graph :=
    [ Leaf, Leaf, Leaf, Leaf, Leaf,
      List(0),
      Struct([Field(0, true), Field(0, true), Field(0, true), Field(3, true), Field(3, true), Field(3, true),
              Field(3, true), Field(4, true)]),
      Ptr(6),
      List(7),
      Struct([]),
      Ptr(9),
      Struct([Field(0, true), Field(0, true), Field(0, true), Field(10, false), Field(3, true), Field(3, true),
              Field(3, true), Field(4, true)]),
      Ptr(11),
      List(12),
      Struct([Field(0, true), Field(0, true), Field(5, true), Field(1, true), Field(1, true), Field(5, true),
              Field(5, true), Field(5, true), Field(0, true), Field(0, true), Field(0, true), Field(2, true),
              Field(3, true), Field(3, true), Field(8, true), Field(3, true), Field(0, true), Field(13, true)]),
      Ptr(14),
      Ptr(15)
    ]

  const FILE: Ty := 12
  const REQUEST: Ty := 14

  /** Every type mentions smaller ones only, and there are no maps and interfaces. */
  ghost predicate Downward(g: Graph) {
    && WF(g) && (forall x, y | 0 <= x < |g| && 0 <= y && Mentions(g, x, y) :: y < x)
    && (forall x | 0 <= x < |g| :: !g[x].Map? && !g[x].Iface?)
  }

  /** A request: of all its fields only the last can hold files. */
  ghost predicate HoldsFiles(g: Graph) {
    && Downward(g) && |g| == 17
    && g[REQUEST].Struct? && |g[REQUEST].fields| == 18
    && (forall i | 0 <= i < 18 :: g[REQUEST].fields[i].exported)
    && (forall i | 0 <= i < 17 :: g[REQUEST].fields[i].ty < FILE)
    && g[REQUEST].fields[17].ty == 13 && g[13] == List(FILE) && g[FILE].Ptr?
    && g[15] == Ptr(REQUEST) && g[16] == Ptr(15)
  }

  lemma Shape()
    ensures HoldsFiles(G)
  {
    forall x, y | 0 <= x < |G| && 0 <= y && Mentions(G, x, y) ensures y < x {
      if G[x].Struct? {
        var i :| 0 <= i < |G[x].fields| && G[x].fields[i].ty == y;
        SmallFields(x, i);
      }
    }
  }

  lemma SmallFields(x: Ty, i: nat)
    requires x < |G| && G[x].Struct? && i < |G[x].fields|
    ensures G[x].fields[i].ty < x
  {
    if x == 6 || x == 11 { assert G[x].fields[i].ty <= 10; } else { assert x == 9 || G[x].fields[i].ty <= 13; }
  }

  lemma {:induction false} LiveDown(g: Graph, t: Ty, p: seq<Ty>)
    requires Downward(g) && |p| > 0 && LivePath(g, t, p)
    ensures p[|p| - 1] <= p[0]
  {
    if |p| > 1 {
      assert Live(g, t, p[1 - 1], p[1]);
      assert LivePath(g, t, p[1..]) by {
        forall i | 0 < i < |p[1..]| ensures Live(g, t, p[1..][i - 1], p[1..][i]) {
          assert Live(g, t, p[i + 1 - 1], p[i + 1]);
        }
      }
      LiveDown(g, t, p[1..]);
    }
  }

  lemma NoCycles(g: Graph, t: Ty)
    requires Downward(g)
    ensures KnotFree(g, t) && TrapFree(g, t)
  {
    forall p, c ensures !Knot(g, t, p, c) {
      if Knot(g, t, p, c) {
        var q :| |q| > 0 && q[0] == c && q[|q| - 1] == p && LivePath(g, t, q);
        LiveDown(g, t, q);
      }
    }
  }

  /** A type below the target, and one that mentions only such types, does not reach. */
  lemma {:induction false} LowReaches(g: Graph, x: Ty)
    requires Downward(g) && x < |g| && x < FILE
    ensures !Reaches(g, FILE, x)
    decreases x
  {
    if Reaches(g, FILE, x) {
      var y := ReachesUnfold(g, FILE, x);
      EdgeInGraph(g, x, y);
      LowReaches(g, y);
    }
  }

  lemma NothingHidden(g: Graph)
    requires HoldsFiles(g)
    ensures HiddenFree(g, FILE)
  {
    forall x: Ty, i | x < |g| && x != FILE && g[x].Struct? && Reaches(g, FILE, x) &&
                      0 <= i < |g[x].fields| && !g[x].fields[i].exported
      ensures false
    {
      if x < FILE { LowReaches(g, x); }
    }
  }

  /** The files of a request. */
  function FilesIn(g: Graph, v: Value): seq<Value>
    requires HoldsFiles(g) && Typed(g, v) && v.ty == REQUEST
  {
    assert v.body.vs[17].ty == g[REQUEST].fields[17].ty && Typed(g, v.body.vs[17]);
    v.body.vs[17].body.vs
  }

  lemma RequestMembers(g: Graph, v: Value)
    requires HoldsFiles(g) && Typed(g, v) && v.ty == REQUEST
    ensures Members(g, FILE, v) == FilesIn(g, v)
  {
    assert v.body.vs[17].ty == g[REQUEST].fields[17].ty && Typed(g, v.body.vs[17]);
    ListMembers(g, v.body.vs[17]);
    assert FieldMembers(g, FILE, v, 18) == [];
    assert FieldMembers(g, FILE, v, 17) == FilesIn(g, v);
    for i := 17 downto 0
      invariant FieldMembers(g, FILE, v, i) == FilesIn(g, v)
    {
      assert v.body.vs[i].ty == g[REQUEST].fields[i].ty && Typed(g, v.body.vs[i]);
      LowReaches(g, v.body.vs[i].ty);
      NoMembers(g, FILE, v.body.vs[i]);
    }
  }

  lemma ListMembers(g: Graph, v: Value)
    requires HoldsFiles(g) && Typed(g, v) && v.ty == 13
    ensures Members(g, FILE, v) == v.body.vs
  {
    for i := |v.body.vs| downto 0
      invariant ItemMembers(g, FILE, v, i) == v.body.vs[i..]
    {
      assert Members(g, FILE, v.body.vs[i]) == [v.body.vs[i]];
      assert v.body.vs[i..] == [v.body.vs[i]] + v.body.vs[i + 1..];
    }
  }

  // ----- What Encode and Decode find -----

  /** Whatever was walked before: walking a request by pointer, as Encode does, calls f on exactly its files, in
      order. */
  lemma EncodeFinds(h: seq<Ty>, v: Value)
    requires WF(G) && Legal(G, h) && Typed(G, v) && v.ty == 15
    ensures HoldsFiles(G)
    ensures v.body.Null? || (v.body.Pointee? && Typed(G, v.body.to) && v.body.to.ty == REQUEST)
    ensures DoSpec(G, FILE, After(G, FILE, h), v).1 == Calls(if v.body.Null? then [] else FilesIn(G, v.body.to))
  {
    Shape();
    NoCycles(G, FILE);
    NothingHidden(G);
    DoNeverPanics(G, FILE, h, v);
    PointerMembers(G, v);
    hide *;
  }

  lemma PointerMembers(g: Graph, v: Value)
    requires HoldsFiles(g) && Typed(g, v) && v.ty == 15
    ensures v.body.Null? || (v.body.Pointee? && Typed(g, v.body.to) && v.body.to.ty == REQUEST)
    ensures Members(g, FILE, v) == if v.body.Null? then [] else FilesIn(g, v.body.to)
  {
    if !v.body.Null? { RequestMembers(g, v.body.to); }
  }

  /** So does walking one by pointer to pointer, as Decode does. */
  lemma DecodeFinds(h: seq<Ty>, v: Value)
    requires WF(G) && Legal(G, h) && Typed(G, v) && v.ty == 16 && v.body.Pointee? && v.body.to.body.Pointee?
    ensures HoldsFiles(G) && Typed(G, v.body.to.body.to) && v.body.to.body.to.ty == REQUEST
    ensures DoSpec(G, FILE, After(G, FILE, h), v).1 == Calls(FilesIn(G, v.body.to.body.to))
  {
    Shape();
    NoCycles(G, FILE);
    NothingHidden(G);
    DoNeverPanics(G, FILE, h, v);
    DoubleMembers(G, v);
    hide *;
  }

  lemma DoubleMembers(g: Graph, v: Value)
    requires HoldsFiles(g) && Typed(g, v) && v.ty == 16 && v.body.Pointee? && v.body.to.body.Pointee?
    ensures Typed(g, v.body.to.body.to) && v.body.to.body.to.ty == REQUEST
    ensures Members(g, FILE, v) == FilesIn(g, v.body.to.body.to)
  {
    PointerMembers(g, v.body.to);
  }
}
