/** Unexported fields.  `canReach` ignores them but the struct traverser does not, so a target behind
    one makes reflect panic.  The type graphs in which that cannot happen, exactly. */
module HiddenFields {
  import opened TypeGraph
  import opened Traversal
  import opened TraversalCorrect

  /** No struct type that reaches has an unexported field whose type reaches. */
  ghost predicate HiddenFree(g: Graph, t: Ty) {
    forall x: Ty, i | x < |g| && x != t && g[x].Struct? && Reaches(g, t, x) &&
                      0 <= i < |g[x].fields| && !g[x].fields[i].exported :: !Reaches(g, t, g[x].fields[i].ty)
  }

  lemma {:induction false} WalkCompletes(g: Graph, t: Ty, v: Value)
    requires WF(g) && HiddenFree(g, t) && Typed(g, v)
    ensures Walk(g, t, v, false).Calls?
    decreases v
  {
    if v.ty == t || !Reaches(g, t, v.ty) {
    } else {
      match g[v.ty]
      case Ptr(_) => if v.body.Pointee? { WalkCompletes(g, t, v.body.to); }
      case Struct(fs) =>
        for i := |fs| downto 0
          invariant WalkFields(g, t, v, false, i).Calls?
        {
          assert Typed(g, v.body.vs[i]) && v.body.vs[i].ty == fs[i].ty;
          if fs[i].exported { WalkCompletes(g, t, v.body.vs[i]); }
          else { NothingHidden(g, t, v.body.vs[i]); }
        }
      case Map(_, _) =>
        for i := |v.body.kvs| downto 0
          invariant WalkEntries(g, t, v, false, i).Calls?
        {
          WalkCompletes(g, t, v.body.kvs[i].key);
          WalkCompletes(g, t, v.body.kvs[i].val);
        }
      case List(_) =>
        for i := |v.body.vs| downto 0
          invariant WalkItems(g, t, v, false, i).Calls?
        {
          WalkCompletes(g, t, v.body.vs[i]);
        }
      case Iface => if v.body.Dynamic? { WalkCompletes(g, t, v.body.held); }
      case Leaf =>
    }
  }

  lemma NothingHidden(g: Graph, t: Ty, v: Value)
    requires Typed(g, v) && !Reaches(g, t, v.ty)
    ensures Walk(g, t, v, true) == Calls([])
  {
    if v.ty == t { ReachesHit(g, t, t); }
  }

  // ----- The converse: a value that panics -----

  /** Struct containment is well-founded, as the language demands. */
  ghost predicate Founded(g: Graph, rank: seq<nat>) {
    |rank| == |g| &&
    forall x, i | 0 <= x < |g| && g[x].Struct? && 0 <= i < |g[x].fields| && g[x].fields[i].ty < |g| ::
      rank[g[x].fields[i].ty] < rank[x]
  }

  /** The zero value of a type. */
  ghost function Zero(g: Graph, rank: seq<nat>, x: Ty): (v: Value)
    requires WF(g) && Founded(g, rank) && x < |g|
    ensures Typed(g, v) && v.ty == x
    decreases rank[x]
  {
    match g[x]
    case Ptr(_) => Value(x, Null)
    case Struct(fs) =>
      assert forall i | 0 <= i < |fs| :: Mentions(g, x, fs[i].ty);
      Value(x, Parts(seq(|fs|, i requires 0 <= i < |fs| => Zero(g, rank, fs[i].ty))))
    case Map(_, _) => Value(x, Entries([]))
    case List(_) => Value(x, Parts([]))
    case Iface => Value(x, Null)
    case Leaf => Value(x, Atom)
  }

  /** The zero struct with its field `i` set to `v`. */
  ghost function WithField(g: Graph, rank: seq<nat>, x: Ty, i: nat, v: Value): (w: Value)
    requires WF(g) && Founded(g, rank) && x < |g| && g[x].Struct? && i < |g[x].fields|
    requires Typed(g, v) && v.ty == g[x].fields[i].ty
    ensures Typed(g, w) && w.ty == x && w.body.vs[i] == v
  {
    var z := Zero(g, rank, x);
    Value(x, Parts(z.body.vs[i := v]))
  }

  lemma FieldsPanic(g: Graph, t: Ty, v: Value, ro: bool, k: nat, i: nat)
    requires Typed(g, v) && g[v.ty].Struct? && k <= i < |v.body.vs|
    requires Walk(g, t, v.body.vs[i], ro || !g[v.ty].fields[i].exported).Panic?
    ensures WalkFields(g, t, v, ro, k).Panic?
    decreases i - k
  {
    if k < i { FieldsPanic(g, t, v, ro, k + 1, i); }
  }

  /** A value along a route, which holds a target. */
  lemma {:induction false} Holder(g: Graph, t: Ty, rank: seq<nat>, x: Ty, p: seq<Ty>) returns (v: Value)
    requires WF(g) && Founded(g, rank) && t < |g| && x < |g| && Route(g, t, x, p)
    ensures Typed(g, v) && v.ty == x && Walk(g, t, v, true).Panic?
    decreases |p|
  {
    if x == t {
      return Zero(g, rank, t);
    }
    assert Reaches(g, t, x);
    if |p| == 1 {
      return Value(x, Dynamic(Zero(g, rank, t)));
    }
    assert Edge(g, p[0], p[1]) && Route(g, t, p[1], p[1..]);
    EdgeInGraph(g, x, p[1]);
    var w := Holder(g, t, rank, p[1], p[1..]);
    match g[x]
    case Ptr(_) => v := Value(x, Pointee(w));
    case Struct(fs) =>
      var i :| 0 <= i < |fs| && fs[i].exported && fs[i].ty == p[1];
      v := WithField(g, rank, x, i, w);
      FieldsPanic(g, t, v, true, 0, i);
    case Map(k, e) =>
      EdgeInGraph(g, x, k);
      EdgeInGraph(g, x, e);
      var entry := if p[1] == k then Entry(w, Zero(g, rank, e)) else Entry(Zero(g, rank, k), w);
      v := Value(x, Entries([entry]));
      assert WalkEntries(g, t, v, true, 0).Panic?;
    case List(_) =>
      v := Value(x, Parts([w]));
      assert WalkItems(g, t, v, true, 0).Panic?;
  }

  /** The walk of `v` completes, having called f on exactly its publicly accessible members. */
  ghost predicate Finds(g: Graph, t: Ty, v: Value)
    requires Typed(g, v)
  {
    Walk(g, t, v, false) == Calls(Members(g, t, v))
  }

  /** Walking completes on every value of every type, and then finds exactly the publicly accessible
      members, if and only if no reaching struct hides a reaching field. */
  lemma CompletesIffHiddenFree(g: Graph, t: Ty, rank: seq<nat>)
    requires WF(g) && Founded(g, rank) && t < |g|
    ensures HiddenFree(g, t) <==> forall v | Typed(g, v) :: Finds(g, t, v)
  {
    if HiddenFree(g, t) {
      forall v: Value | Typed(g, v) ensures Finds(g, t, v) {
        WalkCompletes(g, t, v);
        WalkIsMembers(g, t, v, false);
      }
    } else {
      var x: Ty, i :| x < |g| && x != t && g[x].Struct? && Reaches(g, t, x) &&
                      0 <= i < |g[x].fields| && !g[x].fields[i].exported && Reaches(g, t, g[x].fields[i].ty);
      var y := g[x].fields[i].ty;
      assert Mentions(g, x, y);
      var p :| Route(g, t, y, p);
      var w := Holder(g, t, rank, y, p);
      var v := WithField(g, rank, x, i, w);
      assert v.body.vs[i] == w && !g[v.ty].fields[i].exported;
      FieldsPanic(g, t, v, false, 0, i);
      assert Walk(g, t, v, false) == WalkFields(g, t, v, false, 0);
      assert !Finds(g, t, v);
    }
  }
}
