/** The types that `typeapply` walks, as a finite graph, and what it means for a type to lead to
    another one.  A type is an index into the graph; reflect's Kind decides its outgoing edges. */
module TypeGraph {

  type Ty = nat

  datatype Field = Field(ty: Ty, exported: bool)

  /** The kinds that the walk distinguishes.  List stands for arrays and slices, Leaf for every kind
      the walk does not enter (numbers, strings, channels, functions). */
  datatype Kind =
    | Ptr(elem: Ty)
    | Struct(fields: seq<Field>)
    | Map(key: Ty, elem: Ty)
    | List(elem: Ty)
    | Iface
    | Leaf

  type Graph = seq<Kind>

  /** `y` is a type that `x` mentions, exported or not. */
  predicate Mentions(g: Graph, x: Ty, y: Ty)
    requires x < |g|
  {
    match g[x]
    case Ptr(e) => y == e
    case Struct(fs) => exists i :: 0 <= i < |fs| && fs[i].ty == y
    case Map(k, e) => y == k || y == e
    case List(e) => y == e
    case Iface => false
    case Leaf => false
  }

  /** `y` is the type of a publicly accessible member of `x`. */
  predicate Edge(g: Graph, x: Ty, y: Ty)
    requires x < |g|
  {
    match g[x]
    case Ptr(e) => y == e
    case Struct(fs) => exists i :: 0 <= i < |fs| && fs[i].exported && fs[i].ty == y
    case Map(k, e) => y == k || y == e
    case List(e) => y == e
    case Iface => false
    case Leaf => false
  }

  /** Every mentioned type is in the graph, and no map type is the key of a map (Go's map keys must
      be comparable, and maps are not). */
  ghost predicate WF(g: Graph) {
    && (forall x, y | 0 <= x < |g| && 0 <= y && Mentions(g, x, y) :: y < |g|)
    && (forall x | 0 <= x < |g| && g[x].Map? :: g[x].key < |g| && !g[g[x].key].Map?)
  }

  lemma EdgeInGraph(g: Graph, x: Ty, y: Ty)
    requires WF(g) && x < |g| && Edge(g, x, y)
    ensures Mentions(g, x, y) && y < |g|
  {
    if g[x].Struct? {
      var i :| 0 <= i < |g[x].fields| && g[x].fields[i].exported && g[x].fields[i].ty == y;
      assert g[x].fields[i].ty == y;
    }
    assert Mentions(g, x, y);
  }

  /** A chain of edges through types of the graph. */
  ghost predicate Path(g: Graph, p: seq<Ty>) {
    && (forall i | 0 <= i < |p| :: p[i] < |g|)
    && (forall i | 0 < i < |p| :: Edge(g, p[i - 1], p[i]))
  }

  /** The search ends at the target and at interfaces, which may hold anything. */
  predicate Hit(g: Graph, t: Ty, x: Ty)
    requires x < |g|
  {
    x == t || g[x].Iface?
  }

  ghost predicate Route(g: Graph, t: Ty, x: Ty, p: seq<Ty>) {
    Path(g, p) && |p| > 0 && p[0] == x && Hit(g, t, p[|p| - 1])
  }

  /** What `canReach` is meant to decide. */
  ghost predicate Reaches(g: Graph, t: Ty, x: Ty) {
    exists p :: Route(g, t, x, p)
  }

  lemma ReachesStep(g: Graph, t: Ty, x: Ty, y: Ty)
    requires x < |g| && Edge(g, x, y) && Reaches(g, t, y)
    ensures Reaches(g, t, x)
  {
    var p :| Route(g, t, y, p);
    assert Route(g, t, x, [x] + p);
  }

  lemma ReachesHit(g: Graph, t: Ty, x: Ty)
    requires x < |g| && Hit(g, t, x)
    ensures Reaches(g, t, x)
  {
    assert Route(g, t, x, [x]);
  }

  /** A type that reaches without being a hit has a member that reaches. */
  lemma ReachesUnfold(g: Graph, t: Ty, x: Ty) returns (y: Ty)
    requires WF(g) && Reaches(g, t, x) && x < |g| && !Hit(g, t, x)
    ensures Edge(g, x, y) && y < |g| && Reaches(g, t, y)
  {
    var p :| Route(g, t, x, p);
    y := p[1];
    assert Route(g, t, y, p[1..]);
  }

  /** `p` leads from `x` to `y`, and only its last type may be the target: the search never
      continues past the target. */
  ghost predicate Trail(g: Graph, t: Ty, x: Ty, y: Ty, p: seq<Ty>) {
    && Path(g, p) && |p| > 0 && p[0] == x && p[|p| - 1] == y
    && forall i | 0 <= i < |p| - 1 :: p[i] != t
  }

  ghost predicate Leads(g: Graph, t: Ty, x: Ty, y: Ty) {
    exists p :: Trail(g, t, x, y, p)
  }

  lemma LeadsSelf(g: Graph, t: Ty, x: Ty)
    requires x < |g|
    ensures Leads(g, t, x, x)
  {
    assert Trail(g, t, x, x, [x]);
  }

  lemma LeadsStep(g: Graph, t: Ty, x: Ty, y: Ty, z: Ty)
    requires WF(g) && Leads(g, t, x, y) && y < |g| && y != t && Edge(g, y, z)
    ensures Leads(g, t, x, z)
  {
    EdgeInGraph(g, y, z);
    var p :| Trail(g, t, x, y, p);
    assert Trail(g, t, x, z, p + [z]);
  }
}
