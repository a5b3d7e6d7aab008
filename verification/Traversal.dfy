/** Values, running a compiled traverser over a value, and the two plain walks it is measured against. */
module Traversal {
  import opened TypeGraph
  import opened ReachSearch
  import opened Compiler

  /** An acyclic value is a tree; a member that is shared is repeated, once per way of reaching it. */
  datatype Value = Value(ty: Ty, body: Body)

  /** Parts are the fields of a struct or the items of an array or slice.  Entries are in the order in
      which MapKeys yields them.  Null is a nil pointer or a nil interface. */
  datatype Body =
    | Null
    | Pointee(to: Value)
    | Parts(vs: seq<Value>)
    | Entries(kvs: seq<Entry>)
    | Dynamic(held: Value)
    | Atom

  datatype Entry = Entry(key: Value, val: Value)

  predicate Typed(g: Graph, v: Value)
    decreases v
  {
    && v.ty < |g|
    && match g[v.ty]
       case Ptr(e) => v.body.Null? || (v.body.Pointee? && v.body.to.ty == e && Typed(g, v.body.to))
       case Struct(fs) =>
         && v.body.Parts? && |v.body.vs| == |fs|
         && forall i | 0 <= i < |fs| :: v.body.vs[i].ty == fs[i].ty && Typed(g, v.body.vs[i])
       case Map(k, e) =>
         && v.body.Entries?
         && forall i | 0 <= i < |v.body.kvs| ::
              && v.body.kvs[i].key.ty == k && Typed(g, v.body.kvs[i].key)
              && v.body.kvs[i].val.ty == e && Typed(g, v.body.kvs[i].val)
       case List(e) =>
         && v.body.Parts?
         && forall i | 0 <= i < |v.body.vs| :: v.body.vs[i].ty == e && Typed(g, v.body.vs[i])
       case Iface => v.body.Null? || (v.body.Dynamic? && Typed(g, v.body.held))
       case Leaf => v.body.Atom?
  }

  /** The arguments f is called with, in order, or a run-time panic. */
  datatype Outcome = Calls(args: seq<Value>) | Panic

  function Then(a: Outcome, b: Outcome): Outcome {
    if a.Calls? && b.Calls? then Calls(a.args + b.args) else Panic
  }

  // ----- The compiled walk -----

  /** Run `tr` on `v`.  `ro` says that `v` was obtained through an unexported field; reflect refuses to
      pass such a value to a function.  A nil or dummy traverser panics, and so does one of the wrong
      shape. */
  function Run(g: Graph, t: Ty, s: State, tr: Trav, v: Value, ro: bool): (r: (State, Outcome))
    requires WF(g) && Quiet(g, s) && Typed(g, v)
    ensures Quiet(g, r.0) && Grows(g, s, r.0)
    decreases v, 1, 0
  {
    match tr
    case NoTrav => (s, Panic)
    case Dummy => (s, Panic)
    case CallF => (s, if ro then Panic else Calls([v]))
    case PtrT(f) =>
      if v.body.Null? then (s, Calls([]))
      else if v.body.Pointee? then Run(g, t, s, f, v.body.to, ro)
      else (s, Panic)
    case StructT(refs) => if g[v.ty].Struct? then RunFields(g, t, s, refs, v, ro, 0) else (s, Panic)
    case MapT(f, h) => if g[v.ty].Map? then RunEntries(g, t, s, f, h, v, ro, 0) else (s, Panic)
    case ListT(f) => if g[v.ty].List? then RunItems(g, t, s, f, v, ro, 0) else (s, Panic)
    case IfaceT =>
      if v.body.Null? then (s, Calls([]))
      else if v.body.Dynamic? && g[v.ty].Iface? then
        assert Typed(g, v.body.held);
        var (s1, f) := GetTrav(g, t, s, v.body.held.ty);
        if f == NoTrav then (s1, Calls([])) else Run(g, t, s1, f, v.body.held, ro)
      else (s, Panic)
  }

  function RunFields(g: Graph, t: Ty, s: State, refs: seq<Ref>, v: Value, ro: bool, j: nat): (r: (State, Outcome))
    requires WF(g) && Quiet(g, s) && Typed(g, v) && g[v.ty].Struct? && j <= |refs|
    ensures Quiet(g, r.0) && Grows(g, s, r.0)
    decreases v, 0, |refs| - j
  {
    if j == |refs| then (s, Calls([]))
    else if refs[j].field >= |v.body.vs| || refs[j].info >= |s.infos| then (s, Panic)
    else
      var i := refs[j].field;
      var (s1, o1) := Run(g, t, s, s.infos[refs[j].info].trav, v.body.vs[i], ro || !g[v.ty].fields[i].exported);
      if o1.Panic? then (s1, Panic)
      else
        var (s2, o2) := RunFields(g, t, s1, refs, v, ro, j + 1);
        (s2, Then(o1, o2))
  }

  function RunEntries(g: Graph, t: Ty, s: State, f: Trav, h: Trav, v: Value, ro: bool, j: nat): (r: (State, Outcome))
    requires WF(g) && Quiet(g, s) && Typed(g, v) && g[v.ty].Map? && j <= |v.body.kvs|
    ensures Quiet(g, r.0) && Grows(g, s, r.0)
    decreases v, 0, |v.body.kvs| - j
  {
    if j == |v.body.kvs| then (s, Calls([]))
    else
      var (s1, o1) := if f == NoTrav then (s, Calls([])) else Run(g, t, s, f, v.body.kvs[j].key, ro);
      if o1.Panic? then (s1, Panic)
      else
        var (s2, o2) := if h == NoTrav then (s1, Calls([])) else Run(g, t, s1, h, v.body.kvs[j].val, ro);
        if o2.Panic? then (s2, Panic)
        else
          var (s3, o3) := RunEntries(g, t, s2, f, h, v, ro, j + 1);
          (s3, Then(Then(o1, o2), o3))
  }

  /** A key or element of a map; a missing traverser means there is nothing to visit. */
  function RunPart(g: Graph, t: Ty, s: State, f: Trav, v: Value, ro: bool): (r: (State, Outcome))
    requires WF(g) && Quiet(g, s) && Typed(g, v)
    ensures Quiet(g, r.0) && Grows(g, s, r.0)
  {
    if f == NoTrav then (s, Calls([])) else Run(g, t, s, f, v, ro)
  }

  function RunItems(g: Graph, t: Ty, s: State, f: Trav, v: Value, ro: bool, j: nat): (r: (State, Outcome))
    requires WF(g) && Quiet(g, s) && Typed(g, v) && g[v.ty].List? && j <= |v.body.vs|
    ensures Quiet(g, r.0) && Grows(g, s, r.0)
    decreases v, 0, |v.body.vs| - j
  {
    if j == |v.body.vs| then (s, Calls([]))
    else
      var (s1, o1) := Run(g, t, s, f, v.body.vs[j], ro);
      if o1.Panic? then (s1, Panic)
      else
        var (s2, o2) := RunItems(g, t, s1, f, v, ro, j + 1);
        (s2, Then(o1, o2))
  }

  /** `Do`, on one target type. */
  function DoSpec(g: Graph, t: Ty, s: State, v: Value): (r: (State, Outcome))
    requires WF(g) && Quiet(g, s) && Typed(g, v)
    ensures Quiet(g, r.0) && Grows(g, s, r.0)
  {
    var (s1, tr) := GetTrav(g, t, s, v.ty);
    if tr == NoTrav then (s1, Calls([])) else Run(g, t, s1, tr, v, false)
  }

  // ----- The plain walks -----

  /** The publicly accessible target-typed members of `v`, outermost first found, by walking everything. */
  function Members(g: Graph, t: Ty, v: Value): seq<Value>
    requires Typed(g, v)
    decreases v, 1, 0
  {
    if v.ty == t then [v]
    else match g[v.ty]
      case Ptr(_) => if v.body.Null? then [] else Members(g, t, v.body.to)
      case Struct(_) => FieldMembers(g, t, v, 0)
      case Map(_, _) => EntryMembers(g, t, v, 0)
      case List(_) => ItemMembers(g, t, v, 0)
      case Iface => if v.body.Null? then [] else Members(g, t, v.body.held)
      case Leaf => []
  }

  function FieldMembers(g: Graph, t: Ty, v: Value, i: nat): seq<Value>
    requires Typed(g, v) && g[v.ty].Struct? && i <= |v.body.vs|
    decreases v, 0, |v.body.vs| - i
  {
    if i == |v.body.vs| then []
    else (if g[v.ty].fields[i].exported then Members(g, t, v.body.vs[i]) else []) + FieldMembers(g, t, v, i + 1)
  }

  function EntryMembers(g: Graph, t: Ty, v: Value, i: nat): seq<Value>
    requires Typed(g, v) && g[v.ty].Map? && i <= |v.body.kvs|
    decreases v, 0, |v.body.kvs| - i
  {
    if i == |v.body.kvs| then []
    else Members(g, t, v.body.kvs[i].key) + Members(g, t, v.body.kvs[i].val) + EntryMembers(g, t, v, i + 1)
  }

  function ItemMembers(g: Graph, t: Ty, v: Value, i: nat): seq<Value>
    requires Typed(g, v) && g[v.ty].List? && i <= |v.body.vs|
    decreases v, 0, |v.body.vs| - i
  {
    if i == |v.body.vs| then [] else Members(g, t, v.body.vs[i]) + ItemMembers(g, t, v, i + 1)
  }

  /** The walk that the code performs when no dummy gets in the way: types that cannot reach are
      skipped, and inside a struct that can, unexported fields are entered as well. */
  ghost function Walk(g: Graph, t: Ty, v: Value, ro: bool): Outcome
    requires Typed(g, v)
    decreases v, 1, 0
  {
    if v.ty == t then (if ro then Panic else Calls([v]))
    else if !Reaches(g, t, v.ty) then Calls([])
    else match g[v.ty]
      case Ptr(_) => if v.body.Null? then Calls([]) else Walk(g, t, v.body.to, ro)
      case Struct(_) => WalkFields(g, t, v, ro, 0)
      case Map(_, _) => WalkEntries(g, t, v, ro, 0)
      case List(_) => WalkItems(g, t, v, ro, 0)
      case Iface => if v.body.Null? then Calls([]) else Walk(g, t, v.body.held, ro)
      case Leaf => Calls([])
  }

  ghost function WalkFields(g: Graph, t: Ty, v: Value, ro: bool, i: nat): Outcome
    requires Typed(g, v) && g[v.ty].Struct? && i <= |v.body.vs|
    decreases v, 0, |v.body.vs| - i
  {
    if i == |v.body.vs| then Calls([])
    else Then(Walk(g, t, v.body.vs[i], ro || !g[v.ty].fields[i].exported), WalkFields(g, t, v, ro, i + 1))
  }

  ghost function WalkEntries(g: Graph, t: Ty, v: Value, ro: bool, i: nat): Outcome
    requires Typed(g, v) && g[v.ty].Map? && i <= |v.body.kvs|
    decreases v, 0, |v.body.kvs| - i
  {
    if i == |v.body.kvs| then Calls([])
    else Then(Then(Walk(g, t, v.body.kvs[i].key, ro), Walk(g, t, v.body.kvs[i].val, ro)),
              WalkEntries(g, t, v, ro, i + 1))
  }

  ghost function WalkItems(g: Graph, t: Ty, v: Value, ro: bool, i: nat): Outcome
    requires Typed(g, v) && g[v.ty].List? && i <= |v.body.vs|
    decreases v, 0, |v.body.vs| - i
  {
    if i == |v.body.vs| then Calls([])
    else Then(Walk(g, t, v.body.vs[i], ro), WalkItems(g, t, v, ro, i + 1))
  }
}
