/** Which types a call of `Do` asks for, in order, and what that does to the cache. */
module Asking {
  import opened TypeGraph
  import opened ReachSearch
  import opened ReachCorrect
  import opened Compiler
  import opened CompilerCorrect
  import opened Traversal
  import opened TraversalCorrect
  import opened CompileOrder
  import opened Knots

  predicate Legal(g: Graph, h: seq<Ty>) {
    forall i | 0 <= i < |h| :: h[i] < |g|
  }

  /** Asking for the types of `h` in turn. */
  function AskAll(g: Graph, t: Ty, s: State, h: seq<Ty>): (s': State)
    requires WF(g) && Quiet(g, s) && Legal(g, h)
    ensures Quiet(g, s')
    decreases |h|
  {
    if h == [] then s else AskAll(g, t, GetTrav(g, t, s, h[0]).0, h[1..])
  }

  lemma GrowsThen(g: Graph, s: State, s1: State, s2: State)
    requires Valid(g, s) && Valid(g, s1) && Valid(g, s2) && Grows(g, s, s1) && Grows(g, s1, s2)
    ensures Grows(g, s, s2)
  {}

  lemma {:induction false} AskAllGrows(g: Graph, t: Ty, s: State, h: seq<Ty>)
    requires WF(g) && Quiet(g, s) && Legal(g, h)
    ensures Grows(g, s, AskAll(g, t, s, h))
    decreases |h|
  {
    hide GetTrav;
    if h != [] {
      var s1 := GetTrav(g, t, s, h[0]).0;
      AskAllGrows(g, t, s1, h[1..]);
      GrowsThen(g, s, s1, AskAll(g, t, s, h));
    }
  }

  lemma {:induction false} AskMore(g: Graph, t: Ty, s: State, a: seq<Ty>, b: seq<Ty>)
    requires WF(g) && Quiet(g, s) && Legal(g, a) && Legal(g, b)
    ensures Legal(g, a + b) && AskAll(g, t, s, a + b) == AskAll(g, t, AskAll(g, t, s, a), b)
    decreases |a|
  {
    hide GetTrav, Quiet;
    if a == [] {
      assert a + b == b;
    } else {
      assert (a + b)[0] == a[0] && (a + b)[1..] == a[1..] + b;
      AskMore(g, t, GetTrav(g, t, s, a[0]).0, a[1..], b);
    }
  }

  // ----- Purity, seen from the type graph -----

  lemma {:induction false} AskAllVisits(g: Graph, t: Ty, s: State, h: seq<Ty>)
    requires WF(g) && TrapFree(g, t) && Sound(g, t, s) && Legal(g, h) && Open(Travs(g, s)) == {}
    ensures var s' := AskAll(g, t, s, h);
            var v := Travs(g, s);
            Sound(g, t, s') && Follows(v, Travs(g, s'), VisitAll(g, t, Done(v), h))
    decreases |h|
  {
    hide GetTrav, AllRight, AllBuilt, TrapFree, Follows, Visit, Done, Open, Travs;
    var v := Travs(g, s);
    if h == [] {
      FollowsNothing(v);
    } else {
      GetTravVisits(g, t, s, h[0]);
      var s1 := GetTrav(g, t, s, h[0]).0;
      var r1 := Visit(g, t, Done(v), {}, h[0]);
      FollowsOpen(v, Travs(g, s1), r1);
      AskAllVisits(g, t, s1, h[1..]);
      VisitsJoin(v, Travs(g, s1), Travs(g, AskAll(g, t, s, h)), r1, VisitAll(g, t, r1.done, h[1..]));
    }
  }

  lemma VisitsJoin(v: seq<Trav>, v1: seq<Trav>, v2: seq<Trav>, r1: Visited, r2: Visited)
    requires Follows(v, v1, r1) && Follows(v1, v2, r2) && r1.bad <= r1.done && r2.bad !! r1.done && Done(v) !! r1.bad
    ensures Follows(v, v2, Visited(r2.done, r1.bad + r2.bad))
  {
    forall y | y in r2.done && y !in Done(v) ensures Captured(v2[y]) <==> y in r1.bad + r2.bad {
      if y in r1.done { assert v2[y] == v1[y]; }
    }
  }

  lemma PureOpen(g: Graph, s: State)
    requires Valid(g, s)
    ensures Pure(g, s) <==> AllClean(Travs(g, s)) && Open(Travs(g, s)) == {}
  {
    var v := Travs(g, s);
    if Pure(g, s) {
      forall x: Ty | x < |v| ensures v[x] != Dummy && Clean(v[x]) {
        if x in s.m { assert v[x] == Look(s, x).trav; }
      }
    }
    if AllClean(v) && Open(v) == {} {
      forall x | x in s.m ensures Clean(Look(s, x).trav) { assert v[x] == Look(s, x).trav && x !in Open(v); }
    }
  }

  /** Asking for any sequence of types keeps a pure cache pure exactly if the walk of the type graph,
      past what is compiled already, leaves no pointer, map, array or slice type for one still open. */
  lemma StaysPureIff(g: Graph, t: Ty, s: State, h: seq<Ty>)
    requires WF(g) && TrapFree(g, t) && Sound(g, t, s) && Pure(g, s) && Legal(g, h)
    ensures Pure(g, AskAll(g, t, s, h)) <==> VisitAll(g, t, Done(Travs(g, s)), h).bad == {}
    ensures Sound(g, t, AskAll(g, t, s, h))
  {
    PureOpen(g, s);
    AskAllVisits(g, t, s, h);
    PureOpen(g, AskAll(g, t, s, h));
    hide *;
    var v := Travs(g, s);
    CleanIff(v, Travs(g, AskAll(g, t, s, h)), VisitAll(g, t, Done(v), h));
  }

  lemma CleanIff(v: seq<Trav>, v': seq<Trav>, r: Visited)
    requires Follows(v, v', r) && AllClean(v) && Open(v) == {} && r.bad <= r.done && r.bad !! Done(v)
    ensures AllClean(v') && Open(v') == {} <==> r.bad == {}
  {
    if y :| y in r.bad { assert Captured(v'[y]) && !Clean(v'[y]); }
  }

  // ----- The dynamic types that a value asks for -----

  /** The types found in interfaces on the way to the targets of `v`, in walking order. */
  ghost function Dynamics(g: Graph, t: Ty, v: Value): (h: seq<Ty>)
    requires Typed(g, v)
    ensures Legal(g, h)
    decreases v, 1, 0
  {
    if v.ty == t || !Reaches(g, t, v.ty) then []
    else match g[v.ty]
      case Ptr(_) => if v.body.Null? then [] else Dynamics(g, t, v.body.to)
      case Struct(_) => FieldDynamics(g, t, v, 0)
      case Map(_, _) => EntryDynamics(g, t, v, 0)
      case List(_) => ItemDynamics(g, t, v, 0)
      case Iface => if v.body.Null? then [] else [v.body.held.ty] + Dynamics(g, t, v.body.held)
      case Leaf => []
  }

  ghost function FieldDynamics(g: Graph, t: Ty, v: Value, i: nat): (h: seq<Ty>)
    requires Typed(g, v) && g[v.ty].Struct? && i <= |v.body.vs|
    ensures Legal(g, h)
    decreases v, 0, |v.body.vs| - i
  {
    if i == |v.body.vs| then [] else Dynamics(g, t, v.body.vs[i]) + FieldDynamics(g, t, v, i + 1)
  }

  ghost function EntryDynamics(g: Graph, t: Ty, v: Value, i: nat): (h: seq<Ty>)
    requires Typed(g, v) && g[v.ty].Map? && i <= |v.body.kvs|
    ensures Legal(g, h)
    decreases v, 0, |v.body.kvs| - i
  {
    if i == |v.body.kvs| then []
    else (Dynamics(g, t, v.body.kvs[i].key) + Dynamics(g, t, v.body.kvs[i].val)) + EntryDynamics(g, t, v, i + 1)
  }

  ghost function ItemDynamics(g: Graph, t: Ty, v: Value, i: nat): (h: seq<Ty>)
    requires Typed(g, v) && g[v.ty].List? && i <= |v.body.vs|
    ensures Legal(g, h)
    decreases v, 0, |v.body.vs| - i
  {
    if i == |v.body.vs| then [] else Dynamics(g, t, v.body.vs[i]) + ItemDynamics(g, t, v, i + 1)
  }

  /** A run that returns has asked for the types of `a`; one that panics has asked for some of them. */
  ghost predicate AsksFor(g: Graph, t: Ty, s: State, s': State, o: Outcome, a: seq<Ty>)
    requires WF(g) && Quiet(g, s) && Quiet(g, s') && Legal(g, a)
  {
    Grows(g, s', AskAll(g, t, s, a)) && (o.Calls? ==> s' == AskAll(g, t, s, a))
  }

  lemma AsksNothing(g: Graph, t: Ty, s: State, o: Outcome)
    requires WF(g) && Quiet(g, s)
    ensures AsksFor(g, t, s, s, o, [])
  {}

  lemma AsksThen(g: Graph, t: Ty, s: State, s1: State, s2: State, o1: Outcome, o2: Outcome, a1: seq<Ty>, a2: seq<Ty>)
    requires WF(g) && Quiet(g, s) && Quiet(g, s1) && Quiet(g, s2) && Legal(g, a1) && Legal(g, a2)
    requires AsksFor(g, t, s, s1, o1, a1) && o1.Calls? && AsksFor(g, t, s1, s2, o2, a2)
    ensures Legal(g, a1 + a2) && AsksFor(g, t, s, s2, Then(o1, o2), a1 + a2)
  {
    AskMore(g, t, s, a1, a2);
  }

  lemma AsksPanic(g: Graph, t: Ty, s: State, s1: State, a1: seq<Ty>, a2: seq<Ty>)
    requires WF(g) && Quiet(g, s) && Quiet(g, s1) && Legal(g, a1) && Legal(g, a2)
    requires AsksFor(g, t, s, s1, Panic, a1)
    ensures Legal(g, a1 + a2) && AsksFor(g, t, s, s1, Panic, a1 + a2)
  {
    hide AskAll, Grows;
    AskMore(g, t, s, a1, a2);
    var u := AskAll(g, t, s, a1);
    AskAllGrows(g, t, u, a2);
    GrowsThen(g, s1, u, AskAll(g, t, u, a2));
  }

  lemma {:induction false} RunAsks(g: Graph, t: Ty, s: State, tr: Trav, v: Value, ro: bool)
    requires WF(g) && TrapFree(g, t) && Sound(g, t, s) && Typed(g, v)
    requires Built(g, t, s, tr, v.ty) && Reaches(g, t, v.ty)
    ensures var (s', o) := Run(g, t, s, tr, v, ro); AsksFor(g, t, s, s', o, Dynamics(g, t, v))
    decreases v, 1, 0
  {
    hide GetTrav, AllBuilt, AllRight, AskAll, Grows;
    AsksNothing(g, t, s, Panic);
    AsksNothing(g, t, s, Calls([]));
    if tr.Dummy? {
      AsksPanic(g, t, s, s, [], Dynamics(g, t, v));
      assert [] + Dynamics(g, t, v) == Dynamics(g, t, v);
    } else if v.ty == t {
      AsksNothing(g, t, s, Run(g, t, s, tr, v, ro).1);
    } else {
      match g[v.ty]
      case Ptr(e) =>
        if v.body.Pointee? {
          OnlyMember(g, t, v.ty);
          RunAsks(g, t, s, tr.elemT, v.body.to, ro);
        }
      case Struct(_) =>
        assert tr.refs[0..] == tr.refs;
        FieldsAsk(g, t, s, tr.refs, v, ro, 0, 0);
      case Map(_, _) => EntriesAsk(g, t, s, tr.keyT, tr.valT, v, ro, 0);
      case List(e) =>
        OnlyMember(g, t, v.ty);
        ItemsAsk(g, t, s, tr.itemT, v, ro, 0);
      case Iface => if v.body.Dynamic? { DynamicAsks(g, t, s, v, ro); }
      case Leaf =>
    }
  }

  lemma {:induction false} DynamicAsks(g: Graph, t: Ty, s: State, v: Value, ro: bool)
    requires WF(g) && TrapFree(g, t) && Sound(g, t, s) && Typed(g, v)
    requires v.ty != t && Reaches(g, t, v.ty) && g[v.ty].Iface? && v.body.Dynamic?
    ensures var (s', o) := Run(g, t, s, IfaceT, v, ro); AsksFor(g, t, s, s', o, Dynamics(g, t, v))
    decreases v, 0, 0
  {
    hide GetTrav, AllBuilt, AllRight, Grows, Dynamics, AsksFor, Reaches, TrapFree;
    var held := v.body.held;
    assert Typed(g, held);
    AskOne(g, t, s, held.ty);
    HeldDynamics(g, t, v);
    GetTravSound(g, t, s, held.ty);
    var (s1, f) := GetTrav(g, t, s, held.ty);
    if f == NoTrav {
      AsksNothing(g, t, s1, Calls([]));
      AsksThen(g, t, s, s1, s1, Calls([]), Calls([]), [held.ty], []);
      assert [held.ty] + [] == [held.ty];
    } else {
      RunAsks(g, t, s1, f, held, ro);
      var (s2, o) := Run(g, t, s1, f, held, ro);
      AsksThen(g, t, s, s1, s2, Calls([]), o, [held.ty], Dynamics(g, t, held));
      if o.Calls? { assert [] + o.args == o.args; }
    }
  }

  lemma AskOne(g: Graph, t: Ty, s: State, x: Ty)
    requires WF(g) && Quiet(g, s) && x < |g|
    ensures Legal(g, [x]) && AskAll(g, t, s, [x]) == GetTrav(g, t, s, x).0
    ensures AsksFor(g, t, s, GetTrav(g, t, s, x).0, Calls([]), [x])
  {
    hide GetTrav;
    assert [x][1..] == [];
  }

  lemma HeldDynamics(g: Graph, t: Ty, v: Value)
    requires Typed(g, v) && v.ty != t && Reaches(g, t, v.ty) && g[v.ty].Iface? && v.body.Dynamic?
    ensures Typed(g, v.body.held) && Dynamics(g, t, v) == [v.body.held.ty] + Dynamics(g, t, v.body.held)
    ensures !Reaches(g, t, v.body.held.ty) ==> Dynamics(g, t, v.body.held) == []
  {}

  lemma {:induction false} PartAsks(g: Graph, t: Ty, s: State, f: Trav, y: Value, ro: bool)
    requires WF(g) && TrapFree(g, t) && Sound(g, t, s) && Typed(g, y)
    requires if Reaches(g, t, y.ty) then Built(g, t, s, f, y.ty) else f == NoTrav
    ensures var (s', o) := RunPart(g, t, s, f, y, ro); AsksFor(g, t, s, s', o, Dynamics(g, t, y))
    decreases y, 2, 0
  {
    hide GetTrav, AllBuilt, AllRight, AskAll, Grows, Run;
    if Reaches(g, t, y.ty) {
      RunAsks(g, t, s, f, y, ro);
    } else {
      AsksNothing(g, t, s, Calls([]));
    }
  }

  lemma {:induction false} FieldsAsk(g: Graph, t: Ty, s: State, refs: seq<Ref>, v: Value, ro: bool, j: nat, i: nat)
    requires WF(g) && TrapFree(g, t) && Sound(g, t, s) && Typed(g, v) && g[v.ty].Struct?
    requires j <= |refs| && i <= |v.body.vs| && Lists(g, t, s, v.ty, i, refs[j..])
    ensures var (s', o) := RunFields(g, t, s, refs, v, ro, j); AsksFor(g, t, s, s', o, FieldDynamics(g, t, v, i))
    decreases v, 0, |v.body.vs| - i
  {
    hide GetTrav, AllRight, AskAll, Grows, Run, Dynamics, AsksFor, TrapFree;
    if i == |v.body.vs| {
      AsksNothing(g, t, s, Calls([]));
    } else {
      var y := g[v.ty].fields[i].ty;
      var w := v.body.vs[i];
      assert w.ty == y && Typed(g, w);
      var rest := FieldDynamics(g, t, v, i + 1);
      if !Reaches(g, t, y) {
        FieldsAsk(g, t, s, refs, v, ro, j, i + 1);
        Unasked(g, t, w);
        assert [] + rest == rest;
      } else {
        assert refs[j..][0] == refs[j] && refs[j..][1..] == refs[j + 1..];
        OneFieldRun(g, t, s, refs, v, ro, j, i);
        var ro1 := ro || !g[v.ty].fields[i].exported;
        var tr := Look(s, y).trav;
        RunAsks(g, t, s, tr, w, ro1);
        var (s1, o1) := Run(g, t, s, tr, w, ro1);
        if o1.Calls? {
          FieldsAsk(g, t, s1, refs, v, ro, j + 1, i + 1);
          var (s2, o2) := RunFields(g, t, s1, refs, v, ro, j + 1);
          AsksThen(g, t, s, s1, s2, o1, o2, Dynamics(g, t, w), rest);
        } else {
          AsksPanic(g, t, s, s1, Dynamics(g, t, w), rest);
        }
      }
    }
  }

  lemma Unasked(g: Graph, t: Ty, v: Value)
    requires Typed(g, v) && !Reaches(g, t, v.ty)
    ensures Dynamics(g, t, v) == []
  {}

  lemma {:induction false} EntriesAsk(g: Graph, t: Ty, s: State, f: Trav, h: Trav, v: Value, ro: bool, j: nat)
    requires WF(g) && TrapFree(g, t) && Sound(g, t, s) && Typed(g, v) && g[v.ty].Map? && j <= |v.body.kvs|
    requires Built(g, t, s, MapT(f, h), v.ty) && v.ty != t
    ensures var (s', o) := RunEntries(g, t, s, f, h, v, ro, j); AsksFor(g, t, s, s', o, EntryDynamics(g, t, v, j))
    decreases v, 0, |v.body.kvs| - j
  {
    hide AllRight, AllBuilt, Built, Reaches, TrapFree, Run, Clean, RunEntries, RunEntry, AskAll, Grows, Dynamics,
         AsksFor, Gives;
    EntryTurn(g, t, s, f, h, v, ro, j);
    if j == |v.body.kvs| {
      AsksNothing(g, t, s, Calls([]));
    } else {
      EntryRun(g, t, s, f, h, v, ro, j);
      EntryAsks(g, t, s, f, h, v, ro, j);
      var (s2, o2) := RunEntry(g, t, s, f, h, v, ro, j);
      var a := Dynamics(g, t, v.body.kvs[j].key) + Dynamics(g, t, v.body.kvs[j].val);
      var rest := EntryDynamics(g, t, v, j + 1);
      if o2.Panic? {
        AsksPanic(g, t, s, s2, a, rest);
      } else {
        EntriesAsk(g, t, s2, f, h, v, ro, j + 1);
        var (s3, o3) := RunEntries(g, t, s2, f, h, v, ro, j + 1);
        AsksThen(g, t, s, s2, s3, o2, o3, a, rest);
      }
    }
  }

  lemma {:induction false} EntryAsks(g: Graph, t: Ty, s: State, f: Trav, h: Trav, v: Value, ro: bool, j: nat)
    requires WF(g) && TrapFree(g, t) && Sound(g, t, s) && Typed(g, v) && g[v.ty].Map? && j < |v.body.kvs|
    requires Built(g, t, s, MapT(f, h), v.ty) && v.ty != t
    ensures Typed(g, v.body.kvs[j].key) && Typed(g, v.body.kvs[j].val)
    ensures var (s', o) := RunEntry(g, t, s, f, h, v, ro, j);
            var a := Dynamics(g, t, v.body.kvs[j].key) + Dynamics(g, t, v.body.kvs[j].val);
            Legal(g, a) && AsksFor(g, t, s, s', o, a)
    decreases v, 0, 0
  {
    hide GetTrav, AllBuilt, AllRight, RunPart, Run, AskAll, Grows, Dynamics, AsksFor, Gives;
    var key, val := v.body.kvs[j].key, v.body.kvs[j].val;
    assert Typed(g, key) && Typed(g, val);
    PartRun(g, t, s, f, key, ro);
    PartAsks(g, t, s, f, key, ro);
    var (s1, o1) := RunPart(g, t, s, f, key, ro);
    GrowsKeeps(g, s, s1);
    BuiltKept(g, t, s, s1, MapT(f, h), v.ty);
    if o1.Calls? {
      PartAsks(g, t, s1, h, val, ro);
      var (s2, o2) := RunPart(g, t, s1, h, val, ro);
      AsksThen(g, t, s, s1, s2, o1, o2, Dynamics(g, t, key), Dynamics(g, t, val));
    } else {
      AsksPanic(g, t, s, s1, Dynamics(g, t, key), Dynamics(g, t, val));
    }
  }

  lemma {:induction false} ItemsAsk(g: Graph, t: Ty, s: State, f: Trav, v: Value, ro: bool, j: nat)
    requires WF(g) && TrapFree(g, t) && Sound(g, t, s) && Typed(g, v) && g[v.ty].List? && j <= |v.body.vs|
    requires Built(g, t, s, f, g[v.ty].elem) && Reaches(g, t, g[v.ty].elem)
    ensures var (s', o) := RunItems(g, t, s, f, v, ro, j); AsksFor(g, t, s, s', o, ItemDynamics(g, t, v, j))
    decreases v, 0, |v.body.vs| - j
  {
    hide AllRight, AllBuilt, Built, Reaches, TrapFree, Run, Clean, AskAll, Grows, Dynamics, AsksFor, Gives;
    if j == |v.body.vs| {
      AsksNothing(g, t, s, Calls([]));
    } else {
      var w := v.body.vs[j];
      assert w.ty == g[v.ty].elem && Typed(g, w);
      ItemRun(g, t, s, f, v, ro, j);
      RunAsks(g, t, s, f, w, ro);
      var (s1, o1) := Run(g, t, s, f, w, ro);
      var rest := ItemDynamics(g, t, v, j + 1);
      if o1.Panic? {
        AsksPanic(g, t, s, s1, Dynamics(g, t, w), rest);
      } else {
        ItemsAsk(g, t, s1, f, v, ro, j + 1);
        var (s2, o2) := RunItems(g, t, s1, f, v, ro, j + 1);
        AsksThen(g, t, s, s1, s2, o1, o2, Dynamics(g, t, w), rest);
      }
    }
  }

  /** All the types a call of `Do` asks for. */
  ghost function Wants(g: Graph, t: Ty, v: Value): (h: seq<Ty>)
    requires Typed(g, v)
    ensures Legal(g, h)
  {
    [v.ty] + Dynamics(g, t, v)
  }

  lemma DoAsks(g: Graph, t: Ty, s: State, v: Value)
    requires WF(g) && TrapFree(g, t) && Sound(g, t, s) && Typed(g, v)
    ensures var (s', o) := DoSpec(g, t, s, v); AsksFor(g, t, s, s', o, Wants(g, t, v))
  {
    hide GetTrav, AllBuilt, AllRight, Grows, Dynamics, Run, AskAll, AsksFor;
    AskOne(g, t, s, v.ty);
    GetTravSound(g, t, s, v.ty);
    var (s1, tr) := GetTrav(g, t, s, v.ty);
    if tr == NoTrav {
      Unasked(g, t, v);
      assert Wants(g, t, v) == [v.ty];
    } else {
      RunAsks(g, t, s1, tr, v, false);
      var (s2, o) := Run(g, t, s1, tr, v, false);
      AsksThen(g, t, s, s1, s2, Calls([]), o, [v.ty], Dynamics(g, t, v));
      if o.Calls? { assert [] + o.args == o.args; }
    }
  }
}
