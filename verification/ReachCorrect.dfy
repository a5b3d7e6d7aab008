/** When the answers of `canReach` are right.  A map type publishes a partial answer while its element
    type is being searched; `Trap` names the type graphs in which somebody caches that partial answer. */
module ReachCorrect {
  import opened TypeGraph
  import opened ReachSearch

  /** `x` has a single way to the target, through the map type `m`, and is searched while `m` holds the
      answer for its key only. */
  ghost predicate Trap(g: Graph, t: Ty, m: Ty, x: Ty)
    requires WF(g)
  {
    && m < |g| && x < |g| && m != t && x != t
    && g[m].Map? && !Reaches(g, t, g[m].key) && Reaches(g, t, m) && Leads(g, t, g[m].elem, x)
    && (g[x] == Ptr(m) || g[x] == List(m) || (g[x].Map? && g[x].elem == m && !Reaches(g, t, g[x].key)))
  }

  ghost predicate TrapFree(g: Graph, t: Ty)
    requires WF(g)
  {
    forall m, x :: !Trap(g, t, m, x)
  }

  /** What the typeInfo of `x` may claim: a partial `no` is only ever published by a map. */
  ghost predicate Right(g: Graph, t: Ty, x: Ty, i: Info)
    requires WF(g) && x < |g|
  {
    && (i.visiting ==> x != t)
    && (i.know == Yes ==> Reaches(g, t, x))
    && (i.know == No ==>
          if i.visiting then g[x].Map? && !Reaches(g, t, g[x].key) else !Reaches(g, t, x))
  }

  ghost predicate AllRight(g: Graph, t: Ty, s: State)
    requires WF(g) && Valid(g, s)
  {
    forall x | x in s.m :: Right(g, t, x, Look(s, x))
  }

  /** Every map that has published a partial `no` is searching its element type, which has led to `x`. */
  ghost predicate Below(g: Graph, t: Ty, s: State, x: Ty)
    requires WF(g) && Valid(g, s)
  {
    forall z: Ty | Visiting(s, z) && Look(s, z).know == No :: g[z].Map? && Leads(g, t, g[z].elem, x)
  }

  /** Every cached answer is right before and after a search, partial answers included. */
  lemma {:induction false} Decides(g: Graph, t: Ty, s: State, x: Ty)
    requires WF(g) && TrapFree(g, t) && Valid(g, s) && x < |g|
    requires AllRight(g, t, s) && Below(g, t, s, x)
    ensures AllRight(g, t, CanReach(g, t, s, x).0)
    decreases Idle(g, s), 0, 0
  {
    if x in s.m && Settled(Look(s, x)) {
    } else if x == t {
      ReachesHit(g, t, x);
    } else {
      var s2 := SetVisiting(Allocate(s, x), |s.infos|, true);
      Begin(g, s, x);
      Started(g, t, s, x);
      SearchDecides(g, t, s2, x);
      var s3 := Search(g, t, s2, x);
      Finish(g, s, s3, x);
      Stopped(g, t, s, s3, x);
    }
  }

  lemma Started(g: Graph, t: Ty, s: State, x: Ty)
    requires WF(g) && Valid(g, s) && x < |g| && x != t && (x in s.m ==> !Settled(Look(s, x)))
    requires AllRight(g, t, s) && Below(g, t, s, x)
    ensures var s2 := SetVisiting(Allocate(s, x), |s.infos|, true);
            Valid(g, s2) && AllRight(g, t, s2) && Below(g, t, s2, x)
  {
    hide Reaches, Leads, WF;
    var s2 := SetVisiting(Allocate(s, x), |s.infos|, true);
    assert forall z | z in s2.m && z != x :: Look(s2, z) == Look(s, z);
    assert Look(s2, x) == Info(DontKnow, true, NoTrav);
  }

  lemma Stopped(g: Graph, t: Ty, s: State, s3: State, x: Ty)
    requires WF(g) && Valid(g, s) && Valid(g, s3) && x < |g|
    requires |s.infos| < |s3.infos| && SearchResult(g, t, s3, x) && s3.m[x] == |s.infos|
    ensures Valid(g, SetVisiting(s3, |s.infos|, false))
    ensures AllRight(g, t, SetVisiting(s3, |s.infos|, false))
  {
    var s4 := SetVisiting(s3, |s.infos|, false);
    assert forall z | z in s4.m && z != x :: Look(s4, z) == Look(s3, z);
  }

  ghost predicate SearchResult(g: Graph, t: Ty, s: State, x: Ty)
    requires WF(g) && Valid(g, s)
  {
    && x in s.m
    && (forall z | z in s.m && z != x :: Right(g, t, z, Look(s, z)))
    && Right(g, t, x, Look(s, x).(visiting := false))
  }

  lemma {:induction false} SearchDecides(g: Graph, t: Ty, s: State, x: Ty)
    requires WF(g) && TrapFree(g, t) && Valid(g, s) && x < |g| && x != t
    requires Visiting(s, x) && Look(s, x).know == DontKnow
    requires AllRight(g, t, s) && Below(g, t, s, x)
    ensures SearchResult(g, t, Search(g, t, s, x), x)
    decreases Idle(g, s), 3, 0
  {
    match g[x]
    case Ptr(e) => AskDecides(g, t, s, x, e);
    case List(e) => AskDecides(g, t, s, x, e);
    case Struct(fs) =>
      FieldsDecide(g, t, s, x, 0);
    case Map(k, e) => MapDecides(g, t, s, x, k, e);
    case Iface => ReachesHit(g, t, x); Conclude(g, t, s, s, x, Yes);
    case Leaf =>
  }

  lemma BelowMember(g: Graph, t: Ty, s: State, x: Ty, y: Ty)
    requires WF(g) && Valid(g, s) && x < |g| && y < |g| && x != t
    requires Visiting(s, x) && (Look(s, x).know == No ==> g[x].Map? && g[x].elem == y)
    requires Edge(g, x, y)
    requires Below(g, t, SetKnow(s, s.m[x], DontKnow), x)
    ensures Below(g, t, s, y)
  {
    forall z: Ty | Visiting(s, z) && Look(s, z).know == No ensures g[z].Map? && Leads(g, t, g[z].elem, y) {
      if z == x {
        LeadsSelf(g, t, y);
      } else {
        assert Look(SetKnow(s, s.m[x], DontKnow), z) == Look(s, z);
        LeadsStep(g, t, g[z].elem, x, y);
      }
    }
  }

  /** One call on a member type: what the answer means to the caller. */
  lemma {:induction false} Asked(g: Graph, t: Ty, s: State, x: Ty, y: Ty)
    requires WF(g) && TrapFree(g, t) && Valid(g, s) && x < |g| && y < |g| && x != t
    requires Visiting(s, x) && (Look(s, x).know == No ==> g[x].Map? && g[x].elem == y)
    requires Edge(g, x, y)
    requires AllRight(g, t, s)
    requires Below(g, t, SetKnow(s, s.m[x], DontKnow), x)
    ensures var (s1, k) := CanReach(g, t, s, y);
            && AllRight(g, t, s1) && Visiting(s1, x) && s1.m[x] == s.m[x] && Look(s1, x) == Look(s, x)
            && (k == Yes ==> Reaches(g, t, x))
            && (k == No && Reaches(g, t, y) ==>
                  y != x ==> y != t && g[y].Map? && !Reaches(g, t, g[y].key) && Leads(g, t, g[y].elem, x))
    decreases Idle(g, s), 1, 0
  {
    BelowMember(g, t, s, x, y);
    Decides(g, t, s, y);
    var (s1, k) := CanReach(g, t, s, y);
    assert Right(g, t, y, Look(s1, y));
    if k == Yes {
      ReachesStep(g, t, x, y);
    } else if k == No && Reaches(g, t, y) && y != x {
      assert Visiting(s, y);
      assert Look(SetKnow(s, s.m[x], DontKnow), y) == Look(s, y);
    }
  }

  /** Without traps, a type whose only way leads through a map in progress does not reach. */
  lemma OnlyWay(g: Graph, t: Ty, x: Ty, e: Ty)
    requires WF(g) && TrapFree(g, t) && x < |g| && x != t
    requires g[x] == Ptr(e) || g[x] == List(e) || (g[x].Map? && g[x].elem == e && !Reaches(g, t, g[x].key))
    requires Reaches(g, t, e) ==>
               e != x ==> e < |g| && e != t && g[e].Map? && !Reaches(g, t, g[e].key) && Leads(g, t, g[e].elem, x)
    ensures !Reaches(g, t, x)
  {
    if e == x {
      if Reaches(g, t, x) { NoSelfRoute(g, t, x); }
    } else {
      assert !Trap(g, t, e, x);
      if Reaches(g, t, x) { var y := ReachesUnfold(g, t, x); }
    }
  }

  /** A type that only mentions itself and types that do not reach cannot reach. */
  lemma NoSelfRoute(g: Graph, t: Ty, x: Ty)
    requires WF(g) && x < |g| && !Hit(g, t, x)
    requires forall y | y != x && Edge(g, x, y) :: !Reaches(g, t, y)
    ensures !Reaches(g, t, x)
  {
    forall p | Route(g, t, x, p) ensures false {
      var q := LastVisit(g, t, x, p);
      var y := q[1];
      assert y == q[1..][0] && Edge(g, q[0], y);
      assert Reaches(g, t, y) by { assert Route(g, t, y, q[1..]); }
    }
  }

  lemma Conclude(g: Graph, t: Ty, s: State, s1: State, x: Ty, k: Knowledge)
    requires WF(g) && Valid(g, s) && Valid(g, s1) && Visiting(s, x)
    requires Visiting(s1, x) && s1.m[x] == s.m[x] && AllRight(g, t, s1)
    requires (k == Yes ==> Reaches(g, t, x)) && (k == No ==> !Reaches(g, t, x))
    ensures Valid(g, SetKnow(s1, s.m[x], k)) && SearchResult(g, t, SetKnow(s1, s.m[x], k), x)
  {
    var s' := SetKnow(s1, s.m[x], k);
    assert forall z | z in s'.m && z != x :: Look(s', z) == Look(s1, z);
    assert Look(s', x) == Look(s1, x).(know := k);
  }

  /** Pointers, arrays and slices. */
  lemma {:induction false} AskDecides(g: Graph, t: Ty, s: State, x: Ty, e: Ty)
    requires WF(g) && TrapFree(g, t) && Valid(g, s) && x < |g| && x != t
    requires g[x] == Ptr(e) || g[x] == List(e)
    requires Visiting(s, x) && Look(s, x).know == DontKnow
    requires AllRight(g, t, s) && Below(g, t, s, x)
    ensures SearchResult(g, t, Ask(g, t, s, x, e), x)
    decreases Idle(g, s), 2, 0
  {
    EdgeInGraph(g, x, e);
    assert SetKnow(s, s.m[x], DontKnow) == s;
    Asked(g, t, s, x, e);
    var (s1, k) := CanReach(g, t, s, e);
    if k == No { OnlyWay(g, t, x, e); }
    Conclude(g, t, s, s1, x, k);
  }

  lemma {:induction false} MapDecides(g: Graph, t: Ty, s: State, x: Ty, k: Ty, e: Ty)
    requires WF(g) && TrapFree(g, t) && Valid(g, s) && x < |g| && x != t && g[x] == Map(k, e)
    requires Visiting(s, x) && Look(s, x).know == DontKnow
    requires AllRight(g, t, s) && Below(g, t, s, x)
    ensures SearchResult(g, t, Search(g, t, s, x), x)
    decreases Idle(g, s), 2, 0
  {
    hide Reaches, Leads, TrapFree, Below, CanReach, ExtendsBut, Idle;
    var s1 := HalfMap(g, t, s, x, k, e);
    EdgeInGraph(g, x, e);
    Asked(g, t, s1, x, e);
    var (r2, k2) := CanReach(g, t, s1, e);
    var k3 := Or(k2, Look(s1, x).know);
    if k3 == No { OnlyWay(g, t, x, e); }
    Conclude(g, t, s1, r2, x, k3);
  }

  /** The first half of a map: its key. */
  lemma {:induction false} HalfMap(g: Graph, t: Ty, s: State, x: Ty, k: Ty, e: Ty) returns (s1: State)
    requires WF(g) && TrapFree(g, t) && Valid(g, s) && x < |g| && x != t && g[x] == Map(k, e)
    requires Visiting(s, x) && Look(s, x).know == DontKnow
    requires AllRight(g, t, s) && Below(g, t, s, x)
    ensures Mentions(g, x, k) && s1 == Ask(g, t, s, x, k) && Valid(g, s1) && Visiting(s1, x)
    ensures s1.m[x] == s.m[x] && AllRight(g, t, s1) && Idle(g, s) == Idle(g, s1)
    ensures Below(g, t, SetKnow(s1, s1.m[x], DontKnow), x)
    ensures Look(s1, x).know == Yes ==> Reaches(g, t, x)
    decreases Idle(g, s), 1, 1
  {
    EdgeInGraph(g, x, k);
    var a := s.m[x];
    assert SetKnow(s, a, DontKnow) == s;
    Asked(g, t, s, x, k);
    var (r1, k1) := CanReach(g, t, s, k);
    s1 := Ask(g, t, s, x, k);
    SameIdle(g, s, s1, a);
    Continue(g, t, s, r1, x, k1);
  }

  /** Publishing a partial answer keeps everything in order. */
  lemma Continue(g: Graph, t: Ty, s: State, s1: State, x: Ty, k: Knowledge)
    requires WF(g) && Valid(g, s) && Valid(g, s1) && Visiting(s, x) && x != t
    requires Extends(s, s1) && Visiting(s1, x) && s1.m[x] == s.m[x] && AllRight(g, t, s1)
    requires Below(g, t, SetKnow(s, s.m[x], DontKnow), x)
    requires k == Yes ==> Reaches(g, t, x)
    requires k == No ==> g[x].Map? && !Reaches(g, t, g[x].key)
    ensures var s2 := SetKnow(s1, s.m[x], k);
            && Valid(g, s2) && AllRight(g, t, s2) && Visiting(s2, x) && Look(s2, x).know == k
            && Below(g, t, SetKnow(s2, s.m[x], DontKnow), x)
            && (k != No ==> Below(g, t, s2, x))
  {
    hide Reaches, Leads, WF, Extends, ExtendsBut;
    var a := s.m[x];
    var s2 := SetKnow(s1, a, k);
    Noted(g, s, s1, a, k);
    SameVisiting(g, s, s2, a);
    assert forall z | z in s2.m && z != x :: Look(s2, z) == Look(s1, z);
    forall z: Ty | Visiting(s2, z) && z != x && Look(s2, z).know == No
      ensures g[z].Map? && Leads(g, t, g[z].elem, x)
    {
      assert Look(SetKnow(s, a, DontKnow), z) == Look(s, z) == Look(s2, z);
    }
  }

  /** Updating the caller's own answer changes no other type in progress. */
  lemma SameVisiting(g: Graph, s: State, s': State, a: nat)
    requires Valid(g, s) && Valid(g, s') && ExtendsBut(s, s', a)
    ensures forall z: Ty | z < |g| :: Visiting(s, z) == Visiting(s', z)
    ensures forall z | z in s.m && Visiting(s, z) && s.m[z] != a :: Look(s', z) == Look(s, z)
  {
    SameIdle(g, s, s', a);
    forall z: Ty | z < |g| ensures Visiting(s, z) == Visiting(s', z) {
      assert z in Idle(g, s) <==> z in Idle(g, s');
    }
    forall z | z in s.m && Visiting(s, z) && s.m[z] != a ensures Look(s', z) == Look(s, z) {
      assert s'.infos[a := s.infos[a]][s.m[z]] == s.infos[s.m[z]];
    }
  }

  lemma {:induction false} FieldsDecide(g: Graph, t: Ty, s: State, x: Ty, i: nat)
    requires WF(g) && TrapFree(g, t) && Valid(g, s) && x < |g| && x != t && Visiting(s, x)
    requires g[x].Struct? && i <= |g[x].fields| && Look(s, x).know != No
    requires AllRight(g, t, s) && Below(g, t, s, x)
    ensures SearchResult(g, t, SearchFields(g, t, s, x, i), x)
    decreases Idle(g, s), 2, |g[x].fields| - i
  {
    if i == |g[x].fields| {
    } else if !g[x].fields[i].exported {
      FieldsDecide(g, t, s, x, i + 1);
    } else {
      var s1 := OneField(g, t, s, x, i);
      FieldsDecide(g, t, s1, x, i + 1);
    }
  }

  lemma {:induction false} OneField(g: Graph, t: Ty, s: State, x: Ty, i: nat) returns (s1: State)
    requires WF(g) && TrapFree(g, t) && Valid(g, s) && x < |g| && x != t && Visiting(s, x)
    requires g[x].Struct? && i < |g[x].fields| && g[x].fields[i].exported && Look(s, x).know != No
    requires AllRight(g, t, s) && Below(g, t, s, x)
    ensures Edge(g, x, g[x].fields[i].ty) && Mentions(g, x, g[x].fields[i].ty)
    ensures s1 == AskAlso(g, t, s, x, g[x].fields[i].ty)
    ensures Valid(g, s1) && Visiting(s1, x) && s1.m[x] == s.m[x] && Idle(g, s) == Idle(g, s1)
    ensures Look(s1, x).know != No && AllRight(g, t, s1) && Below(g, t, s1, x)
    ensures Below(g, t, SetKnow(s, s.m[x], DontKnow), x)
    decreases Idle(g, s), 1, 1
  {
    var y := g[x].fields[i].ty;
    assert Edge(g, x, y);
    EdgeInGraph(g, x, y);
    var a := s.m[x];
    assert Below(g, t, SetKnow(s, a, DontKnow), x) by {
      forall z: Ty | Visiting(SetKnow(s, a, DontKnow), z) && Look(SetKnow(s, a, DontKnow), z).know == No
        ensures g[z].Map? && Leads(g, t, g[z].elem, x)
      {
        assert Look(SetKnow(s, a, DontKnow), z) == Look(s, z);
      }
    }
    Asked(g, t, s, x, y);
    var (r1, k) := CanReach(g, t, s, y);
    s1 := AskAlso(g, t, s, x, y);
    Continue(g, t, s, r1, x, Or(k, r1.infos[a].know));
    SameIdle(g, s, s1, a);
  }

  // ----- A search finds every route that avoids the types already in progress -----

  ghost predicate Clear(g: Graph, s: State, p: seq<Ty>)
    requires Valid(g, s)
  {
    forall i | 0 <= i < |p| :: !Visiting(s, p[i])
  }

  /** A route from `x` can be cut to one that leaves `x` for good. */
  lemma {:induction false} LastVisit(g: Graph, t: Ty, x: Ty, p: seq<Ty>) returns (q: seq<Ty>)
    requires Route(g, t, x, p)
    ensures Route(g, t, x, q) && x !in q[1..] && forall y | y in q :: y in p
  {
    if x in p[1..] {
      var i :| 1 <= i < |p| && p[i] == x;
      q := LastVisit(g, t, x, p[i..]);
    } else {
      q := p;
    }
  }

  lemma {:induction false} Finds(g: Graph, t: Ty, s: State, x: Ty, p: seq<Ty>)
    requires WF(g) && TrapFree(g, t) && Valid(g, s) && x < |g|
    requires AllRight(g, t, s) && Below(g, t, s, x)
    requires Route(g, t, x, p) && Clear(g, s, p)
    ensures CanReach(g, t, s, x).1 == Yes
    decreases Idle(g, s), 0, 0
  {
    assert !Visiting(s, p[0]);
    if x in s.m && Settled(Look(s, x)) {
    } else if x == t {
    } else {
      var s2 := SetVisiting(Allocate(s, x), |s.infos|, true);
      Begin(g, s, x);
      Started(g, t, s, x);
      var q := LastVisit(g, t, x, p);
      forall i | 0 <= i < |q[1..]| ensures !Visiting(s2, q[1..][i]) {
        assert q[i + 1] in p && q[i + 1] in q[1..];
        assert !Visiting(s, q[i + 1]);
      }
      SearchFinds(g, t, s2, x, q);
    }
  }

  lemma {:induction false} SearchFinds(g: Graph, t: Ty, s: State, x: Ty, q: seq<Ty>)
    requires WF(g) && TrapFree(g, t) && Valid(g, s) && x < |g| && x != t
    requires Visiting(s, x) && Look(s, x).know == DontKnow
    requires AllRight(g, t, s) && Below(g, t, s, x)
    requires Route(g, t, x, q) && Clear(g, s, q[1..])
    ensures Look(Search(g, t, s, x), x).know == Yes
    decreases Idle(g, s), 3, 0
  {
    hide CanReach, AllRight, Below, TrapFree, Leads, Reaches;
    assert SetKnow(s, s.m[x], DontKnow) == s;
    if |q| > 1 {
      assert Edge(g, q[0], q[1]) && Route(g, t, q[1], q[1..]);
      match g[x]
      case Ptr(e) => AskFinds(g, t, s, x, e, q[1..]);
      case List(e) => AskFinds(g, t, s, x, e, q[1..]);
      case Struct(fs) =>
        var i :| 0 <= i < |fs| && fs[i].exported && fs[i].ty == q[1];
        FieldsFind(g, t, s, x, 0, i, q[1..]);
      case Map(k, e) =>
        var s1 := HalfMap(g, t, s, x, k, e);
        if q[1] == k {
          AskFinds(g, t, s, x, k, q[1..]);
        } else {
          SameVisiting(g, s, s1, s.m[x]);
          AskFinds(g, t, s1, x, e, q[1..]);
        }
    }
  }

  lemma {:induction false} AskFinds(g: Graph, t: Ty, s: State, x: Ty, y: Ty, p: seq<Ty>)
    requires WF(g) && TrapFree(g, t) && Valid(g, s) && x < |g| && x != t && Visiting(s, x)
    requires Edge(g, x, y) && (Look(s, x).know == No ==> g[x].Map? && g[x].elem == y)
    requires AllRight(g, t, s) && Below(g, t, SetKnow(s, s.m[x], DontKnow), x)
    requires Route(g, t, y, p) && Clear(g, s, p)
    ensures y < |g| && CanReach(g, t, s, y).1 == Yes
    decreases Idle(g, s), 1, 0
  {
    EdgeInGraph(g, x, y);
    BelowMember(g, t, s, x, y);
    Finds(g, t, s, y, p);
  }

  lemma {:induction false} YesStays(g: Graph, t: Ty, s: State, x: Ty, i: nat)
    requires WF(g) && Valid(g, s) && x < |g| && Visiting(s, x)
    requires g[x].Struct? && i <= |g[x].fields| && Look(s, x).know == Yes
    ensures Look(SearchFields(g, t, s, x, i), x).know == Yes
    decreases Idle(g, s), 2, |g[x].fields| - i
  {
    if i == |g[x].fields| {
    } else if !g[x].fields[i].exported {
      YesStays(g, t, s, x, i + 1);
    } else {
      var s1 := AskAlso(g, t, s, x, g[x].fields[i].ty);
      SameIdle(g, s, s1, s.m[x]);
      YesStays(g, t, s1, x, i + 1);
    }
  }

  lemma ClearStill(g: Graph, s: State, s': State, a: nat, p: seq<Ty>)
    requires Valid(g, s) && Valid(g, s') && ExtendsBut(s, s', a) && Path(g, p) && Clear(g, s, p)
    ensures Clear(g, s', p)
  {
    SameVisiting(g, s, s', a);
  }

  lemma {:induction false} FieldFinds(g: Graph, t: Ty, s: State, x: Ty, j: nat, p: seq<Ty>)
    requires WF(g) && TrapFree(g, t) && Valid(g, s) && x < |g| && x != t && Visiting(s, x)
    requires g[x].Struct? && j < |g[x].fields| && Look(s, x).know != No
    requires AllRight(g, t, s) && Below(g, t, s, x)
    requires g[x].fields[j].exported && Route(g, t, g[x].fields[j].ty, p) && Clear(g, s, p)
    ensures Look(SearchFields(g, t, s, x, j), x).know == Yes
    decreases Idle(g, s), 1, 1
  {
    var s1 := OneField(g, t, s, x, j);
    AskFinds(g, t, s, x, g[x].fields[j].ty, p);
    YesStays(g, t, s1, x, j + 1);
  }

  /** A struct in the middle of its loop, with a route for its field `j` still ahead. */
  ghost predicate Ahead(g: Graph, t: Ty, s: State, x: Ty, i: nat, j: nat, p: seq<Ty>)
    requires WF(g)
  {
    && Valid(g, s) && x < |g| && x != t && Visiting(s, x)
    && g[x].Struct? && i <= j < |g[x].fields| && Look(s, x).know != No
    && AllRight(g, t, s) && Below(g, t, s, x)
    && g[x].fields[j].exported && Route(g, t, g[x].fields[j].ty, p) && Clear(g, s, p)
  }

  lemma {:induction false} PassField(g: Graph, t: Ty, s: State, x: Ty, i: nat, j: nat, p: seq<Ty>)
    returns (s1: State)
    requires WF(g) && TrapFree(g, t) && Ahead(g, t, s, x, i, j, p) && i < j
    ensures Ahead(g, t, s1, x, i + 1, j, p) && Idle(g, s1) == Idle(g, s)
    ensures s1.m[x] == s.m[x] && SearchFields(g, t, s, x, i) == SearchFields(g, t, s1, x, i + 1)
    decreases Idle(g, s), 1, 2
  {
    s1 := s;
    if g[x].fields[i].exported {
      s1 := OneField(g, t, s, x, i);
      ClearStill(g, s, s1, s.m[x], p);
    }
  }

  /** The loop from field `i` on answers yes once a later field `j` has a route. */
  lemma {:induction false} FieldsFind(g: Graph, t: Ty, s: State, x: Ty, i: nat, j: nat, p: seq<Ty>)
    requires WF(g) && TrapFree(g, t) && Ahead(g, t, s, x, i, j, p)
    ensures Look(SearchFields(g, t, s, x, i), x).know == Yes
    decreases Idle(g, s), 2, |g[x].fields| - i
  {
    var s1, k := s, i;
    while k < j
      invariant Ahead(g, t, s1, x, k, j, p) && Idle(g, s1) == Idle(g, s)
      invariant s1.m[x] == s.m[x] && SearchFields(g, t, s, x, i) == SearchFields(g, t, s1, x, k)
    {
      hide WF, TrapFree, AllRight, Below, Clear, Route, SearchFields, Idle;
      s1 := PassField(g, t, s1, x, k, j, p);
      k := k + 1;
    }
    FieldFinds(g, t, s1, x, j, p);
  }
}
