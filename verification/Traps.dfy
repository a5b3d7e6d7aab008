/** A trap springs: two or three calls on a fresh cache leave a wrong answer in it for good. */
module Traps {
  import opened TypeGraph
  import opened ReachSearch
  import opened ReachCorrect
  import opened Compiler

  // ----- Searching types that cannot reach -----

  /** The cache has only seen types that cannot reach, and knows it of no other. */
  ghost predicate Dull(g: Graph, t: Ty, s: State)
    requires Valid(g, s)
  {
    forall y | y in s.m :: !Reaches(g, t, y) && Look(s, y).know != Yes
  }

  lemma {:induction false} DullReach(g: Graph, t: Ty, s: State, x: Ty)
    requires WF(g) && Valid(g, s) && x < |g| && Dull(g, t, s) && !Reaches(g, t, x)
    ensures Dull(g, t, CanReach(g, t, s, x).0)
    decreases Idle(g, s), 0, 0
  {
    if x in s.m && Settled(Look(s, x)) {
    } else if x == t {
      ReachesHit(g, t, x);
    } else {
      hide Reaches, Search, Extends, ExtendsBut;
      var s2 := SetVisiting(Allocate(s, x), |s.infos|, true);
      Begin(g, s, x);
      assert forall y | y in s2.m && y != x :: Look(s2, y) == Look(s, y);
      DullSearch(g, t, s2, x);
      var s3 := Search(g, t, s2, x);
      var s4 := SetVisiting(s3, |s.infos|, false);
      Finish(g, s, s3, x);
      assert forall y | y in s4.m :: Look(s4, y).know == Look(s3, y).know;
    }
  }

  lemma {:induction false} DullSearch(g: Graph, t: Ty, s: State, x: Ty)
    requires WF(g) && Valid(g, s) && x < |g| && Visiting(s, x) && Dull(g, t, s)
    ensures Dull(g, t, Search(g, t, s, x))
    decreases Idle(g, s), 3, 0
  {
    match g[x]
    case Ptr(e) => DullAsk(g, t, s, x, e, false);
    case List(e) => DullAsk(g, t, s, x, e, false);
    case Map(k, e) =>
      EdgeInGraph(g, x, k);
      DullAsk(g, t, s, x, k, false);
      var s1 := Ask(g, t, s, x, k);
      SameIdle(g, s, s1, s.m[x]);
      DullAsk(g, t, s1, x, e, true);
    case Struct(fs) => DullFields(g, t, s, x, 0);
    case Iface => ReachesHit(g, t, x);
    case Leaf =>
  }

  lemma {:induction false} DullAsk(g: Graph, t: Ty, s: State, x: Ty, y: Ty, also: bool)
    requires WF(g) && Valid(g, s) && x < |g| && Visiting(s, x) && Dull(g, t, s) && Edge(g, x, y)
    ensures Mentions(g, x, y) && y < |g|
    ensures Dull(g, t, if also then AskAlso(g, t, s, x, y) else Ask(g, t, s, x, y))
    decreases Idle(g, s), 1, 0
  {
    hide CanReach, Reaches, ExtendsBut, Idle;
    EdgeInGraph(g, x, y);
    if Reaches(g, t, y) { ReachesStep(g, t, x, y); }
    DullReach(g, t, s, y);
    var (s1, k) := CanReach(g, t, s, y);
    var k' := if also then Or(k, s1.infos[s.m[x]].know) else k;
    assert Look(s1, x) == s1.infos[s.m[x]];
    var s2 := SetKnow(s1, s.m[x], k');
    Noted(g, s, s1, s.m[x], k');
    assert forall z | z in s2.m && z != x :: Look(s2, z) == Look(s1, z);
  }

  lemma {:induction false} DullFields(g: Graph, t: Ty, s: State, x: Ty, i: nat)
    requires WF(g) && Valid(g, s) && x < |g| && Visiting(s, x) && Dull(g, t, s)
    requires g[x].Struct? && i <= |g[x].fields|
    ensures Dull(g, t, SearchFields(g, t, s, x, i))
    decreases Idle(g, s), 2, |g[x].fields| - i
  {
    hide CanReach;
    if i == |g[x].fields| {
    } else if g[x].fields[i].exported {
      var y := g[x].fields[i].ty;
      assert Edge(g, x, y);
      DullAsk(g, t, s, x, y, true);
      var s1 := AskAlso(g, t, s, x, y);
      SameIdle(g, s, s1, s.m[x]);
      DullFields(g, t, s1, x, i + 1);
    } else {
      DullFields(g, t, s, x, i + 1);
    }
  }

  // ----- What has been searched is closed under edges -----

  ghost predicate Spread(g: Graph, t: Ty, s: State)
    requires WF(g) && Valid(g, s)
  {
    forall x, y | x in s.m && x != t && !Look(s, x).visiting && Edge(g, x, y) :: y in s.m
  }

  lemma {:induction false} SpreadReach(g: Graph, t: Ty, s: State, x: Ty)
    requires WF(g) && Valid(g, s) && x < |g| && Spread(g, t, s)
    ensures Spread(g, t, CanReach(g, t, s, x).0)
    decreases Idle(g, s), 0, 0
  {
    if x in s.m && Settled(Look(s, x)) {
    } else if x == t {
      SpreadStart(g, t, s, x);
    } else {
      SpreadStart(g, t, s, x);
      Begin(g, s, x);
      var s2 := SetVisiting(Allocate(s, x), |s.infos|, true);
      SpreadSearch(g, t, s2, x);
      SpreadStop(g, t, s, Search(g, t, s2, x), x);
    }
  }

  lemma SpreadStart(g: Graph, t: Ty, s: State, x: Ty)
    requires WF(g) && Valid(g, s) && x < |g| && Spread(g, t, s)
    ensures var s1 := SetVisiting(Allocate(s, x), |s.infos|, true); Valid(g, s1) && Spread(g, t, s1)
    ensures x == t ==>
              var s1 := SetKnow(Allocate(s, x), |s.infos|, Yes); Valid(g, s1) && Spread(g, t, s1)
  {
    var s1 := SetVisiting(Allocate(s, x), |s.infos|, true);
    assert forall z | z in s1.m && z != x :: Look(s1, z) == Look(s, z);
    var s2 := SetKnow(Allocate(s, x), |s.infos|, Yes);
    assert forall z | z in s2.m && z != x :: Look(s2, z) == Look(s, z);
  }

  lemma SpreadStop(g: Graph, t: Ty, s: State, s3: State, x: Ty)
    requires WF(g) && Valid(g, s) && Valid(g, s3) && x < |g| && (x in s.m ==> !Settled(Look(s, x)))
    requires ExtendsBut(SetVisiting(Allocate(s, x), |s.infos|, true), s3, |s.infos|)
    requires SpreadHere(g, t, s3, x)
    ensures var s' := SetVisiting(s3, |s.infos|, false); Valid(g, s') && Spread(g, t, s')
  {
    Finish(g, s, s3, x);
    var s4 := SetVisiting(s3, |s.infos|, false);
    assert forall z | z in s4.m && z != x :: Look(s4, z) == Look(s3, z);
  }

  ghost predicate SpreadHere(g: Graph, t: Ty, s: State, x: Ty)
    requires WF(g) && Valid(g, s) && x < |g|
  {
    Spread(g, t, s) && forall y | Edge(g, x, y) :: y in s.m
  }

  lemma {:induction false} SpreadSearch(g: Graph, t: Ty, s: State, x: Ty)
    requires WF(g) && Valid(g, s) && x < |g| && Visiting(s, x) && Spread(g, t, s)
    ensures SpreadHere(g, t, Search(g, t, s, x), x)
    decreases Idle(g, s), 3, 0
  {
    hide CanReach;
    match g[x]
    case Ptr(e) => SpreadAsk(g, t, s, x, e, false);
    case List(e) => SpreadAsk(g, t, s, x, e, false);
    case Map(k, e) =>
      EdgeInGraph(g, x, k);
      SpreadAsk(g, t, s, x, k, false);
      var s1 := Ask(g, t, s, x, k);
      SameIdle(g, s, s1, s.m[x]);
      SpreadAsk(g, t, s1, x, e, true);
    case Struct(fs) =>
      SpreadFields(g, t, s, x, 0);
      forall y | Edge(g, x, y) ensures y in SearchFields(g, t, s, x, 0).m {
        var i :| 0 <= i < |fs| && fs[i].exported && fs[i].ty == y;
        FieldSeen(g, t, s, x, 0, i);
      }
    case Iface => SpreadNoted(g, t, s, s, x, Yes);
    case Leaf =>
  }

  lemma SpreadNoted(g: Graph, t: Ty, s: State, s1: State, x: Ty, k: Knowledge)
    requires WF(g) && Valid(g, s) && Valid(g, s1) && Visiting(s, x) && Extends(s, s1) && Spread(g, t, s1)
    ensures var s2 := SetKnow(s1, s.m[x], k); Valid(g, s2) && Spread(g, t, s2)
  {
    var s2 := SetKnow(s1, s.m[x], k);
    Noted(g, s, s1, s.m[x], k);
    assert forall z | z in s2.m && z != x :: Look(s2, z) == Look(s1, z);
  }

  lemma {:induction false} SpreadAsk(g: Graph, t: Ty, s: State, x: Ty, y: Ty, also: bool)
    requires WF(g) && Valid(g, s) && x < |g| && Visiting(s, x) && Spread(g, t, s) && Edge(g, x, y)
    ensures Mentions(g, x, y) && y < |g|
    ensures var s' := if also then AskAlso(g, t, s, x, y) else Ask(g, t, s, x, y);
            Spread(g, t, s') && y in s'.m && s.m.Keys <= s'.m.Keys
    decreases Idle(g, s), 1, 0
  {
    hide CanReach;
    EdgeInGraph(g, x, y);
    SpreadReach(g, t, s, y);
    var (s1, k) := CanReach(g, t, s, y);
    SpreadNoted(g, t, s, s1, x, if also then Or(k, s1.infos[s.m[x]].know) else k);
  }

  lemma {:induction false} SpreadFields(g: Graph, t: Ty, s: State, x: Ty, i: nat)
    requires WF(g) && Valid(g, s) && x < |g| && Visiting(s, x) && Spread(g, t, s)
    requires g[x].Struct? && i <= |g[x].fields|
    ensures Spread(g, t, SearchFields(g, t, s, x, i))
    decreases Idle(g, s), 2, |g[x].fields| - i
  {
    hide CanReach;
    if i == |g[x].fields| {
    } else if g[x].fields[i].exported {
      var y := g[x].fields[i].ty;
      assert Edge(g, x, y);
      SpreadAsk(g, t, s, x, y, true);
      var s1 := AskAlso(g, t, s, x, y);
      SameIdle(g, s, s1, s.m[x]);
      SpreadFields(g, t, s1, x, i + 1);
    } else {
      SpreadFields(g, t, s, x, i + 1);
    }
  }

  /** The loop from field `i` on searches every later exported field `j`. */
  lemma {:induction false} FieldSeen(g: Graph, t: Ty, s: State, x: Ty, i: nat, j: nat)
    requires WF(g) && Valid(g, s) && x < |g| && Visiting(s, x)
    requires g[x].Struct? && i <= j < |g[x].fields| && g[x].fields[j].exported
    ensures g[x].fields[j].ty in SearchFields(g, t, s, x, i).m
    decreases |g[x].fields| - i
  {
    hide CanReach;
    if g[x].fields[i].exported {
      assert Mentions(g, x, g[x].fields[i].ty);
      var s1 := AskAlso(g, t, s, x, g[x].fields[i].ty);
      if i < j {
        FieldSeen(g, t, s1, x, i + 1, j);
      } else {
        assert g[x].fields[j].ty in s1.m;
        assert s1.m.Keys <= SearchFields(g, t, s1, x, i + 1).m.Keys;
      }
    } else {
      FieldSeen(g, t, s, x, i + 1, j);
    }
  }

  // ----- While the map publishes its partial answer -----

  ghost predicate Denied(g: Graph, s: State, x: Ty)
    requires Valid(g, s)
  {
    x in s.m && Look(s, x).know == No
  }

  /** `m` shows its partial `no`, the other member of `x` is known not to reach, and `x` has not been
      searched before. */
  ghost predicate Poisoned(g: Graph, t: Ty, s: State, m: Ty, x: Ty)
    requires WF(g) && Valid(g, s)
  {
    && Trap(g, t, m, x) && x != m
    && Denied(g, s, m) && Visiting(s, m)
    && (g[x].Map? ==> Denied(g, s, g[x].key))
    && (x in s.m ==> Denied(g, s, x) && !Look(s, x).visiting)
  }

  lemma {:induction false} PoisonReach(g: Graph, t: Ty, s: State, y: Ty, m: Ty, x: Ty)
    requires WF(g) && Valid(g, s) && y < |g| && Poisoned(g, t, s, m, x)
    ensures Poisoned(g, t, CanReach(g, t, s, y).0, m, x)
    decreases Idle(g, s), 0, 0
  {
    if y in s.m && Settled(Look(s, y)) {
    } else if y == t {
      PoisonStart(g, t, s, y, m, x);
    } else {
      PoisonStart(g, t, s, y, m, x);
      Begin(g, s, y);
      var s2 := SetVisiting(Allocate(s, y), |s.infos|, true);
      if y == x {
        PoisonHere(g, t, s2, m, x);
        PoisonDone(g, t, s, m, x);
      } else {
        PoisonSearch(g, t, s2, y, m, x);
        PoisonStop(g, t, s, Search(g, t, s2, y), y, m, x);
      }
    }
  }

  lemma PoisonStart(g: Graph, t: Ty, s: State, y: Ty, m: Ty, x: Ty)
    requires WF(g) && Valid(g, s) && y < |g| && Poisoned(g, t, s, m, x) && (y in s.m ==> !Settled(Look(s, y)))
    ensures var s2 := SetVisiting(Allocate(s, y), |s.infos|, true);
            && Valid(g, s2)
            && (if y == x then Denied(g, s2, m) && Visiting(s2, m) && (g[x].Map? ==> Denied(g, s2, g[x].key))
                else Poisoned(g, t, s2, m, x))
    ensures y == t ==>
              var s1 := SetKnow(Allocate(s, y), |s.infos|, Yes); Valid(g, s1) && Poisoned(g, t, s1, m, x)
  {
    var s2 := SetVisiting(Allocate(s, y), |s.infos|, true);
    assert forall z | z in s2.m && z != y :: Look(s2, z) == Look(s, z);
    var s1 := SetKnow(Allocate(s, y), |s.infos|, Yes);
    assert forall z | z in s1.m && z != y :: Look(s1, z) == Look(s, z);
  }

  lemma PoisonStop(g: Graph, t: Ty, s: State, s3: State, y: Ty, m: Ty, x: Ty)
    requires WF(g) && Valid(g, s) && Valid(g, s3) && y < |g| && (y in s.m ==> !Settled(Look(s, y)))
    requires ExtendsBut(SetVisiting(Allocate(s, y), |s.infos|, true), s3, |s.infos|)
    requires Poisoned(g, t, s3, m, x) && y != x && y != m
    ensures var s' := SetVisiting(s3, |s.infos|, false); Valid(g, s') && Poisoned(g, t, s', m, x)
  {
    Finish(g, s, s3, y);
    var s4 := SetVisiting(s3, |s.infos|, false);
    assert forall z | z in s4.m && z != y :: Look(s4, z) == Look(s3, z);
  }

  lemma PoisonDone(g: Graph, t: Ty, s: State, m: Ty, x: Ty)
    requires WF(g) && Valid(g, s) && Poisoned(g, t, s, m, x) && x !in s.m
    ensures var s2 := SetVisiting(Allocate(s, x), |s.infos|, true);
            var s' := SetVisiting(SetKnow(s2, |s.infos|, No), |s.infos|, false);
            Valid(g, s') && Poisoned(g, t, s', m, x)
  {
    var s2 := SetVisiting(Allocate(s, x), |s.infos|, true);
    var s' := SetVisiting(SetKnow(s2, |s.infos|, No), |s.infos|, false);
    assert forall z | z in s'.m && z != x :: Look(s', z) == Look(s, z);
  }

  /** The search of `x` itself reads only answers that are already there. */
  lemma PoisonHere(g: Graph, t: Ty, s: State, m: Ty, x: Ty)
    requires WF(g) && Valid(g, s) && Trap(g, t, m, x) && x != m && Visiting(s, x) && Look(s, x).know == DontKnow
    requires Denied(g, s, m) && Visiting(s, m) && (g[x].Map? ==> Denied(g, s, g[x].key))
    ensures var s' := Search(g, t, s, x); s' == SetKnow(s, s.m[x], No)
  {
    hide Reaches, Leads, Extends, ExtendsBut, Idle;
    if g[x].Map? {
      assert Mentions(g, x, g[x].key);
      assert CanReach(g, t, s, g[x].key) == (s, No);
      var s1 := SetKnow(s, s.m[x], No);
      assert Ask(g, t, s, x, g[x].key) == s1;
      assert Look(s1, m) == Look(s, m);
      assert CanReach(g, t, s1, m) == (s1, No);
      assert AskAlso(g, t, s1, x, m) == SetKnow(s1, s.m[x], No) == s1;
    } else {
      assert CanReach(g, t, s, m) == (s, No);
    }
  }

  lemma PoisonNoted(g: Graph, t: Ty, s: State, s1: State, y: Ty, k: Knowledge, m: Ty, x: Ty)
    requires WF(g) && Valid(g, s) && Valid(g, s1) && Visiting(s, y) && Extends(s, s1)
    requires Poisoned(g, t, s1, m, x) && y != x && y != m && (g[x].Map? ==> y != g[x].key)
    ensures var s2 := SetKnow(s1, s.m[y], k); Valid(g, s2) && Poisoned(g, t, s2, m, x)
  {
    var s2 := SetKnow(s1, s.m[y], k);
    Noted(g, s, s1, s.m[y], k);
    assert forall z | z in s2.m && z != y :: Look(s2, z) == Look(s1, z);
  }

  lemma {:induction false} PoisonAsk(g: Graph, t: Ty, s: State, y: Ty, z: Ty, also: bool, m: Ty, x: Ty)
    requires WF(g) && Valid(g, s) && y < |g| && Visiting(s, y) && Mentions(g, y, z)
    requires Poisoned(g, t, s, m, x) && y != x && y != m && (g[x].Map? ==> y != g[x].key)
    ensures z < |g| && Poisoned(g, t, if also then AskAlso(g, t, s, y, z) else Ask(g, t, s, y, z), m, x)
    decreases Idle(g, s), 1, 0
  {
    hide CanReach;
    PoisonReach(g, t, s, z, m, x);
    var (s1, k) := CanReach(g, t, s, z);
    PoisonNoted(g, t, s, s1, y, if also then Or(k, s1.infos[s.m[y]].know) else k, m, x);
  }

  lemma {:induction false} PoisonSearch(g: Graph, t: Ty, s: State, y: Ty, m: Ty, x: Ty)
    requires WF(g) && Valid(g, s) && y < |g| && Visiting(s, y) && Look(s, y).know == DontKnow
    requires Poisoned(g, t, s, m, x) && y != x && y != t
    ensures Poisoned(g, t, Search(g, t, s, y), m, x)
    decreases Idle(g, s), 3, 0
  {
    hide CanReach;
    match g[y]
    case Ptr(e) => PoisonAsk(g, t, s, y, e, false, m, x);
    case List(e) => PoisonAsk(g, t, s, y, e, false, m, x);
    case Map(k, e) =>
      assert Mentions(g, y, k) && Mentions(g, y, e);
      PoisonAsk(g, t, s, y, k, false, m, x);
      var s1 := Ask(g, t, s, y, k);
      SameIdle(g, s, s1, s.m[y]);
      PoisonAsk(g, t, s1, y, e, true, m, x);
    case Struct(fs) => PoisonFields(g, t, s, y, 0, m, x);
    case Iface => PoisonNoted(g, t, s, s, y, Yes, m, x);
    case Leaf =>
  }

  lemma {:induction false} PoisonFields(g: Graph, t: Ty, s: State, y: Ty, i: nat, m: Ty, x: Ty)
    requires WF(g) && Valid(g, s) && y < |g| && Visiting(s, y) && g[y].Struct? && i <= |g[y].fields|
    requires Poisoned(g, t, s, m, x) && y != x && y != m && (g[x].Map? ==> y != g[x].key)
    ensures Poisoned(g, t, SearchFields(g, t, s, y, i), m, x)
    decreases Idle(g, s), 2, |g[y].fields| - i
  {
    hide CanReach;
    if i == |g[y].fields| {
    } else if g[y].fields[i].exported {
      var z := g[y].fields[i].ty;
      assert Mentions(g, y, z);
      PoisonAsk(g, t, s, y, z, true, m, x);
      var s1 := AskAlso(g, t, s, y, z);
      SameIdle(g, s, s1, s.m[y]);
      PoisonFields(g, t, s1, y, i + 1, m, x);
    } else {
      PoisonFields(g, t, s, y, i + 1, m, x);
    }
  }
}
