/** Every cache that any history of calls can build, and the exact conditions on the type graph under
    which all of them are right and free of captured dummies. */
module Histories {
  import opened TypeGraph
  import opened ReachSearch
  import opened ReachCorrect
  import opened Compiler
  import opened CompilerCorrect
  import opened Traversal
  import opened TraversalCorrect
  import opened CompileOrder
  import opened Knots
  import opened Asking
  import opened Traps

  /** The cache after asking for the types of `h` in turn, starting from nothing. */
  function After(g: Graph, t: Ty, h: seq<Ty>): (s: State)
    requires WF(g) && Legal(g, h)
    ensures Quiet(g, s)
    decreases |h|
  {
    if h == [] then Fresh else GetTrav(g, t, After(g, t, h[..|h| - 1]), h[|h| - 1]).0
  }

  lemma AfterOneMore(g: Graph, t: Ty, h: seq<Ty>, x: Ty)
    requires WF(g) && Legal(g, h) && x < |g|
    ensures Legal(g, h + [x]) && After(g, t, h + [x]) == GetTrav(g, t, After(g, t, h), x).0
  {
    hide GetTrav;
    var h' := h + [x];
    assert h'[..|h'| - 1] == h && h'[|h'| - 1] == x;
  }

  lemma {:induction false} AfterSound(g: Graph, t: Ty, h: seq<Ty>)
    requires WF(g) && TrapFree(g, t) && Legal(g, h)
    ensures Sound(g, t, After(g, t, h))
    decreases |h|
  {
    if h == [] {
      FreshSound(g, t);
    } else {
      hide GetTrav, AllRight, AllBuilt;
      AfterSound(g, t, h[..|h| - 1]);
      GetTravSound(g, t, After(g, t, h[..|h| - 1]), h[|h| - 1]);
    }
  }

  // ----- Springing a trap -----

  lemma GetTravDull(g: Graph, t: Ty, s: State, x: Ty)
    requires WF(g) && Quiet(g, s) && Dull(g, t, s) && Spread(g, t, s) && x < |g| && !Reaches(g, t, x)
    ensures var s' := GetTrav(g, t, s, x).0;
            && Dull(g, t, s') && Spread(g, t, s') && Denied(g, s', x)
            && forall y | Denied(g, s, y) :: Denied(g, s', y)
  {
    hide Compile;
    var (s1, k) := CanReach(g, t, s, x);
    DullReach(g, t, s, x);
    SpreadReach(g, t, s, x);
    Searched(g, s, s1);
    assert Look(s1, x).know == k && k != Yes;
    if k == DontKnow {
      var s2 := SetKnow(s1, s1.m[x], No);
      Hardened(g, s, s1, x);
      assert forall y | y in s2.m && y != x :: Look(s2, y) == Look(s1, y);
      assert Look(s2, x) == Look(s1, x).(know := No);
    }
  }

  lemma {:induction false} SpreadPath(g: Graph, t: Ty, s: State, p: seq<Ty>)
    requires WF(g) && Quiet(g, s) && Spread(g, t, s) && Path(g, p) && |p| > 0 && p[0] in s.m
    requires forall i | 0 <= i < |p| - 1 :: p[i] != t
    ensures p[|p| - 1] in s.m
  {
    if |p| > 1 {
      assert Edge(g, p[1 - 1], p[1]);
      SpreadPath(g, t, s, p[1..]);
    }
  }

  lemma TrapEnds(g: Graph, t: Ty, m: Ty, x: Ty)
    requires WF(g) && Trap(g, t, m, x)
    ensures x != m && Reaches(g, t, x)
  {
    ReachesStep(g, t, x, m);
    if x == m { NoSelfRoute(g, t, x); }
  }

  /** Searching the map of a trap, once its key is known not to reach, denies `x`. */
  lemma MapSprings(g: Graph, t: Ty, s: State, m: Ty, x: Ty)
    requires WF(g) && Quiet(g, s) && Dull(g, t, s) && Spread(g, t, s) && Trap(g, t, m, x)
    requires Denied(g, s, g[m].key) && (g[x].Map? ==> Denied(g, s, g[x].key))
    ensures Denied(g, CanReach(g, t, s, m).0, x)
  {
    hide CanReach, Reaches;
    TrapEnds(g, t, m, x);
    var s' := CanReach(g, t, s, m).0;
    MapPoisons(g, t, s, m, x);
    SpreadReach(g, t, s, m);
    Searched(g, s, s');
    assert Edge(g, m, g[m].elem) && g[m].elem in s'.m;
    var p :| Trail(g, t, g[m].elem, x, p);
    SpreadPath(g, t, s', p);
  }

  lemma MapPoisons(g: Graph, t: Ty, s: State, m: Ty, x: Ty)
    requires WF(g) && Quiet(g, s) && Dull(g, t, s) && Trap(g, t, m, x) && x != m && Reaches(g, t, x)
    requires Denied(g, s, g[m].key) && (g[x].Map? ==> Denied(g, s, g[x].key))
    ensures var s' := CanReach(g, t, s, m).0; x in s'.m ==> Denied(g, s', x)
  {
    assert m !in s.m && x !in s.m;
    var s3 := Poisons(g, t, s, m, x);
    hide CanReach;
    var e := g[m].elem;
    EdgeInGraph(g, m, e);
    PoisonReach(g, t, s3, e, m, x);
    var (s4, k4) := CanReach(g, t, s3, e);
    MapSecondHalf(g, t, s, s3, m);
    MapFinish(g, s3, s4, m, Or(k4, s4.infos[|s.infos|].know), x);
  }

  /** How the search of a map ends once its key is answered. */
  lemma MapSecondHalf(g: Graph, t: Ty, s: State, s3: State, m: Ty)
    requires WF(g) && Valid(g, s) && m < |g| && m != t && g[m].Map? && (m in s.m ==> !Settled(Look(s, m)))
    requires var s2 := SetVisiting(Allocate(s, m), |s.infos|, true);
             && Mentions(g, m, g[m].key) && Mentions(g, m, g[m].elem)
             && Valid(g, s2) && Visiting(s2, m) && s3 == Ask(g, t, s2, m, g[m].key)
    ensures var (s4, k4) := CanReach(g, t, s3, g[m].elem);
            && s3.m[m] == |s.infos| < |s4.infos|
            && CanReach(g, t, s, m).0 ==
               SetVisiting(SetKnow(s4, |s.infos|, Or(k4, s4.infos[|s.infos|].know)), |s.infos|, false)
  {
    var s2 := SetVisiting(Allocate(s, m), |s.infos|, true);
    assert Search(g, t, s2, m) == AskAlso(g, t, s3, m, g[m].elem);
  }

  lemma Poisons(g: Graph, t: Ty, s: State, m: Ty, x: Ty) returns (s3: State)
    requires WF(g) && Quiet(g, s) && Trap(g, t, m, x) && x != m && m !in s.m && x !in s.m
    requires Denied(g, s, g[m].key) && (g[x].Map? ==> Denied(g, s, g[x].key))
    ensures Mentions(g, m, g[m].key)
    ensures var s2 := SetVisiting(Allocate(s, m), |s.infos|, true);
            && Valid(g, s2) && Visiting(s2, m) && s3 == Ask(g, t, s2, m, g[m].key)
    ensures Valid(g, s3) && s3.m[m] == |s.infos| && Poisoned(g, t, s3, m, x)
  {
    hide Reaches, Leads, Search, CanReach, Extends, ExtendsBut, Idle;
    EdgeInGraph(g, m, g[m].key);
    var s2 := SetVisiting(Allocate(s, m), |s.infos|, true);
    Begin(g, s, m);
    assert forall z | z in s2.m && z != m :: Look(s2, z) == Look(s, z);
    KnownAnswer(g, t, s2, g[m].key);
    s3 := SetKnow(s2, |s.infos|, No);
    assert forall z | z in s3.m && z != m :: Look(s3, z) == Look(s, z);
  }

  lemma KnownAnswer(g: Graph, t: Ty, s: State, x: Ty)
    requires WF(g) && Valid(g, s) && x < |g| && Denied(g, s, x)
    ensures CanReach(g, t, s, x) == (s, No)
  {}

  lemma MapFinish(g: Graph, s3: State, s4: State, m: Ty, k: Knowledge, x: Ty)
    requires Valid(g, s3) && Valid(g, s4) && Extends(s3, s4) && Visiting(s3, m) && x != m
    requires x in s4.m ==> Denied(g, s4, x)
    ensures var s5 := SetVisiting(SetKnow(s4, s3.m[m], k), s3.m[m], false);
            Valid(g, s5) && (x in s5.m ==> Denied(g, s5, x))
  {
    var s5 := SetVisiting(SetKnow(s4, s3.m[m], k), s3.m[m], false);
    assert s4.m[m] == s3.m[m];
    assert forall z | z in s5.m && z != m :: Look(s5, z) == Look(s4, z);
  }

  /** What a search has denied stays denied while the traverser is compiled. */
  lemma DeniedStays(g: Graph, t: Ty, s: State, m: Ty, x: Ty)
    requires WF(g) && Quiet(g, s) && m < |g| && Denied(g, CanReach(g, t, s, m).0, x)
    ensures Denied(g, GetTrav(g, t, s, m).0, x)
  {
    hide CanReach, Compile;
    var (s1, k) := CanReach(g, t, s, m);
    Searched(g, s, s1);
    var a := s1.m[m];
    if s1.infos[a].trav != NoTrav || k == No {
    } else if k == DontKnow {
      Hardened(g, s, s1, m);
    } else if m == t {
      Installed(g, s, s1, m, CallF);
    } else {
      Installed(g, s1, s1, m, Dummy);
      var (s3, tr) := Compile(g, t, SetTrav(s1, a, Dummy), m);
      Tied(g, s1, s1, s3, m, tr);
    }
  }

  /** The failing history: ask for the key type, for the key type of `x` if it is a map, then for the
      map. */
  function Spring(g: Graph, m: Ty, x: Ty): seq<Ty>
    requires m < |g| && x < |g| && g[m].Map?
  {
    [g[m].key] + (if g[x].Map? then [g[x].key] else []) + [m]
  }

  lemma TrapSprings(g: Graph, t: Ty, m: Ty, x: Ty)
    requires WF(g) && Trap(g, t, m, x)
    ensures Legal(g, Spring(g, m, x))
    ensures Reaches(g, t, x) && Denied(g, After(g, t, Spring(g, m, x)), x)
    ensures !AllRight(g, t, After(g, t, Spring(g, m, x)))
  {
    hide GetTrav, CanReach, Dull, Spread, AllRight, Reaches, Leads;
    TrapEnds(g, t, m, x);
    var k := g[m].key;
    DullFirst(g, t, k);
    if g[x].Map? {
      var k' := g[x].key;
      GetTravDull(g, t, After(g, t, [k]), k');
      AfterOneMore(g, t, [k], k');
      Sprung(g, t, After(g, t, [k] + [k']), m, x);
      AfterOneMore(g, t, [k] + [k'], m);
    } else {
      Sprung(g, t, After(g, t, [k]), m, x);
      AfterOneMore(g, t, [k], m);
      assert [k] + [] + [m] == [k] + [m];
    }
  }

  lemma DullFirst(g: Graph, t: Ty, k: Ty)
    requires WF(g) && k < |g| && !Reaches(g, t, k)
    ensures Legal(g, [k])
    ensures var s := After(g, t, [k]); Dull(g, t, s) && Spread(g, t, s) && Denied(g, s, k)
  {
    hide GetTrav, Reaches;
    GetTravDull(g, t, Fresh, k);
    AfterOneMore(g, t, [], k);
    assert [] + [k] == [k];
  }

  lemma Sprung(g: Graph, t: Ty, s: State, m: Ty, x: Ty)
    requires WF(g) && Quiet(g, s) && Dull(g, t, s) && Spread(g, t, s) && Trap(g, t, m, x) && Reaches(g, t, x)
    requires Denied(g, s, g[m].key) && (g[x].Map? ==> Denied(g, s, g[x].key))
    ensures var s' := GetTrav(g, t, s, m).0; Denied(g, s', x) && !AllRight(g, t, s')
  {
    MapSprings(g, t, s, m, x);
    DeniedStays(g, t, s, m, x);
    var s' := GetTrav(g, t, s, m).0;
    assert !Right(g, t, x, Look(s', x));
  }

  /** All cached answers are right after every history exactly when the type graph has no trap. */
  lemma AnswersRightIffTrapFree(g: Graph, t: Ty)
    requires WF(g)
    ensures TrapFree(g, t) <==> forall h | Legal(g, h) :: AllRight(g, t, After(g, t, h))
  {
    if TrapFree(g, t) {
      forall h | Legal(g, h) ensures AllRight(g, t, After(g, t, h)) {
        AfterSound(g, t, h);
      }
    } else {
      var m, x :| Trap(g, t, m, x);
      TrapSprings(g, t, m, x);
    }
  }

  // ----- Knots -----

  lemma {:induction false} AfterAsks(g: Graph, t: Ty, h: seq<Ty>)
    requires WF(g) && Legal(g, h)
    ensures After(g, t, h) == AskAll(g, t, Fresh, h)
    decreases |h|
  {
    AfterNothing(g, t);
    hide After, AskAll, GetTrav, Quiet, WF;
    if h != [] {
      var h0, x := h[..|h| - 1], h[|h| - 1];
      assert h0 + [x] == h;
      AfterAsks(g, t, h0);
      AfterOneMore(g, t, h0, x);
      AskMore(g, t, Fresh, h0, [x]);
      AskOne(g, t, AskAll(g, t, Fresh, h0), x);
    }
  }

  lemma AfterNothing(g: Graph, t: Ty)
    requires WF(g)
    ensures Quiet(g, Fresh) && After(g, t, []) == Fresh && AskAll(g, t, Fresh, []) == Fresh
  {}

  lemma FreshPure(g: Graph)
    ensures Valid(g, Fresh) && Pure(g, Fresh) && Done(Travs(g, Fresh)) == {} && Open(Travs(g, Fresh)) == {}
  {}

  /** A history captures no dummy exactly if the walk of the type graph in its order goes well. */
  lemma PureAfterIff(g: Graph, t: Ty, h: seq<Ty>)
    requires WF(g) && TrapFree(g, t) && Legal(g, h)
    ensures Pure(g, After(g, t, h)) <==> VisitAll(g, t, {}, h).bad == {}
  {
    FreshSound(g, t);
    FreshPure(g);
    AfterAsks(g, t, h);
    StaysPureIff(g, t, Fresh, h);
  }

  /** And the types whose traversers hold the dummy are exactly those that the walk names. */
  lemma CapturedExactly(g: Graph, t: Ty, h: seq<Ty>, y: Ty)
    requires WF(g) && TrapFree(g, t) && Legal(g, h) && y < |g|
    ensures Captured(Travs(g, After(g, t, h))[y]) <==> y in VisitAll(g, t, {}, h).bad
  {
    FreshSound(g, t);
    FreshPure(g);
    AfterAsks(g, t, h);
    AskAllVisits(g, t, Fresh, h);
    var v := Travs(g, After(g, t, h));
    var r := VisitAll(g, t, {}, h);
    hide Reaches, TrapFree, After, VisitAll, Travs;
    assert y in r.done <==> y in Done(v);
  }

  /** In a graph without traps, no history captures the dummy exactly when no pointer, map, array or
      slice type lies on a cycle of types that are compiled for one another. */
  lemma NoDummyIffKnotFree(g: Graph, t: Ty)
    requires WF(g) && TrapFree(g, t)
    ensures KnotFree(g, t) <==> forall h | Legal(g, h) :: Pure(g, After(g, t, h))
  {
    NoBadIffKnotFree(g, t);
    hide KnotFree, Pure, After, VisitAll, TrapFree, WF;
    forall h | Legal(g, h) ensures Pure(g, After(g, t, h)) <==> VisitAll(g, t, {}, h).bad == {} {
      PureAfterIff(g, t, h);
    }
    if forall h | Legal(g, h) :: Pure(g, After(g, t, h)) {
      forall h: seq<Ty> | forall i | 0 <= i < |h| :: h[i] < |g| ensures VisitAll(g, t, {}, h).bad == {} {
        assert Legal(g, h);
      }
    }
  }
}
