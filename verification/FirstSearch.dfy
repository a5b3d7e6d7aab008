/** Searches in a cache in which nothing has been denied yet: they are right in every graph, traps included,
    and never deny anything themselves.  It takes a traverser to be asked for to turn "don't know" into "no". */
module FirstSearch {
  import opened TypeGraph
  import opened ReachSearch
  import opened ReachCorrect

  /** Nothing is denied, and what is granted is granted rightly. */
  ghost predicate Hopeful(g: Graph, t: Ty, s: State)
    requires WF(g) && Valid(g, s)
  {
    forall x | x in s.m :: Look(s, x).know != No && (Look(s, x).know == Yes ==> Reaches(g, t, x))
  }

  lemma {:induction false} StaysHopeful(g: Graph, t: Ty, s: State, x: Ty)
    requires WF(g) && Valid(g, s) && x < |g| && Hopeful(g, t, s)
    ensures Hopeful(g, t, CanReach(g, t, s, x).0)
    decreases Idle(g, s), 0, 0
  {
    if x in s.m && Settled(Look(s, x)) {
    } else if x == t {
      ReachesHit(g, t, x);
    } else {
      hide Reaches, Search, Extends, ExtendsBut, Hopeful;
      var s2 := SetVisiting(Allocate(s, x), |s.infos|, true);
      Begin(g, s, x);
      AllocatedHopeful(g, t, s, x);
      SearchHopeful(g, t, s2, x);
      var s3 := Search(g, t, s2, x);
      Finish(g, s, s3, x);
      StoppedHopeful(g, t, s3, |s.infos|);
    }
  }

  lemma StoppedHopeful(g: Graph, t: Ty, s3: State, a: nat)
    requires WF(g) && Valid(g, s3) && a < |s3.infos| && Hopeful(g, t, s3)
    ensures Valid(g, SetVisiting(s3, a, false)) && Hopeful(g, t, SetVisiting(s3, a, false))
  {
    hide Reaches;
    var s4 := SetVisiting(s3, a, false);
    assert forall y | y in s4.m :: Look(s4, y).know == Look(s3, y).know;
  }

  lemma {:induction false} SearchHopeful(g: Graph, t: Ty, s: State, x: Ty)
    requires WF(g) && Valid(g, s) && x < |g| && Visiting(s, x) && Hopeful(g, t, s)
    ensures Hopeful(g, t, Search(g, t, s, x))
    decreases Idle(g, s), 3, 0
  {
    match g[x]
    case Ptr(e) => AskHopeful(g, t, s, x, e, false);
    case List(e) => AskHopeful(g, t, s, x, e, false);
    case Map(k, e) =>
      EdgeInGraph(g, x, k);
      AskHopeful(g, t, s, x, k, false);
      var s1 := Ask(g, t, s, x, k);
      SameIdle(g, s, s1, s.m[x]);
      AskHopeful(g, t, s1, x, e, true);
    case Struct(fs) => FieldsHopeful(g, t, s, x, 0);
    case Iface =>
      ReachesHit(g, t, x);
      assert forall y | y in s.m && y != x :: Look(SetKnow(s, s.m[x], Yes), y) == Look(s, y);
    case Leaf =>
  }

  lemma {:induction false} AskHopeful(g: Graph, t: Ty, s: State, x: Ty, y: Ty, also: bool)
    requires WF(g) && Valid(g, s) && x < |g| && Visiting(s, x) && Hopeful(g, t, s) && Edge(g, x, y)
    ensures Mentions(g, x, y) && y < |g|
    ensures Hopeful(g, t, if also then AskAlso(g, t, s, x, y) else Ask(g, t, s, x, y))
    decreases Idle(g, s), 1, 0
  {
    hide CanReach, Reaches, ExtendsBut, Idle;
    EdgeInGraph(g, x, y);
    if Reaches(g, t, y) { ReachesStep(g, t, x, y); }
    StaysHopeful(g, t, s, y);
    var (s1, k) := CanReach(g, t, s, y);
    assert Look(s1, x) == s1.infos[s.m[x]] && Look(s1, y).know == k;
    var k' := if also then Or(k, s1.infos[s.m[x]].know) else k;
    NotedHopeful(g, t, s1, x, k');
    hide Extends, Hopeful;
  }

  lemma NotedHopeful(g: Graph, t: Ty, s1: State, x: Ty, k: Knowledge)
    requires WF(g) && Valid(g, s1) && x in s1.m && Hopeful(g, t, s1) && k != No && (k == Yes ==> Reaches(g, t, x))
    ensures Valid(g, SetKnow(s1, s1.m[x], k)) && Hopeful(g, t, SetKnow(s1, s1.m[x], k))
  {
    hide Reaches;
    var s2 := SetKnow(s1, s1.m[x], k);
    assert forall z | z in s2.m && z != x :: Look(s2, z) == Look(s1, z);
  }

  lemma {:induction false} FieldsHopeful(g: Graph, t: Ty, s: State, x: Ty, i: nat)
    requires WF(g) && Valid(g, s) && x < |g| && Visiting(s, x) && Hopeful(g, t, s)
    requires g[x].Struct? && i <= |g[x].fields|
    ensures Hopeful(g, t, SearchFields(g, t, s, x, i))
    decreases Idle(g, s), 2, |g[x].fields| - i
  {
    hide CanReach;
    if i == |g[x].fields| {
    } else if g[x].fields[i].exported {
      var y := g[x].fields[i].ty;
      assert Edge(g, x, y);
      AskHopeful(g, t, s, x, y, true);
      var s1 := AskAlso(g, t, s, x, y);
      SameIdle(g, s, s1, s.m[x]);
      FieldsHopeful(g, t, s1, x, i + 1);
    } else {
      FieldsHopeful(g, t, s, x, i + 1);
    }
  }

  // ----- Every clear route is found -----

  lemma {:induction false} HopeFinds(g: Graph, t: Ty, s: State, x: Ty, p: seq<Ty>)
    requires WF(g) && Valid(g, s) && x < |g| && Hopeful(g, t, s) && Route(g, t, x, p) && Clear(g, s, p)
    ensures CanReach(g, t, s, x).1 == Yes
    decreases Idle(g, s), 0, 0
  {
    assert !Visiting(s, p[0]);
    if x in s.m && Settled(Look(s, x)) {
    } else if x == t {
    } else {
      hide Hopeful, Search, Reaches;
      var s2 := SetVisiting(Allocate(s, x), |s.infos|, true);
      Begin(g, s, x);
      AllocatedHopeful(g, t, s, x);
      var q := LastVisit(g, t, x, p);
      forall i | 0 <= i < |q[1..]| ensures !Visiting(s2, q[1..][i]) {
        assert q[i + 1] in p && q[i + 1] in q[1..];
        assert !Visiting(s, q[i + 1]);
      }
      SearchHopes(g, t, s2, x, q);
    }
  }

  lemma AllocatedHopeful(g: Graph, t: Ty, s: State, x: Ty)
    requires WF(g) && Valid(g, s) && x < |g| && Hopeful(g, t, s)
    ensures var s2 := SetVisiting(Allocate(s, x), |s.infos|, true); Valid(g, s2) && Hopeful(g, t, s2)
  {
    var s2 := SetVisiting(Allocate(s, x), |s.infos|, true);
    assert forall y | y in s2.m && y != x :: Look(s2, y) == Look(s, y);
  }

  lemma {:induction false} SearchHopes(g: Graph, t: Ty, s: State, x: Ty, q: seq<Ty>)
    requires WF(g) && Valid(g, s) && x < |g| && x != t && Visiting(s, x) && Hopeful(g, t, s)
    requires Route(g, t, x, q) && Clear(g, s, q[1..])
    ensures Look(Search(g, t, s, x), x).know == Yes
    decreases Idle(g, s), 3, 0
  {
    hide CanReach, Hopeful, Reaches, Clear;
    if |q| > 1 {
      var y, p := q[1], q[1..];
      assert Edge(g, q[0], y) && Route(g, t, y, p);
      EdgeInGraph(g, x, y);
      match g[x]
      case Ptr(e) => HopeFinds(g, t, s, e, p);
      case List(e) => HopeFinds(g, t, s, e, p);
      case Struct(fs) =>
        var i :| 0 <= i < |fs| && fs[i].exported && fs[i].ty == y;
        FieldsHope(g, t, s, x, 0, i, p);
      case Map(k, e) => MapHopes(g, t, s, x, k, e, p);
    }
  }

  lemma {:induction false} MapHopes(g: Graph, t: Ty, s: State, x: Ty, k: Ty, e: Ty, p: seq<Ty>)
    requires WF(g) && Valid(g, s) && x < |g| && x != t && Visiting(s, x) && Hopeful(g, t, s) && g[x] == Map(k, e)
    requires |p| > 0 && (p[0] == k || p[0] == e) && Route(g, t, p[0], p) && Clear(g, s, p)
    ensures Look(Search(g, t, s, x), x).know == Yes
    decreases Idle(g, s), 2, 0
  {
    hide CanReach, Hopeful, Reaches, Clear;
    EdgeInGraph(g, x, k);
    EdgeInGraph(g, x, e);
    AskHopeful(g, t, s, x, k, false);
    var s1 := Ask(g, t, s, x, k);
    SameIdle(g, s, s1, s.m[x]);
    if p[0] == k {
      HopeFinds(g, t, s, k, p);
    } else {
      ClearStill(g, s, s1, s.m[x], p);
      HopeFinds(g, t, s1, e, p);
    }
  }

  lemma {:induction false} FieldsHope(g: Graph, t: Ty, s: State, x: Ty, i: nat, j: nat, p: seq<Ty>)
    requires WF(g) && Valid(g, s) && x < |g| && x != t && Visiting(s, x) && Hopeful(g, t, s)
    requires g[x].Struct? && i <= j < |g[x].fields| && g[x].fields[j].exported
    requires Route(g, t, g[x].fields[j].ty, p) && Clear(g, s, p)
    ensures Look(SearchFields(g, t, s, x, i), x).know == Yes
    decreases Idle(g, s), 2, |g[x].fields| - i
  {
    hide CanReach, Hopeful, Reaches, Clear, Route, AskAlso, Extends, ExtendsBut, Idle;
    if !g[x].fields[i].exported {
      FieldsHope(g, t, s, x, i + 1, j, p);
    } else {
      var y := g[x].fields[i].ty;
      assert Edge(g, x, y);
      AskHopeful(g, t, s, x, y, true);
      var s1 := AskAlso(g, t, s, x, y);
      SameIdle(g, s, s1, s.m[x]);
      SameAddress(s, s1, x);
      if i == j {
        FieldHope(g, t, s, x, y, p);
        YesStays(g, t, s1, x, i + 1);
      } else {
        RoutePath(g, t, g[x].fields[j].ty, p);
        ClearStill(g, s, s1, s.m[x], p);
        FieldsHope(g, t, s1, x, i + 1, j, p);
      }
    }
  }

  lemma SameAddress(s: State, s1: State, x: Ty)
    requires x in s.m && s.m[x] < |s.infos| && Look(s, x).visiting && ExtendsBut(s, s1, s.m[x])
    ensures x in s1.m && s1.m[x] == s.m[x]
  {}

  lemma {:induction false} FieldHope(g: Graph, t: Ty, s: State, x: Ty, y: Ty, p: seq<Ty>)
    requires WF(g) && Valid(g, s) && x < |g| && Visiting(s, x) && Hopeful(g, t, s) && Mentions(g, x, y) && y < |g|
    requires Route(g, t, y, p) && Clear(g, s, p)
    ensures x in AskAlso(g, t, s, x, y).m && Look(AskAlso(g, t, s, x, y), x).know == Yes
    decreases Idle(g, s), 1, 0
  {
    hide CanReach, Hopeful, Reaches, Clear, Route, Idle;
    HopeFinds(g, t, s, y, p);
  }

  lemma RoutePath(g: Graph, t: Ty, x: Ty, p: seq<Ty>)
    requires Route(g, t, x, p)
    ensures Path(g, p)
  {}

  /** With nothing in progress and nothing denied, a search says yes exactly for the types that reach, and
      "don't know" for the others. */
  lemma SearchExact(g: Graph, t: Ty, s: State, x: Ty)
    requires WF(g) && Valid(g, s) && x < |g| && Hopeful(g, t, s) && forall y | y in s.m :: !Look(s, y).visiting
    ensures var (s', k) := CanReach(g, t, s, x);
            k == (if Reaches(g, t, x) then Yes else DontKnow) && Hopeful(g, t, s')
  {
    StaysHopeful(g, t, s, x);
    if p :| Route(g, t, x, p) {
      assert Clear(g, s, p);
      HopeFinds(g, t, s, x, p);
    }
    hide CanReach;
  }
}
