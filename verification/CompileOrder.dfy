/** The order in which types are compiled, as a depth-first walk of the type graph alone, and the types
    for which that walk runs into a type that is still open. */
module CompileOrder {
  import opened TypeGraph

  /** Compiling `x` asks for the traverser of `y` and gets one. */
  ghost predicate Live(g: Graph, t: Ty, x: Ty, y: Ty) {
    x < |g| && y < |g| && x != t && Mentions(g, x, y) && Reaches(g, t, x) && Reaches(g, t, y)
  }

  ghost predicate LivePath(g: Graph, t: Ty, p: seq<Ty>) {
    forall i | 0 < i < |p| :: Live(g, t, p[i - 1], p[i])
  }

  ghost predicate LiveTo(g: Graph, t: Ty, x: Ty, y: Ty) {
    exists p :: |p| > 0 && p[0] == x && p[|p| - 1] == y && LivePath(g, t, p)
  }

  lemma LiveToSelf(g: Graph, t: Ty, x: Ty)
    ensures LiveTo(g, t, x, x)
  {
    assert LivePath(g, t, [x]);
  }

  lemma LiveToStep(g: Graph, t: Ty, x: Ty, y: Ty, z: Ty)
    requires LiveTo(g, t, x, y) && Live(g, t, y, z)
    ensures LiveTo(g, t, x, z)
  {
    var p :| |p| > 0 && p[0] == x && p[|p| - 1] == y && LivePath(g, t, p);
    assert LivePath(g, t, p + [z]);
  }

  /** A pointer, map, array or slice type `p` that lies on a cycle through its member type `c`. */
  ghost predicate Knot(g: Graph, t: Ty, p: Ty, c: Ty) {
    Live(g, t, p, c) && !g[p].Struct? && LiveTo(g, t, c, p)
  }

  ghost predicate KnotFree(g: Graph, t: Ty) {
    forall p, c :: !Knot(g, t, p, c)
  }

  // ----- The walk -----

  /** The types whose traversers compiling `x` asks for, in order. */
  function Asks(g: Graph, x: Ty): seq<Ty>
    requires x < |g|
  {
    match g[x]
    case Ptr(e) => [e]
    case List(e) => [e]
    case Map(k, e) => [k, e]
    case Struct(fs) => seq(|fs|, i requires 0 <= i < |fs| => fs[i].ty)
    case _ => []
  }

  lemma AsksMentions(g: Graph, x: Ty, y: Ty)
    requires WF(g) && x < |g|
    ensures Mentions(g, x, y) <==> y in Asks(g, x)
    ensures y in Asks(g, x) ==> y < |g|
  {
    if g[x].Struct? {
      var fs := g[x].fields;
      if y in Asks(g, x) {
        var i :| 0 <= i < |fs| && Asks(g, x)[i] == y;
        assert fs[i].ty == y;
      }
      if i :| 0 <= i < |fs| && fs[i].ty == y { assert Asks(g, x)[i] == y; }
    }
  }

  /** The types that are done, and those that asked for an open type and keep what they were given. */
  datatype Visited = Visited(done: set<Ty>, bad: set<Ty>)

  ghost function Unseen(g: Graph, done: set<Ty>, open: set<Ty>): set<Ty> {
    set x: Ty | 0 <= x < |g| && x !in done && x !in open
  }

  /** Asking for the traverser of `x`, with the types of `open` still being compiled. */
  ghost function Visit(g: Graph, t: Ty, done: set<Ty>, open: set<Ty>, x: Ty): (r: Visited)
    requires WF(g) && x < |g|
    ensures done <= r.done && r.bad !! done + open && r.bad <= r.done
    decreases Unseen(g, done, open), 0, 0
  {
    if x in done || x in open || !Reaches(g, t, x) then Visited(done, {})
    else if x == t then Visited(done + {x}, {})
    else
      assert x in Unseen(g, done, open) && x !in Unseen(g, done, open + {x});
      var r := VisitAsked(g, t, done, open + {x}, x, 0);
      Visited(r.done + {x}, r.bad)
  }

  /** The members of `x` from the i-th on. */
  ghost function VisitAsked(g: Graph, t: Ty, done: set<Ty>, open: set<Ty>, x: Ty, i: nat): (r: Visited)
    requires WF(g) && x < |g| && i <= |Asks(g, x)|
    ensures done <= r.done && r.bad - {x} !! done + open && r.bad <= r.done + {x}
    decreases Unseen(g, done, open), 1, |Asks(g, x)| - i
  {
    if i == |Asks(g, x)| then Visited(done, {})
    else
      var y := Asks(g, x)[i];
      AsksMentions(g, x, y);
      var r1 := Visit(g, t, done, open, y);
      assert Unseen(g, r1.done, open) <= Unseen(g, done, open);
      var r2 := VisitAsked(g, t, r1.done, open, x, i + 1);
      Visited(r2.done, (if y in open && !g[x].Struct? then {x} else {}) + r1.bad + r2.bad)
  }

  /** Two members, asked for one after the other. */
  lemma TwoAsked(g: Graph, t: Ty, done: set<Ty>, open: set<Ty>, x: Ty, k: Ty, e: Ty)
    requires WF(g) && x < |g| && g[x] == Map(k, e) && k < |g| && e < |g|
    ensures Asks(g, x) == [k, e]
    ensures var r := VisitAsked(g, t, done, open, x, 0);
            var r1 := Visit(g, t, done, open, k);
            r.bad == {} ==> k !in open && e !in open && r1.bad == {} && Visit(g, t, r1.done, open, e).bad == {}
  {
    hide Visit;
    assert Asks(g, x) == [k, e];
    var r1 := Visit(g, t, done, open, k);
    var r2 := VisitAsked(g, t, r1.done, open, x, 1);
    assert VisitAsked(g, t, done, open, x, 0).bad >= r1.bad + r2.bad;
  }

  lemma OneAsked(g: Graph, t: Ty, done: set<Ty>, open: set<Ty>, x: Ty, e: Ty)
    requires WF(g) && x < |g| && (g[x] == Ptr(e) || g[x] == List(e)) && e < |g|
    ensures Asks(g, x) == [e]
    ensures VisitAsked(g, t, done, open, x, 0).bad == {} ==> e !in open && Visit(g, t, done, open, e).bad == {}
  {
    hide Visit;
    assert Asks(g, x) == [e];
    assert VisitAsked(g, t, done, open, x, 0).bad >= Visit(g, t, done, open, e).bad;
  }

  // ----- Without knots nothing goes wrong -----

  ghost predicate Toward(g: Graph, t: Ty, open: set<Ty>, x: Ty) {
    forall o | o in open :: LiveTo(g, t, o, x) && Reaches(g, t, o) && o < |g|
  }

  lemma {:induction false} NoBad(g: Graph, t: Ty, done: set<Ty>, open: set<Ty>, x: Ty)
    requires WF(g) && KnotFree(g, t) && x < |g| && (Reaches(g, t, x) ==> Toward(g, t, open, x))
    ensures Visit(g, t, done, open, x).bad == {}
    decreases Unseen(g, done, open), 0, 0
  {
    if x !in done && x !in open && Reaches(g, t, x) && x != t {
      assert x in Unseen(g, done, open) && x !in Unseen(g, done, open + {x});
      LiveToSelf(g, t, x);
      AskedNoBad(g, t, done, open + {x}, x, 0);
    }
  }

  lemma {:induction false} AskedNoBad(g: Graph, t: Ty, done: set<Ty>, open: set<Ty>, x: Ty, i: nat)
    requires WF(g) && KnotFree(g, t) && x < |g| && i <= |Asks(g, x)|
    requires Toward(g, t, open, x) && Reaches(g, t, x) && x != t
    ensures VisitAsked(g, t, done, open, x, i).bad == {}
    decreases Unseen(g, done, open), 1, |Asks(g, x)| - i
  {
    if i < |Asks(g, x)| {
      var y := Asks(g, x)[i];
      AsksMentions(g, x, y);
      if Reaches(g, t, y) {
        assert Live(g, t, x, y);
        forall o | o in open ensures LiveTo(g, t, o, y) { LiveToStep(g, t, o, x, y); }
        assert !Knot(g, t, x, y);
      }
      NoBad(g, t, done, open, y);
      var r1 := Visit(g, t, done, open, y);
      assert Unseen(g, r1.done, open) <= Unseen(g, done, open);
      AskedNoBad(g, t, r1.done, open, x, i + 1);
    }
  }

  // ----- A knot entered at its far end goes wrong -----

  /** What is new and whatever it asks for is done or open in the end. */
  ghost predicate Closed(g: Graph, t: Ty, done: set<Ty>, open: set<Ty>, done': set<Ty>) {
    forall y, z | y in done' && y !in done && Live(g, t, y, z) :: z in done' || z in open
  }

  lemma {:induction false} VisitClosed(g: Graph, t: Ty, done: set<Ty>, open: set<Ty>, x: Ty)
    requires WF(g) && x < |g|
    ensures var r := Visit(g, t, done, open, x);
            Closed(g, t, done, open, r.done) && (Reaches(g, t, x) ==> x in r.done || x in open)
    decreases Unseen(g, done, open), 0, 0
  {
    if x !in done && x !in open && Reaches(g, t, x) && x != t {
      assert x in Unseen(g, done, open) && x !in Unseen(g, done, open + {x});
      AskedClosed(g, t, done, open + {x}, x, 0);
      forall z | Live(g, t, x, z) ensures z in Asks(g, x) { AsksMentions(g, x, z); }
    }
  }

  lemma {:induction false} AskedClosed(g: Graph, t: Ty, done: set<Ty>, open: set<Ty>, x: Ty, i: nat)
    requires WF(g) && x < |g| && i <= |Asks(g, x)|
    ensures var r := VisitAsked(g, t, done, open, x, i);
            && Closed(g, t, done, open, r.done)
            && forall k | i <= k < |Asks(g, x)| && Reaches(g, t, Asks(g, x)[k]) ::
                 Asks(g, x)[k] in r.done || Asks(g, x)[k] in open
    decreases Unseen(g, done, open), 1, |Asks(g, x)| - i
  {
    if i < |Asks(g, x)| {
      var y := Asks(g, x)[i];
      AsksMentions(g, x, y);
      VisitClosed(g, t, done, open, y);
      var r1 := Visit(g, t, done, open, y);
      assert Unseen(g, r1.done, open) <= Unseen(g, done, open);
      AskedClosed(g, t, r1.done, open, x, i + 1);
    }
  }

  lemma {:induction false} AskedBad(g: Graph, t: Ty, done: set<Ty>, open: set<Ty>, x: Ty, i: nat, k: nat)
    requires WF(g) && x < |g| && i <= k < |Asks(g, x)| && Asks(g, x)[k] in open && !g[x].Struct?
    ensures x in VisitAsked(g, t, done, open, x, i).bad
    decreases k - i
  {
    if i < k {
      AsksMentions(g, x, Asks(g, x)[i]);
      AskedBad(g, t, Visit(g, t, done, open, Asks(g, x)[i]).done, open, x, i + 1, k);
    }
  }

  /** A type visited while one of its members is open keeps the dummy, unless it is a struct. */
  lemma {:induction false} VisitCaught(g: Graph, t: Ty, done: set<Ty>, open: set<Ty>, x: Ty, p: Ty, c: Ty)
    requires WF(g) && x < |g| && Live(g, t, p, c) && !g[p].Struct? && c in open && p !in done && p !in open
    requires p in Visit(g, t, done, open, x).done
    ensures p in Visit(g, t, done, open, x).bad
    decreases Unseen(g, done, open), 0, 0
  {
    if x !in done && x !in open && Reaches(g, t, x) && x != t {
      assert x in Unseen(g, done, open) && x !in Unseen(g, done, open + {x});
      if x == p {
        AsksMentions(g, p, c);
        var k :| 0 <= k < |Asks(g, p)| && Asks(g, p)[k] == c;
        AskedBad(g, t, done, open + {x}, x, 0, k);
      } else {
        AskedCaught(g, t, done, open + {x}, x, 0, p, c);
      }
    }
  }

  lemma {:induction false} AskedCaught(g: Graph, t: Ty, done: set<Ty>, open: set<Ty>, x: Ty, i: nat, p: Ty, c: Ty)
    requires WF(g) && x < |g| && i <= |Asks(g, x)|
    requires Live(g, t, p, c) && !g[p].Struct? && c in open && p !in done && p !in open
    requires p in VisitAsked(g, t, done, open, x, i).done
    ensures p in VisitAsked(g, t, done, open, x, i).bad
    decreases Unseen(g, done, open), 1, |Asks(g, x)| - i
  {
    if i < |Asks(g, x)| {
      var y := Asks(g, x)[i];
      AsksMentions(g, x, y);
      var r1 := Visit(g, t, done, open, y);
      assert Unseen(g, r1.done, open) <= Unseen(g, done, open);
      if p in r1.done {
        VisitCaught(g, t, done, open, y, p, c);
      } else {
        AskedCaught(g, t, r1.done, open, x, i + 1, p, c);
      }
    }
  }

  lemma {:induction false} ClosedPath(g: Graph, t: Ty, done: set<Ty>, p: seq<Ty>)
    requires Closed(g, t, {}, {}, done) && LivePath(g, t, p) && |p| > 0 && p[0] in done
    ensures p[|p| - 1] in done
  {
    if |p| > 1 {
      assert Live(g, t, p[1 - 1], p[1]);
      assert LivePath(g, t, p[1..]);
      ClosedPath(g, t, done, p[1..]);
    }
  }

  /** A first visit that enters a knot at its far end. */
  lemma KnotIsBad(g: Graph, t: Ty, p: Ty, c: Ty)
    requires WF(g) && Knot(g, t, p, c)
    ensures p in Visit(g, t, {}, {}, c).bad
  {
    var q :| |q| > 0 && q[0] == c && q[|q| - 1] == p && LivePath(g, t, q);
    if |q| > 1 { assert Live(g, t, q[1 - 1], q[1]); }
    assert c != t;
    VisitClosed(g, t, {}, {}, c);
    ClosedPath(g, t, Visit(g, t, {}, {}, c).done, q);
    assert {} + {c} == {c};
    if p == c {
      AsksMentions(g, p, c);
      var k :| 0 <= k < |Asks(g, p)| && Asks(g, p)[k] == c;
      AskedBad(g, t, {}, {c}, c, 0, k);
    } else {
      AskedCaught(g, t, {}, {c}, c, 0, p, c);
    }
  }

  // ----- Visits one after another -----

  /** Asking for the types of a history in turn, with nothing open in between. */
  ghost function VisitAll(g: Graph, t: Ty, done: set<Ty>, h: seq<Ty>): (r: Visited)
    requires WF(g) && forall i | 0 <= i < |h| :: h[i] < |g|
    ensures done <= r.done && r.bad !! done && r.bad <= r.done
    decreases |h|
  {
    if h == [] then Visited(done, {})
    else
      var r1 := Visit(g, t, done, {}, h[0]);
      var r2 := VisitAll(g, t, r1.done, h[1..]);
      Visited(r2.done, r1.bad + r2.bad)
  }

  lemma {:induction false} VisitMore(g: Graph, t: Ty, done: set<Ty>, a: seq<Ty>, b: seq<Ty>)
    requires WF(g) && (forall i | 0 <= i < |a| :: a[i] < |g|) && (forall i | 0 <= i < |b| :: b[i] < |g|)
    ensures var r1 := VisitAll(g, t, done, a);
            var r2 := VisitAll(g, t, r1.done, b);
            VisitAll(g, t, done, a + b) == Visited(r2.done, r1.bad + r2.bad)
    decreases |a|
  {
    if a == [] {
      assert a + b == b;
    } else {
      assert (a + b)[0] == a[0] && (a + b)[1..] == a[1..] + b;
      VisitMore(g, t, Visit(g, t, done, {}, a[0]).done, a[1..], b);
    }
  }

  lemma {:induction false} AllNoBad(g: Graph, t: Ty, done: set<Ty>, h: seq<Ty>)
    requires WF(g) && KnotFree(g, t) && forall i | 0 <= i < |h| :: h[i] < |g|
    ensures VisitAll(g, t, done, h).bad == {}
    decreases |h|
  {
    if h != [] {
      NoBad(g, t, done, {}, h[0]);
      AllNoBad(g, t, Visit(g, t, done, {}, h[0]).done, h[1..]);
    }
  }

  /** No history goes wrong exactly when no pointer, map, array or slice type lies on a live cycle. */
  lemma NoBadIffKnotFree(g: Graph, t: Ty)
    requires WF(g)
    ensures KnotFree(g, t) <==>
            forall h | (forall i | 0 <= i < |h| :: h[i] < |g|) :: VisitAll(g, t, {}, h).bad == {}
  {
    if KnotFree(g, t) {
      forall h: seq<Ty> | forall i | 0 <= i < |h| :: h[i] < |g| ensures VisitAll(g, t, {}, h).bad == {} {
        AllNoBad(g, t, {}, h);
      }
    } else {
      var p, c :| Knot(g, t, p, c);
      KnotIsBad(g, t, p, c);
      assert p in VisitAll(g, t, {}, [c]).bad;
    }
  }
}
