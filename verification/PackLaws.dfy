/** What a walk lists: everything that can be reached, and each thing once. */
module PackLaws {
  import opened Text
  import opened Paths
  import opened Pack

  predicate Lists(e: Env, from: seq<string>, name: string) {
    exists i :: 0 <= i < |from| && e.trim(from[i]) == name
  }

  // ----- Each thing once -----

  /** A name is not listed again once it was listed as anything but a link. */
  ghost predicate NonLinksDistinct(e: Env, from: seq<string>) {
    forall i, j | 0 <= i < j < |from| && e.trim(from[i]) == e.trim(from[j]) ::
      e.stat(from[i]).Symlink?
  }

  /** Whatever is listed and is no link is marked. */
  ghost predicate NonLinksMarked(e: Env, v: View) {
    forall i | 0 <= i < |v.from| && !e.stat(v.from[i]).Symlink? :: e.trim(v.from[i]) in v.visited
  }

  lemma {:induction false} NonLinksOnce(e: Env, s: Scope, v: View, p: string)
    requires Closed(e, s) && p in s.paths && NonLinksDistinct(e, v.from) && NonLinksMarked(e, v)
    ensures var r := Walk(e, s, v, p);
            NonLinksDistinct(e, r.from) && NonLinksMarked(e, r)
    decreases Left(e, s, v.visited), 0, s.rank(p)
  {
    var n := e.trim(p);
    if e.stat(p).Absent? || n in v.visited {
    } else if e.stat(p).Dir? {
      var v1 := View(v.from + [p], v.visited + {n});
      assert n in Left(e, s, v.visited) && n !in Left(e, s, v1.visited);
      if !Bare(n) { AllNonLinksOnce(e, s, v1, e.stat(p).entries); }
    } else if e.stat(p).Symlink? {
      var v1 := View(v.from + [p], v.visited);
      NonLinksOnce(e, s, v1, WalkPath(e, n));
    }
  }

  lemma {:induction false} AllNonLinksOnce(e: Env, s: Scope, v: View, ps: seq<string>)
    requires Closed(e, s) && (forall q | q in ps :: q in s.paths)
    requires NonLinksDistinct(e, v.from) && NonLinksMarked(e, v)
    ensures var r := WalkAll(e, s, v, ps);
            NonLinksDistinct(e, r.from) && NonLinksMarked(e, r)
    decreases Left(e, s, v.visited), 1, |ps|
  {
    if ps != [] {
      NonLinksOnce(e, s, v, ps[0]);
      var v1 := Walk(e, s, v, ps[0]);
      assert Left(e, s, v1.visited) <= Left(e, s, v.visited);
      AllNonLinksOnce(e, s, v1, ps[1..]);
    }
  }

  // ----- What leads where -----

  /** From a directory, unless it is bare, to its entries, and from a link to its target. */
  predicate Leads(e: Env, p: string, q: string) {
    match e.stat(p)
    case Dir(entries) => !Bare(e.trim(p)) && q in entries
    case Symlink => q == WalkPath(e, e.trim(p))
    case _ => false
  }

  ghost predicate Route(e: Env, w: seq<string>) {
    |w| > 0 && forall i | 0 <= i < |w| - 1 :: Leads(e, w[i], w[i + 1])
  }

  ghost predicate Reaches(e: Env, p: string, q: string) {
    exists w :: Route(e, w) && w[0] == p && w[|w| - 1] == q
  }

  lemma ReachesItself(e: Env, p: string)
    ensures Reaches(e, p, p)
  {
    assert Route(e, [p]) && [p][0] == p;
  }

  lemma ReachesOn(e: Env, p: string, q: string, r: string)
    requires Reaches(e, p, q) && Leads(e, q, r)
    ensures Reaches(e, p, r)
  {
    var w :| Route(e, w) && w[0] == p && w[|w| - 1] == q;
    var v := w + [r];
    assert Route(e, v) && v[0] == p && v[|v| - 1] == r;
  }

  /** No link leads, through its target, to something of its own name. */
  ghost predicate Acyclic(e: Env, s: Scope) {
    forall l, q | l in s.paths && e.stat(l).Symlink? && Reaches(e, WalkPath(e, e.trim(l)), q) && !e.stat(q).Absent? ::
      e.trim(q) != e.trim(l)
  }

  ghost predicate Distinct(e: Env, from: seq<string>) {
    forall i, j | 0 <= i < j < |from| :: e.trim(from[i]) != e.trim(from[j])
  }

  /** Between the moment a link is listed and the moment it is marked, its target is being walked. */
  ghost predicate Marked(e: Env, v: View, active: set<string>) {
    forall i | 0 <= i < |v.from| ::
      e.trim(v.from[i]) in v.visited || exists a :: a in active && e.trim(a) == e.trim(v.from[i])
  }

  ghost predicate LeadHere(e: Env, s: Scope, active: set<string>, p: string) {
    forall a | a in active :: a in s.paths && e.stat(a).Symlink? && Reaches(e, WalkPath(e, e.trim(a)), p)
  }

  lemma NotListedYet(e: Env, s: Scope, v: View, p: string, active: set<string>)
    requires Acyclic(e, s) && Distinct(e, v.from) && Marked(e, v, active) && LeadHere(e, s, active, p)
    requires e.trim(p) !in v.visited && !e.stat(p).Absent?
    ensures Distinct(e, v.from + [p])
  {
    forall i | 0 <= i < |v.from| ensures e.trim(v.from[i]) != e.trim(p) {}
  }

  lemma LeadThere(e: Env, s: Scope, active: set<string>, p: string, q: string)
    requires LeadHere(e, s, active, p) && Leads(e, p, q)
    ensures LeadHere(e, s, active, q)
  {
    forall a | a in active ensures Reaches(e, WalkPath(e, e.trim(a)), q) {
      ReachesOn(e, WalkPath(e, e.trim(a)), p, q);
    }
  }

  /** If no link leads back to itself, nothing at all is listed twice. */
  lemma {:induction false} EachOnce(e: Env, s: Scope, v: View, p: string, active: set<string>)
    requires Closed(e, s) && Acyclic(e, s) && p in s.paths
    requires Distinct(e, v.from) && Marked(e, v, active) && LeadHere(e, s, active, p)
    ensures var r := Walk(e, s, v, p);
            Distinct(e, r.from) && Marked(e, r, active)
    decreases Left(e, s, v.visited), 0, s.rank(p)
  {
    hide Reaches, WalkPath, Acyclic, LeadHere, Distinct;
    var n := e.trim(p);
    if e.stat(p).Absent? || n in v.visited {
    } else {
      NotListedYet(e, s, v, p, active);
      if e.stat(p).Dir? {
        var v1 := View(v.from + [p], v.visited + {n});
        assert Marked(e, v1, active);
        assert n in Left(e, s, v.visited) && n !in Left(e, s, v1.visited);
        if !Bare(n) {
          forall q | q in e.stat(p).entries ensures LeadHere(e, s, active, q) { LeadThere(e, s, active, p, q); }
          AllOnce(e, s, v1, e.stat(p).entries, active);
        }
      } else if e.stat(p).Symlink? {
        LinkOnce(e, s, v, p, active);
      }
    }
  }

  lemma {:induction false} LinkOnce(e: Env, s: Scope, v: View, p: string, active: set<string>)
    requires Closed(e, s) && Acyclic(e, s) && p in s.paths && e.stat(p).Symlink? && e.trim(p) !in v.visited
    requires Distinct(e, v.from + [p]) && Marked(e, v, active) && LeadHere(e, s, active, p)
    ensures var r := Walk(e, s, v, p);
            Distinct(e, r.from) && Marked(e, r, active)
    decreases Left(e, s, v.visited), 0, s.rank(p), 0
  {
    hide Reaches, WalkPath, Acyclic, Distinct, Left;
    var v1 := View(v.from + [p], v.visited);
    var q := WalkPath(e, e.trim(p));
    LeadThere(e, s, active, p, q);
    ReachesItself(e, q);
    assert Marked(e, v1, active + {p});
    EachOnce(e, s, v1, q, active + {p});
    var v2 := Walk(e, s, v1, q);
    var r := View(v2.from, v2.visited + {e.trim(p)});
    forall i | 0 <= i < |r.from|
      ensures e.trim(r.from[i]) in r.visited || exists a :: a in active && e.trim(a) == e.trim(r.from[i])
    {
      assert e.trim(v2.from[i]) in v2.visited || exists a :: a in active + {p} && e.trim(a) == e.trim(v2.from[i]);
    }
  }

  lemma {:induction false} AllOnce(e: Env, s: Scope, v: View, ps: seq<string>, active: set<string>)
    requires Closed(e, s) && Acyclic(e, s) && (forall q | q in ps :: q in s.paths && LeadHere(e, s, active, q))
    requires Distinct(e, v.from) && Marked(e, v, active)
    ensures var r := WalkAll(e, s, v, ps);
            Distinct(e, r.from) && Marked(e, r, active)
    decreases Left(e, s, v.visited), 1, |ps|
  {
    if ps != [] {
      EachOnce(e, s, v, ps[0], active);
      var v1 := Walk(e, s, v, ps[0]);
      assert Left(e, s, v1.visited) <= Left(e, s, v.visited);
      AllOnce(e, s, v1, ps[1..], active);
    }
  }

  // ----- Everything that is reached -----

  ghost predicate MarkedAreListed(e: Env, v: View) {
    forall n | n in v.visited :: Lists(e, v.from, n)
  }

  /** Where the i-th thing leads, everything that is there is listed too. */
  ghost predicate ClosedAt(e: Env, from: seq<string>, i: nat)
    requires i < |from|
  {
    forall q | Leads(e, from[i], q) && !e.stat(q).Absent? :: Lists(e, from, e.trim(q))
  }

  lemma StillLists(e: Env, from: seq<string>, more: seq<string>, n: string)
    requires Lists(e, from, n) && from <= more
    ensures Lists(e, more, n)
  {
    var i :| 0 <= i < |from| && e.trim(from[i]) == n;
    assert more[i] == from[i];
  }

  lemma StillClosedAt(e: Env, from: seq<string>, more: seq<string>, i: nat)
    requires i < |from| && from <= more && ClosedAt(e, from, i)
    ensures ClosedAt(e, more, i)
  {
    assert more[i] == from[i];
    forall q | Leads(e, more[i], q) && !e.stat(q).Absent? ensures Lists(e, more, e.trim(q)) {
      StillLists(e, from, more, e.trim(q));
    }
  }

  /** Walking to a path lists it, if it is there, and all that what is newly listed leads to. Links that
      lead back to themselves do not matter here. */
  lemma {:induction false} WalkCloses(e: Env, s: Scope, v: View, p: string)
    requires Closed(e, s) && p in s.paths && MarkedAreListed(e, v)
    ensures var r := Walk(e, s, v, p);
            && MarkedAreListed(e, r) && (!e.stat(p).Absent? ==> Lists(e, r.from, e.trim(p)))
            && forall i | |v.from| <= i < |r.from| :: ClosedAt(e, r.from, i)
    decreases Left(e, s, v.visited), 0, s.rank(p)
  {
    hide Lists, ClosedAt, WalkPath;
    var n := e.trim(p);
    var r := Walk(e, s, v, p);
    if e.stat(p).Absent? || n in v.visited {
    } else {
      var from1 := v.from + [p];
      ListsLast(e, v.from, p);
      var v1 := if e.stat(p).Dir? then View(from1, v.visited + {n}) else View(from1, v.visited);
      forall m | m in v.visited ensures Lists(e, from1, m) { StillLists(e, v.from, from1, m); }
      assert MarkedAreListed(e, v1);
      if e.stat(p).Dir? {
        assert n in Left(e, s, v.visited) && n !in Left(e, s, v1.visited);
        if !Bare(n) { AllClose(e, s, v1, e.stat(p).entries); }
      } else if e.stat(p).Symlink? {
        WalkCloses(e, s, v1, WalkPath(e, n));
      }
      StillLists(e, from1, r.from, n);
      LeadsListed(e, r.from, p, |v.from|);
    }
  }

  lemma ListsLast(e: Env, from: seq<string>, p: string)
    ensures Lists(e, from + [p], e.trim(p))
  {
    assert (from + [p])[|from|] == p;
  }

  lemma LeadsListed(e: Env, from: seq<string>, p: string, i: nat)
    requires i < |from| && from[i] == p
    requires match e.stat(p)
             case Dir(entries) =>
               !Bare(e.trim(p)) ==> forall q | q in entries && !e.stat(q).Absent? :: Lists(e, from, e.trim(q))
             case Symlink => var q := WalkPath(e, e.trim(p)); !e.stat(q).Absent? ==> Lists(e, from, e.trim(q))
             case _ => true
    ensures ClosedAt(e, from, i)
  {}

  lemma {:induction false} AllClose(e: Env, s: Scope, v: View, ps: seq<string>)
    requires Closed(e, s) && (forall q | q in ps :: q in s.paths) && MarkedAreListed(e, v)
    ensures var r := WalkAll(e, s, v, ps);
            && MarkedAreListed(e, r) && (forall q | q in ps && !e.stat(q).Absent? :: Lists(e, r.from, e.trim(q)))
            && forall i | |v.from| <= i < |r.from| :: ClosedAt(e, r.from, i)
    decreases Left(e, s, v.visited), 1, |ps|
  {
    hide Lists, ClosedAt;
    if ps != [] {
      WalkCloses(e, s, v, ps[0]);
      var v1 := Walk(e, s, v, ps[0]);
      assert Left(e, s, v1.visited) <= Left(e, s, v.visited);
      AllClose(e, s, v1, ps[1..]);
      var r := WalkAll(e, s, v, ps);
      if !e.stat(ps[0]).Absent? { StillLists(e, v1.from, r.from, e.trim(ps[0])); }
      forall i | |v.from| <= i < |v1.from| ensures ClosedAt(e, r.from, i) { StillClosedAt(e, v1.from, r.from, i); }
    }
  }

  // ----- Nothing else -----

  ghost predicate FromOneOf(e: Env, starts: seq<string>, q: string) {
    exists p :: p in starts && Reaches(e, p, q)
  }

  ghost predicate Reached(e: Env, starts: seq<string>, from: seq<string>) {
    forall i | 0 <= i < |from| :: !e.stat(from[i]).Absent? && FromOneOf(e, starts, from[i])
  }

  lemma FromOn(e: Env, starts: seq<string>, p: string, q: string)
    requires FromOneOf(e, starts, p) && Leads(e, p, q)
    ensures FromOneOf(e, starts, q)
  {
    var a :| a in starts && Reaches(e, a, p);
    ReachesOn(e, a, p, q);
  }

  lemma {:induction false} OnlyReached(e: Env, s: Scope, v: View, p: string, starts: seq<string>)
    requires Closed(e, s) && p in s.paths && Reached(e, starts, v.from) && FromOneOf(e, starts, p)
    ensures Reached(e, starts, Walk(e, s, v, p).from)
    decreases Left(e, s, v.visited), 0, s.rank(p)
  {
    hide FromOneOf, WalkPath;
    var n := e.trim(p);
    if e.stat(p).Absent? || n in v.visited {
    } else if e.stat(p).Dir? {
      var v1 := View(v.from + [p], v.visited + {n});
      assert n in Left(e, s, v.visited) && n !in Left(e, s, v1.visited);
      if !Bare(n) {
        forall q | q in e.stat(p).entries ensures FromOneOf(e, starts, q) { FromOn(e, starts, p, q); }
        AllOnlyReached(e, s, v1, e.stat(p).entries, starts);
      }
    } else if e.stat(p).Symlink? {
      FromOn(e, starts, p, WalkPath(e, n));
      OnlyReached(e, s, View(v.from + [p], v.visited), WalkPath(e, n), starts);
    }
  }

  lemma {:induction false} AllOnlyReached(e: Env, s: Scope, v: View, ps: seq<string>, starts: seq<string>)
    requires Closed(e, s) && Reached(e, starts, v.from)
    requires forall q | q in ps :: q in s.paths && FromOneOf(e, starts, q)
    ensures Reached(e, starts, WalkAll(e, s, v, ps).from)
    decreases Left(e, s, v.visited), 1, |ps|
  {
    hide FromOneOf, Reached;
    if ps != [] {
      assert ps[0] in ps && forall q | q in ps[1..] :: q in ps;
      OnlyReached(e, s, v, ps[0], starts);
      var v1 := Walk(e, s, v, ps[0]);
      assert Left(e, s, v1.visited) <= Left(e, s, v.visited);
      AllOnlyReached(e, s, v1, ps[1..], starts);
    }
  }

  // ----- A whole pack -----

  /** Things whose paths are trimmed to the same name are alike. */
  ghost predicate Agree(e: Env, s: Scope) {
    forall p, q | p in s.paths && q in s.paths && e.trim(p) == e.trim(q) && !e.stat(p).Absent? && !e.stat(q).Absent? ::
      e.stat(p) == e.stat(q)
  }

  lemma {:induction false} ScopeKeeps(e: Env, s: Scope, w: seq<string>, k: nat)
    requires Closed(e, s) && Route(e, w) && w[0] in s.paths && k < |w|
    ensures w[k] in s.paths
  {
    for i := 0 to k
      invariant w[i] in s.paths
    {
      assert Leads(e, w[i], w[i + 1]);
    }
  }

  /** All that was listed lies in the scope and exists. */
  ghost predicate Real(e: Env, s: Scope, from: seq<string>) {
    forall i | 0 <= i < |from| :: from[i] in s.paths && !e.stat(from[i]).Absent?
  }

  lemma FollowRoute(e: Env, s: Scope, from: seq<string>, w: seq<string>)
    requires Closed(e, s) && Agree(e, s) && Route(e, w) && w[0] in s.paths && !e.stat(w[|w| - 1]).Absent?
    requires Real(e, s, from) && forall i | 0 <= i < |from| :: ClosedAt(e, from, i)
    requires !e.stat(w[0]).Absent? ==> Lists(e, from, e.trim(w[0]))
    ensures Lists(e, from, e.trim(w[|w| - 1]))
  {
    for i := 0 to |w| - 1
      invariant w[i] in s.paths && (!e.stat(w[i]).Absent? ==> Lists(e, from, e.trim(w[i])))
    {
      assert Leads(e, w[i], w[i + 1]);
      var k :| 0 <= k < |from| && e.trim(from[k]) == e.trim(w[i]);
      assert e.stat(from[k]) == e.stat(w[i]);
      assert ClosedAt(e, from, k) && Leads(e, from[k], w[i + 1]);
    }
  }

  /** What holds of the list after a whole pack. */
  lemma PackKeeps(e: Env, s: Scope, starts: seq<string>)
    requires Closed(e, s) && forall p | p in starts :: p in s.paths
    ensures var from := WalkAll(e, s, View([], {}), starts).from;
            && Reached(e, starts, from)
            && (forall i | 0 <= i < |from| :: ClosedAt(e, from, i))
            && (forall p | p in starts && !e.stat(p).Absent? :: Lists(e, from, e.trim(p)))
  {
    forall p | p in starts ensures FromOneOf(e, starts, p) { ReachesItself(e, p); }
    hide Reaches, FromOneOf, ClosedAt, Lists;
    AllOnlyReached(e, s, View([], {}), starts, starts);
    AllClose(e, s, View([], {}), starts);
  }

  lemma PackReal(e: Env, s: Scope, starts: seq<string>)
    requires Closed(e, s) && forall p | p in starts :: p in s.paths
    ensures Real(e, s, WalkAll(e, s, View([], {}), starts).from)
  {
    hide Closed, FromOneOf, ClosedAt, Lists, WalkAll;
    var from := WalkAll(e, s, View([], {}), starts).from;
    PackKeeps(e, s, starts);
    forall i | 0 <= i < |from| ensures from[i] in s.paths { InScope(e, s, starts, from[i]); }
  }

  lemma ListsReachable(e: Env, s: Scope, from: seq<string>, starts: seq<string>, q: string)
    requires Closed(e, s) && Agree(e, s) && forall p | p in starts :: p in s.paths
    requires Real(e, s, from) && forall i | 0 <= i < |from| :: ClosedAt(e, from, i)
    requires forall p | p in starts && !e.stat(p).Absent? :: Lists(e, from, e.trim(p))
    requires !e.stat(q).Absent? && FromOneOf(e, starts, q)
    ensures Lists(e, from, e.trim(q))
  {
    hide ClosedAt;
    var p :| p in starts && Reaches(e, p, q);
    var w :| Route(e, w) && w[0] == p && w[|w| - 1] == q;
    FollowRoute(e, s, from, w);
  }

  /** Walking a number of starts lists exactly the names of what exists and can be reached from them. */
  lemma ListsExactlyReachable(e: Env, s: Scope, starts: seq<string>, n: string)
    requires Closed(e, s) && Agree(e, s) && forall p | p in starts :: p in s.paths
    ensures Lists(e, WalkAll(e, s, View([], {}), starts).from, n) <==>
            exists q :: !e.stat(q).Absent? && FromOneOf(e, starts, q) && e.trim(q) == n
  {
    hide Closed, Agree, FromOneOf, ClosedAt, WalkAll;
    var from := WalkAll(e, s, View([], {}), starts).from;
    PackKeeps(e, s, starts);
    PackReal(e, s, starts);
    if q :| !e.stat(q).Absent? && FromOneOf(e, starts, q) && e.trim(q) == n {
      ListsReachable(e, s, from, starts, q);
    }
  }

  lemma InScope(e: Env, s: Scope, starts: seq<string>, p: string)
    requires Closed(e, s) && (forall a | a in starts :: a in s.paths) && FromOneOf(e, starts, p)
    ensures p in s.paths
  {
    var a :| a in starts && Reaches(e, a, p);
    var w :| Route(e, w) && w[0] == a && w[|w| - 1] == p;
    ScopeKeeps(e, s, w, |w| - 1);
  }

  // ----- In which order -----

  /** `p` is a start, or something listed among the first `n` leads to it. */
  ghost predicate Announced(e: Env, starts: seq<string>, from: seq<string>, n: nat, p: string)
    requires n <= |from|
  {
    p in starts || exists j :: 0 <= j < n && Leads(e, from[j], p)
  }

  /** Whatever is listed comes after something that leads to it, unless the walk started there. */
  ghost predicate ParentsFirst(e: Env, starts: seq<string>, from: seq<string>) {
    forall i | 0 <= i < |from| :: Announced(e, starts, from, i, from[i])
  }

  lemma OneMoreListed(e: Env, starts: seq<string>, from: seq<string>, p: string)
    requires ParentsFirst(e, starts, from) && Announced(e, starts, from, |from|, p)
    ensures ParentsFirst(e, starts, from + [p])
    ensures forall q | Leads(e, p, q) :: Announced(e, starts, from + [p], |from| + 1, q)
  {
    var more := from + [p];
    forall i | 0 <= i < |more| ensures Announced(e, starts, more, i, more[i]) {
      StillAnnounced(e, starts, from, more, i);
    }
    forall q | Leads(e, p, q) ensures Announced(e, starts, more, |from| + 1, q) { assert Leads(e, more[|from|], q); }
  }

  lemma StillAnnounced(e: Env, starts: seq<string>, from: seq<string>, more: seq<string>, n: nat)
    requires from <= more && n <= |from|
    ensures forall p | Announced(e, starts, from, n, p) :: Announced(e, starts, more, n, p) &&
                                                           Announced(e, starts, more, |more|, p)
  {
    forall p | Announced(e, starts, from, n, p)
      ensures Announced(e, starts, more, n, p) && Announced(e, starts, more, |more|, p)
    {
      if j :| 0 <= j < n && Leads(e, from[j], p) { assert more[j] == from[j]; }
    }
  }

  lemma {:induction false} WalkOrder(e: Env, s: Scope, v: View, p: string, starts: seq<string>)
    requires Closed(e, s) && p in s.paths && ParentsFirst(e, starts, v.from)
    requires Announced(e, starts, v.from, |v.from|, p)
    ensures ParentsFirst(e, starts, Walk(e, s, v, p).from)
    decreases Left(e, s, v.visited), 0, s.rank(p)
  {
    hide ParentsFirst, Announced, WalkPath;
    var n := e.trim(p);
    if e.stat(p).Absent? || n in v.visited {
    } else {
      OneMoreListed(e, starts, v.from, p);
      if e.stat(p).Dir? {
        var v1 := View(v.from + [p], v.visited + {n});
        assert n in Left(e, s, v.visited) && n !in Left(e, s, v1.visited);
        if !Bare(n) {
          assert forall q | q in e.stat(p).entries :: Leads(e, p, q);
          AllOrder(e, s, v1, e.stat(p).entries, starts);
        }
      } else if e.stat(p).Symlink? {
        assert Leads(e, p, WalkPath(e, n));
        WalkOrder(e, s, View(v.from + [p], v.visited), WalkPath(e, n), starts);
      }
    }
  }

  lemma {:induction false} AllOrder(e: Env, s: Scope, v: View, ps: seq<string>, starts: seq<string>)
    requires Closed(e, s) && (forall q | q in ps :: q in s.paths) && ParentsFirst(e, starts, v.from)
    requires forall q | q in ps :: Announced(e, starts, v.from, |v.from|, q)
    ensures ParentsFirst(e, starts, WalkAll(e, s, v, ps).from)
    decreases Left(e, s, v.visited), 1, |ps|
  {
    hide ParentsFirst, Announced;
    if ps != [] {
      assert ps[0] in ps && forall q | q in ps[1..] :: q in ps;
      WalkOrder(e, s, v, ps[0], starts);
      var v1 := Walk(e, s, v, ps[0]);
      assert Left(e, s, v1.visited) <= Left(e, s, v.visited);
      StillAnnounced(e, starts, v.from, v1.from, |v.from|);
      AllOrder(e, s, v1, ps[1..], starts);
    }
  }

  /** A directory is listed before what it holds, and a link before what it leads to. */
  lemma PackOrder(e: Env, s: Scope, starts: seq<string>)
    requires Closed(e, s) && forall p | p in starts :: p in s.paths
    ensures ParentsFirst(e, starts, WalkAll(e, s, View([], {}), starts).from)
  {
    AllOrder(e, s, View([], {}), starts, starts);
  }

  // ----- Exactly when everything is listed once -----

  /** What is listed at `i` is marked, and so is everything it leads to. */
  ghost predicate MarkedAt(e: Env, r: View, i: nat)
    requires i < |r.from|
  {
    e.trim(r.from[i]) in r.visited
    && forall q | Leads(e, r.from[i], q) && !e.stat(q).Absent? :: e.trim(q) in r.visited
  }

  /** From `v` to `r`: whatever is newly listed is marked with all it leads to, and whatever is newly marked
      is newly listed. */
  ghost predicate Marks(e: Env, v: View, r: View) {
    && v.from <= r.from && v.visited <= r.visited
    && (forall i | |v.from| <= i < |r.from| :: MarkedAt(e, r, i))
    && (forall n | n in r.visited && n !in v.visited :: exists i :: |v.from| <= i < |r.from| && e.trim(r.from[i]) == n)
  }

  lemma MarksThen(e: Env, v: View, v1: View, v2: View)
    requires Marks(e, v, v1) && Marks(e, v1, v2)
    ensures Marks(e, v, v2)
  {
    forall i | |v.from| <= i < |v2.from| ensures MarkedAt(e, v2, i) {
      if i < |v1.from| { assert MarkedAt(e, v1, i) && v2.from[i] == v1.from[i]; }
    }
    forall n | n in v2.visited && n !in v.visited
      ensures exists i :: |v.from| <= i < |v2.from| && e.trim(v2.from[i]) == n
    {
      if n in v1.visited {
        var i :| |v.from| <= i < |v1.from| && e.trim(v1.from[i]) == n;
        assert v2.from[i] == v1.from[i];
      }
    }
  }

  /** The same around one newly listed path. */
  lemma MarksOne(e: Env, v: View, p: string, v1: View, v2: View, r: View)
    requires v1.from == v.from + [p] && v.visited <= v1.visited <= v.visited + {e.trim(p)} && Marks(e, v1, v2)
    requires r == View(v2.from, v2.visited + {e.trim(p)})
    requires forall q | Leads(e, p, q) && !e.stat(q).Absent? :: e.trim(q) in r.visited
    ensures Marks(e, v, r)
  {
    assert r.from[|v.from|] == p;
    forall i | |v.from| <= i < |r.from| ensures MarkedAt(e, r, i) {
      if i > |v.from| { assert MarkedAt(e, v2, i); }
    }
  }

  lemma {:induction false} WalkMarks(e: Env, s: Scope, v: View, p: string)
    requires Closed(e, s) && p in s.paths
    ensures var r := Walk(e, s, v, p);
            Marks(e, v, r) && (!e.stat(p).Absent? ==> e.trim(p) in r.visited)
    decreases Left(e, s, v.visited), 0, s.rank(p)
  {
    hide MarkedAt, WalkPath, Marks;
    var n := e.trim(p);
    var r := Walk(e, s, v, p);
    MarksNothing(e, v);
    if !e.stat(p).Absent? && n !in v.visited {
      if e.stat(p).Dir? {
        var v1 := View(v.from + [p], v.visited + {n});
        assert n in Left(e, s, v.visited) && n !in Left(e, s, v1.visited);
        MarksNothing(e, v1);
        if !Bare(n) { AllMark(e, s, v1, e.stat(p).entries); }
        MarksOne(e, v, p, v1, r, r);
      } else {
        var v1 := View(v.from + [p], v.visited);
        MarksNothing(e, v1);
        if e.stat(p).Symlink? { WalkMarks(e, s, v1, WalkPath(e, n)); }
        var v2 := if e.stat(p).Symlink? then Walk(e, s, v1, WalkPath(e, n)) else v1;
        MarksOne(e, v, p, v1, v2, r);
      }
    }
  }

  lemma MarksNothing(e: Env, v: View)
    ensures Marks(e, v, v)
  {}

  lemma {:induction false} AllMark(e: Env, s: Scope, v: View, ps: seq<string>)
    requires Closed(e, s) && forall q | q in ps :: q in s.paths
    ensures var r := WalkAll(e, s, v, ps);
            Marks(e, v, r) && forall q | q in ps && !e.stat(q).Absent? :: e.trim(q) in r.visited
    decreases Left(e, s, v.visited), 1, |ps|
  {
    hide MarkedAt, Marks;
    MarksNothing(e, v);
    if ps != [] {
      WalkMarks(e, s, v, ps[0]);
      var v1 := Walk(e, s, v, ps[0]);
      assert Left(e, s, v1.visited) <= Left(e, s, v.visited);
      AllMark(e, s, v1, ps[1..]);
      MarksThen(e, v, v1, WalkAll(e, s, v, ps));
    }
  }

  /** A walk that starts with nothing marked marks everything on a route from where it starts. */
  lemma RouteMarked(e: Env, s: Scope, v: View, r: View, w: seq<string>)
    requires Closed(e, s) && Agree(e, s) && v.visited == {} && Marks(e, v, r) && Real(e, s, r.from)
    requires Route(e, w) && w[0] in s.paths && !e.stat(w[|w| - 1]).Absent?
    requires !e.stat(w[0]).Absent? ==> e.trim(w[0]) in r.visited
    ensures e.trim(w[|w| - 1]) in r.visited
  {
    for i := 0 to |w| - 1
      invariant w[i] in s.paths && (!e.stat(w[i]).Absent? ==> e.trim(w[i]) in r.visited)
    {
      assert Leads(e, w[i], w[i + 1]);
      var k :| |v.from| <= k < |r.from| && e.trim(r.from[k]) == e.trim(w[i]);
      assert MarkedAt(e, r, k) && e.stat(r.from[k]) == e.stat(w[i]);
      assert Leads(e, r.from[k], w[i + 1]);
    }
  }

  /** Started at a link that leads back to its own name, the walk lists that name twice. */
  lemma CycleListedTwice(e: Env, s: Scope, l: string, q: string)
    requires Closed(e, s) && Agree(e, s) && l in s.paths && e.stat(l).Symlink?
    requires Reaches(e, WalkPath(e, e.trim(l)), q) && !e.stat(q).Absent? && e.trim(q) == e.trim(l)
    ensures !Distinct(e, WalkAll(e, s, View([], {}), [l]).from)
  {
    var target := WalkPath(e, e.trim(l));
    var v1 := View([l], {});
    StartsAtLink(e, s, l);
    PackReal(e, s, [l]);
    WalkMarks(e, s, v1, target);
    hide Walk, WalkAll, WalkPath, MarkedAt, Leads;
    var v2 := Walk(e, s, v1, target);
    var w :| Route(e, w) && w[0] == target && w[|w| - 1] == q;
    RouteMarked(e, s, v1, v2, w);
    var k :| 1 <= k < |v2.from| && e.trim(v2.from[k]) == e.trim(l);
    assert v2.from[0] == l;
  }

  lemma StartsAtLink(e: Env, s: Scope, l: string)
    requires Closed(e, s) && l in s.paths && e.stat(l).Symlink?
    ensures WalkPath(e, e.trim(l)) in s.paths
    ensures WalkAll(e, s, View([], {}), [l]).from == Walk(e, s, View([l], {}), WalkPath(e, e.trim(l))).from
  {
    hide WalkPath;
    assert [] + [l] == [l] && [l][1..] == [];
  }

  /** Directories and files are listed once in any case, and everything is if no link leads back to its
      own name. */
  lemma PackListsOnce(e: Env, s: Scope, starts: seq<string>)
    requires Closed(e, s) && forall p | p in starts :: p in s.paths
    ensures var from := WalkAll(e, s, View([], {}), starts).from;
            NonLinksDistinct(e, from) && (Acyclic(e, s) ==> Distinct(e, from))
  {
    AllNonLinksOnce(e, s, View([], {}), starts);
    if Acyclic(e, s) { AllOnce(e, s, View([], {}), starts, {}); }
  }

  ghost predicate InPaths(s: Scope, starts: seq<string>) {
    forall p | p in starts :: p in s.paths
  }

  /** Every pack lists everything once if and only if no link leads back to its own name. */
  lemma ListsOnceIffAcyclic(e: Env, s: Scope)
    requires Closed(e, s) && Agree(e, s)
    ensures Acyclic(e, s) <==>
            forall starts | InPaths(s, starts) :: Distinct(e, WalkAll(e, s, View([], {}), starts).from)
  {
    hide WalkAll, WalkPath, Distinct, Closed, Agree, Reaches;
    if Acyclic(e, s) {
      forall starts | InPaths(s, starts) ensures Distinct(e, WalkAll(e, s, View([], {}), starts).from) {
        PackListsOnce(e, s, starts);
      }
    } else {
      var l, q :| l in s.paths && e.stat(l).Symlink? && Reaches(e, WalkPath(e, e.trim(l)), q) && !e.stat(q).Absent?
                  && e.trim(q) == e.trim(l);
      CycleListedTwice(e, s, l, q);
      assert InPaths(s, [l]);
    }
  }

  /** The sizes of what was walked to, for the entries of the list that are regular files. */
  function Sizes(e: Env, from: seq<string>, cmds: seq<Cmd>): nat
    requires |from| == |cmds|
  {
    if cmds == [] then 0
    else
      var k := |cmds| - 1;
      Sizes(e, from[..k], cmds[..k]) + if cmds[k].ftype == 0 then SizeOf(e.stat(from[k])) else 0
  }

  /** The bytes to transfer are the sizes of the listed regular files, each as often as it is listed. */
  lemma {:induction false} TotalIsSizes(e: Env, from: seq<string>)
    ensures Total(e, from) == Sizes(e, from, CmdsFor(e, from))
  {
    if from != [] {
      var less := from[..|from| - 1];
      TotalIsSizes(e, less);
      assert CmdsFor(e, from)[..|from| - 1] == CmdsFor(e, less);
    }
  }

  /** A directory "/d" that holds a link "/d/l" back to itself. */
  function LoopEnv(): Env {
    Env(p => if p == "/d/l" then Symlink else if p == "/d" then Dir(["/d/l"]) else Absent,
        p => "/d", p => p)
  }

  function LoopScope(): Scope {
    Scope({"/d/l", "/d"}, p => if p == "/d/l" then 1 else 0)
  }

  lemma LoopPath()
    ensures WalkPath(LoopEnv(), "/d/l") == "/d" && !Bare("/d")
  {
    WalkPathReads(LoopEnv(), "/d/l");
    SplitConcat("", '/', "d");
    SplitOne("d", '/');
    assert "" + "/" + "d" == "/d" && Split("", '/') == [""] && Split("/d", '/') == ["", "d"];
    assert ["", "d"][1..] == ["d"] && ["d"][1..] == [];
    assert Clean("/d") == "/d";
  }

  lemma LoopFacts()
    ensures var e := LoopEnv();
            e.stat("/d/l").Symlink? && e.stat("/d") == Dir(["/d/l"]) && LoopScope().paths == {"/d/l", "/d"}
            && WalkPath(e, "/d/l") == "/d" && !Bare("/d") && e.trim("/d") == "/d" && e.trim("/d/l") == "/d/l"
            && "/d/l" != "/d" && ["/d/l"][1..] == [] && ["/d"][1..] == []
    ensures Closed(LoopEnv(), LoopScope())
  {
    assert |"/d/l"| == 4 && |"/d"| == 2;
    LoopPath();
    hide WalkPath, Bare;
  }

  /** Starting at the link, the walk lists it twice; starting at the directory, once. */
  lemma LinkListedTwice()
    ensures Closed(LoopEnv(), LoopScope())
    ensures WalkAll(LoopEnv(), LoopScope(), View([], {}), ["/d/l"]).from == ["/d/l", "/d", "/d/l"]
    ensures WalkAll(LoopEnv(), LoopScope(), View([], {}), ["/d"]).from == ["/d", "/d/l"]
  {
    LoopFacts();
    hide LoopEnv, LoopScope, WalkPath, Bare, Closed, DirLength;
    var e, s := LoopEnv(), LoopScope();
    var twice := View(["/d/l", "/d", "/d/l"], {"/d", "/d/l"});
    InnerWalk(e, s, ["/d/l"]);
    assert ["/d/l"] + ["/d", "/d/l"] == twice.from;
    assert [] + ["/d/l"] == ["/d/l"] && {"/d", "/d/l"} + {"/d/l"} == twice.visited;
    assert Walk(e, s, View([], {}), "/d/l") == twice;
    InnerWalk(e, s, []);
    assert [] + ["/d", "/d/l"] == ["/d", "/d/l"];
    assert WalkAll(e, s, View([], {}), ["/d"]) == WalkAll(e, s, Walk(e, s, View([], {}), "/d"), []);
    assert WalkAll(e, s, View([], {}), ["/d/l"]) == WalkAll(e, s, Walk(e, s, View([], {}), "/d/l"), []);
  }

  lemma InnerWalk(e: Env, s: Scope, from: seq<string>)
    requires e == LoopEnv() && s == LoopScope() && Closed(e, s)
    ensures Walk(e, s, View(from, {}), "/d") == View(from + ["/d", "/d/l"], {"/d", "/d/l"})
  {
    LoopFacts();
    hide LoopEnv, LoopScope, WalkPath, Bare, Closed, DirLength;
    var v1 := View(from + ["/d"], {"/d"});
    var v2 := View(v1.from + ["/d/l"], {"/d"});
    assert v2.from == from + ["/d", "/d/l"];
    assert Walk(e, s, v2, "/d") == v2;
    assert Walk(e, s, v1, "/d/l") == View(v2.from, {"/d"} + {"/d/l"});
    assert {} + {"/d"} == {"/d"};
    assert WalkAll(e, s, v1, ["/d/l"]) == WalkAll(e, s, Walk(e, s, v1, "/d/l"), []);
  }
}
