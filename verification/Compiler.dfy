/** `getTraverserFunc`: compiling a traverser for a type, as a function on the cache it updates. */
module Compiler {
  import opened TypeGraph
  import opened ReachSearch

  /** The cache between two searches: nothing is in progress, and only types known to reach have a
      traverser. */
  ghost predicate Quiet(g: Graph, s: State) {
    && Valid(g, s)
    && (forall x | x in s.m :: !Look(s, x).visiting)
    && (forall x | x in s.m && Look(s, x).trav != NoTrav :: Look(s, x).know == Yes)
  }

  function SetTrav(s: State, a: nat, tr: Trav): State
    requires a < |s.infos|
  {
    s.(infos := s.infos[a := s.infos[a].(trav := tr)])
  }

  /** What compiling may do to a cache: definite answers stay at their typeInfo, and a typeInfo with a
      traverser is not touched. */
  ghost predicate Grows(g: Graph, s: State, s': State)
    requires Valid(g, s) && Valid(g, s')
  {
    && s.m.Keys <= s'.m.Keys
    && (forall x | x in s.m && Look(s, x).know != DontKnow ::
          s'.m[x] == s.m[x] && Look(s', x).know == Look(s, x).know)
    && (forall x | x in s.m && Look(s, x).trav != NoTrav :: Look(s', x) == Look(s, x))
  }

  /** The types that have no traverser yet. */
  ghost function Bare(g: Graph, s: State): set<Ty>
    requires Valid(g, s)
  {
    set x: Ty | 0 <= x < |g| && !(x in s.m && Look(s, x).trav != NoTrav)
  }

  function GetTrav(g: Graph, t: Ty, s: State, x: Ty): (r: (State, Trav))
    requires WF(g) && Quiet(g, s) && x < |g|
    ensures Quiet(g, r.0) && Grows(g, s, r.0) && Bare(g, r.0) <= Bare(g, s)
    ensures x in r.0.m && Look(r.0, x).trav == r.1
    decreases Bare(g, s), 0, 0
  {
    var (s1, k) := CanReach(g, t, s, x);
    Searched(g, s, s1);
    var a := s1.m[x];
    if s1.infos[a].trav != NoTrav || k == No then (s1, s1.infos[a].trav)
    else if k == DontKnow then
      Hardened(g, s, s1, x);
      (SetKnow(s1, a, No), NoTrav)
    else if x == t then
      Installed(g, s, s1, x, CallF);
      (SetTrav(s1, a, CallF), CallF)
    else
      Installed(g, s, s1, x, Dummy);
      var (s3, tr) := Compile(g, t, SetTrav(s1, a, Dummy), x);
      Tied(g, s, s1, s3, x, tr);
      (SetTrav(s3, a, tr), tr)
  }

  /** The switch on the kind of `x`, whose typeInfo holds the dummy traverser. */
  function Compile(g: Graph, t: Ty, s: State, x: Ty): (r: (State, Trav))
    requires WF(g) && Quiet(g, s) && x < |g| && x in s.m && Look(s, x).trav == Dummy
    ensures Quiet(g, r.0) && Grows(g, s, r.0) && Bare(g, r.0) <= Bare(g, s) && r.1 != NoTrav
    decreases Bare(g, s), 2, 0
  {
    match g[x]
    case Ptr(e) =>
      assert Mentions(g, x, e);
      var (s1, f) := GetTrav(g, t, s, e);
      (s1, PtrT(f))
    case Struct(fs) =>
      var (s1, refs) := CompileFields(g, t, s, x, 0);
      (s1, StructT(refs))
    case Map(k, e) =>
      assert Mentions(g, x, k) && Mentions(g, x, e);
      var (s1, f) := GetTrav(g, t, s, k);
      assert Bare(g, s1) <= Bare(g, s);
      var (s2, h) := GetTrav(g, t, s1, e);
      (s2, MapT(f, h))
    case List(e) =>
      assert Mentions(g, x, e);
      var (s1, f) := GetTrav(g, t, s, e);
      (s1, ListT(f))
    case Iface => (s, IfaceT)
    case Leaf => (s, Dummy)  // the source panics here, with the dummy in place
  }

  /** The loop over all fields, exported or not, from field `i` on. */
  function CompileFields(g: Graph, t: Ty, s: State, x: Ty, i: nat): (r: (State, seq<Ref>))
    requires WF(g) && Quiet(g, s) && x < |g| && g[x].Struct? && i <= |g[x].fields|
    ensures Quiet(g, r.0) && Grows(g, s, r.0) && Bare(g, r.0) <= Bare(g, s)
    decreases Bare(g, s), 1, |g[x].fields| - i
  {
    if i == |g[x].fields| then (s, [])
    else
      var y := g[x].fields[i].ty;
      assert Mentions(g, x, y);
      var (s1, f) := GetTrav(g, t, s, y);
      var (s2, refs) := CompileFields(g, t, s1, x, i + 1);
      (s2, if f != NoTrav then [Ref(i, s1.m[y])] + refs else refs)
  }

  lemma Searched(g: Graph, s: State, s1: State)
    requires Quiet(g, s) && Valid(g, s1) && Extends(s, s1)
    ensures Quiet(g, s1) && Grows(g, s, s1) && Bare(g, s1) <= Bare(g, s)
  {
    forall x | x in s1.m ensures !Look(s1, x).visiting && (Look(s1, x).trav != NoTrav ==> Look(s1, x).know == Yes) {
      if s1.m[x] < |s.infos| { assert x in s.m && s1.m[x] == s.m[x] && Look(s1, x) == Look(s, x); }
    }
    forall x | x in s.m && Look(s, x).know != DontKnow ensures s1.m[x] == s.m[x] && Look(s1, x) == Look(s, x) {
    }
  }

  lemma Hardened(g: Graph, s: State, s1: State, x: Ty)
    requires Quiet(g, s) && Quiet(g, s1) && Grows(g, s, s1) && Bare(g, s1) <= Bare(g, s)
    requires x in s1.m && Look(s1, x).trav == NoTrav && Look(s1, x).know == DontKnow
    ensures var s' := SetKnow(s1, s1.m[x], No);
            && Quiet(g, s') && Grows(g, s, s') && Bare(g, s') <= Bare(g, s)
            && Look(s', x).trav == NoTrav
            && forall y | y in s1.m && y != x :: Look(s', y) == Look(s1, y)
  {
    var s' := SetKnow(s1, s1.m[x], No);
    assert forall y | y in s1.m && y != x :: Look(s', y) == Look(s1, y);
    assert Bare(g, s') == Bare(g, s1);
  }

  /** Giving a reaching type its first traverser. */
  lemma Installed(g: Graph, s: State, s1: State, x: Ty, tr: Trav)
    requires Quiet(g, s) && Quiet(g, s1) && Grows(g, s, s1) && Bare(g, s1) <= Bare(g, s)
    requires x in s1.m && Look(s1, x).trav == NoTrav && Look(s1, x).know == Yes && tr != NoTrav
    ensures var s' := SetTrav(s1, s1.m[x], tr);
            && Quiet(g, s') && Grows(g, s, s') && Grows(g, s1, s') && Bare(g, s') < Bare(g, s)
            && Look(s', x).trav == tr
            && forall y | y in s1.m && y != x :: Look(s', y) == Look(s1, y)
  {
    var s' := SetTrav(s1, s1.m[x], tr);
    assert forall y | y in s1.m && y != x :: Look(s', y) == Look(s1, y);
    assert Look(s', x) == Look(s1, x).(trav := tr);
    LessBare(g, s1, s', x);
    hide Bare;
  }

  lemma LessBare(g: Graph, s1: State, s': State, x: Ty)
    requires Valid(g, s1) && Valid(g, s') && x in s1.m && s'.m == s1.m
    requires Look(s1, x).trav == NoTrav && Look(s', x).trav != NoTrav
    requires forall y | y in s1.m && y != x :: Look(s', y) == Look(s1, y)
    ensures Bare(g, s') < Bare(g, s1)
  {
    assert x in Bare(g, s1) && x !in Bare(g, s');
    forall y | y in Bare(g, s') ensures y in Bare(g, s1) {
      assert y != x;
    }
  }

  /** Replacing the dummy by the finished traverser. */
  lemma Tied(g: Graph, s: State, s1: State, s3: State, x: Ty, tr: Trav)
    requires Quiet(g, s) && Quiet(g, s1) && Quiet(g, s3) && x in s1.m && tr != NoTrav
    requires Grows(g, s, s1)
    requires Look(s1, x).trav == NoTrav && Look(s1, x).know == Yes
    requires var s2 := SetTrav(s1, s1.m[x], Dummy);
             Quiet(g, s2) && Grows(g, s2, s3) && Bare(g, s3) <= Bare(g, s2) < Bare(g, s)
    ensures s3.m[x] == s1.m[x]
    ensures var s4 := SetTrav(s3, s1.m[x], tr);
            && Quiet(g, s4) && Grows(g, s, s4) && Bare(g, s4) <= Bare(g, s)
            && Look(s4, x).trav == tr
            && forall y | y in s3.m && y != x :: Look(s4, y) == Look(s3, y)
  {
    var s2 := SetTrav(s1, s1.m[x], Dummy);
    var s4 := SetTrav(s3, s1.m[x], tr);
    assert Look(s2, x) == Look(s1, x).(trav := Dummy) && Look(s3, x) == Look(s2, x);
    assert forall y | y in s1.m && y != x :: Look(s2, y) == Look(s1, y);
    Replaced(g, s3, x, tr);
    TiedGrows(g, s, s1, s2, s3, s4, x);
  }

  lemma Replaced(g: Graph, s: State, x: Ty, tr: Trav)
    requires Quiet(g, s) && x in s.m && Look(s, x).trav != NoTrav && tr != NoTrav
    ensures var s' := SetTrav(s, s.m[x], tr);
            && Quiet(g, s') && Bare(g, s') == Bare(g, s) && Look(s', x) == Look(s, x).(trav := tr)
            && forall y | y in s.m && y != x :: Look(s', y) == Look(s, y)
  {
    var s' := SetTrav(s, s.m[x], tr);
    assert forall y | y in s.m && y != x :: Look(s', y) == Look(s, y);
  }

  lemma TiedGrows(g: Graph, s: State, s1: State, s2: State, s3: State, s4: State, x: Ty)
    requires Valid(g, s) && Valid(g, s1) && Valid(g, s2) && Valid(g, s3) && Valid(g, s4)
    requires Grows(g, s, s1) && Grows(g, s2, s3) && s2.m == s1.m && s4.m == s3.m
    requires x in s1.m && Look(s1, x).trav == NoTrav && Look(s1, x).know == Yes && Look(s4, x).know == Yes
    requires s3.m[x] == s1.m[x]
    requires forall y | y in s1.m && y != x :: Look(s2, y) == Look(s1, y)
    requires forall y | y in s3.m && y != x :: Look(s4, y) == Look(s3, y)
    requires Look(s2, x).know == Yes
    ensures Grows(g, s, s4)
  {
    forall y | y in s.m && Look(s, y).trav != NoTrav ensures Look(s4, y) == Look(s, y) {
      assert Look(s1, y) == Look(s, y) && y != x;
    }
    forall y | y in s.m && Look(s, y).know != DontKnow
      ensures s4.m[y] == s.m[y] && Look(s4, y).know == Look(s, y).know
    {
      assert s1.m[y] == s.m[y] && Look(s1, y).know == Look(s, y).know;
    }
  }
}
