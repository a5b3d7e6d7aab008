/** When the dummy traverser gets captured.  The source expects that only structs, which indirect
    through the typeInfo, ever ask for a type that is still being compiled. */
module Knots {
  import opened TypeGraph
  import opened CompileOrder
  import opened ReachSearch
  import opened ReachCorrect
  import opened Compiler
  import opened CompilerCorrect
  import opened Traversal
  import opened TraversalCorrect

  // ----- The traversers of a cache, type by type -----

  ghost function TravOf(s: State, x: Ty): Trav
    requires x in s.m ==> s.m[x] < |s.infos|
  {
    if x in s.m then Look(s, x).trav else NoTrav
  }

  ghost function Travs(g: Graph, s: State): (r: seq<Trav>)
    requires Valid(g, s)
    ensures |r| == |g|
  {
    seq(|g|, x requires 0 <= x < |g| => TravOf(s, x))
  }

  /** The cache at the moment `x` has been given the dummy traverser. */
  ghost function Primed(g: Graph, t: Ty, s: State, x: Ty): State
    requires WF(g) && Quiet(g, s) && x < |g|
  {
    var s1 := CanReach(g, t, s, x).0;
    SetTrav(s1, s1.m[x], Dummy)
  }

  /** What one call of `getTraverserFunc` does to the traversers. */
  ghost predicate Step(g: Graph, t: Ty, s: State, x: Ty)
    requires WF(g) && Quiet(g, s) && x < |g|
  {
    var v := Travs(g, s);
    var (s', tr) := GetTrav(g, t, s, x);
    if v[x] != NoTrav || !Reaches(g, t, x) then Travs(g, s') == v && tr == v[x]
    else if x == t then Travs(g, s') == v[x := CallF] && tr == CallF
    else
      var s2 := Primed(g, t, s, x);
      && Sound(g, t, s2) && Bare(g, s2) < Bare(g, s)
      && Travs(g, s2) == v[x := Dummy] && x in s2.m && Look(s2, x).trav == Dummy
      && var (s3, tr3) := Compile(g, t, s2, x);
         tr == tr3 && tr != Dummy && Travs(g, s3)[x] == Dummy && Travs(g, s') == Travs(g, s3)[x := tr]
  }

  lemma SearchTravs(g: Graph, t: Ty, s: State, x: Ty)
    requires WF(g) && Quiet(g, s) && x < |g|
    ensures Travs(g, CanReach(g, t, s, x).0) == Travs(g, s)
  {
    var s1 := CanReach(g, t, s, x).0;
    Searched(g, s, s1);
    forall y: Ty | y < |g| ensures TravOf(s1, y) == TravOf(s, y) {
      if y in s1.m && s1.m[y] < |s.infos| {
        assert Look(s1, y) == s.infos[s1.m[y]];
      }
      if y in s.m && Look(s, y).trav != NoTrav { assert Look(s1, y) == Look(s, y); }
    }
  }

  lemma OneTrav(g: Graph, s: State, s': State, x: Ty)
    requires Valid(g, s) && Valid(g, s') && x in s.m && s'.m == s.m
    requires forall y | y in s.m && y != x :: Look(s', y) == Look(s, y)
    ensures Travs(g, s') == Travs(g, s)[x := Look(s', x).trav]
  {
    forall y: Ty | y < |g| ensures Travs(g, s')[y] == Travs(g, s)[x := Look(s', x).trav][y] {}
  }

  lemma Steps(g: Graph, t: Ty, s: State, x: Ty)
    requires WF(g) && TrapFree(g, t) && Sound(g, t, s) && x < |g|
    ensures Step(g, t, s, x)
  {
    hide Compile, CanReach;
    var (s1, k) := CanReach(g, t, s, x);
    SearchSound(g, t, s, x);
    Searched(g, s, s1);
    SearchTravs(g, t, s, x);
    var a := s1.m[x];
    assert Travs(g, s)[x] == s1.infos[a].trav;
    if s1.infos[a].trav != NoTrav || k == No {
    } else if k == DontKnow {
      Hardened(g, s, s1, x);
      OneTrav(g, s1, SetKnow(s1, a, No), x);
    } else if x == t {
      Installed(g, s, s1, x, CallF);
      OneTrav(g, s1, SetTrav(s1, a, CallF), x);
    } else {
      CompileStep(g, t, s, s1, x);
    }
  }

  lemma CompileStep(g: Graph, t: Ty, s: State, s1: State, x: Ty)
    requires WF(g) && TrapFree(g, t) && Sound(g, t, s) && x < |g| && x != t && Reaches(g, t, x)
    requires s1 == CanReach(g, t, s, x).0 && Sound(g, t, s1) && Grows(g, s, s1) && Bare(g, s1) <= Bare(g, s)
    requires Travs(g, s1) == Travs(g, s) && Look(s1, x).trav == NoTrav && Look(s1, x).know == Yes
    ensures Step(g, t, s, x)
  {
    hide Compile, CanReach;
    var s2 := SetTrav(s1, s1.m[x], Dummy);
    PrimeStep(g, t, s, s1, x);
    CompileNotDummy(g, t, s2, x);
    var (s3, tr) := Compile(g, t, s2, x);
    TieStep(g, s, s1, s3, x, tr);
    assert GetTrav(g, t, s, x) == (SetTrav(s3, s1.m[x], tr), tr);
  }

  lemma PrimeStep(g: Graph, t: Ty, s: State, s1: State, x: Ty)
    requires WF(g) && Sound(g, t, s) && Sound(g, t, s1) && x in s1.m && Grows(g, s, s1) && Bare(g, s1) <= Bare(g, s)
    requires Travs(g, s1) == Travs(g, s) && Look(s1, x).trav == NoTrav && Look(s1, x).know == Yes
    ensures var s2 := SetTrav(s1, s1.m[x], Dummy);
            && Quiet(g, s2) && Sound(g, t, s2) && Bare(g, s2) < Bare(g, s)
            && Travs(g, s2) == Travs(g, s)[x := Dummy] && Look(s2, x).trav == Dummy
  {
    hide CanReach, GetTrav;
    var s2 := SetTrav(s1, s1.m[x], Dummy);
    Installed(g, s, s1, x, Dummy);
    OneTrav(g, s1, s2, x);
    GrowsKeeps(g, s1, s2);
    SoundUpdate(g, t, s1, s2, x);
  }

  lemma TieStep(g: Graph, s: State, s1: State, s3: State, x: Ty, tr: Trav)
    requires Quiet(g, s) && Quiet(g, s1) && Quiet(g, s3) && x in s1.m && tr != NoTrav && Grows(g, s, s1)
    requires Look(s1, x).trav == NoTrav && Look(s1, x).know == Yes
    requires var s2 := SetTrav(s1, s1.m[x], Dummy);
             && Quiet(g, s2) && Grows(g, s2, s3) && Bare(g, s3) <= Bare(g, s2) < Bare(g, s)
             && Look(s2, x).trav == Dummy
    ensures Travs(g, s3)[x] == Dummy && s3.m[x] == s1.m[x]
    ensures var s4 := SetTrav(s3, s1.m[x], tr); Valid(g, s4) && Travs(g, s4) == Travs(g, s3)[x := tr]
  {
    Tied(g, s, s1, s3, x, tr);
    OneTrav(g, s3, SetTrav(s3, s1.m[x], tr), x);
  }

  lemma CompileNotDummy(g: Graph, t: Ty, s: State, x: Ty)
    requires WF(g) && Quiet(g, s) && x < |g| && x in s.m && Look(s, x).trav == Dummy
    requires x != t && Reaches(g, t, x)
    ensures Compile(g, t, s, x).1 != Dummy
  {
    if g[x].Leaf? { var y := ReachesUnfold(g, t, x); }
  }

  // ----- The compiler follows the depth-first walk -----

  function Done(v: seq<Trav>): set<Ty> {
    set x: Ty | 0 <= x < |v| && v[x] != NoTrav && v[x] != Dummy
  }

  function Open(v: seq<Trav>): set<Ty> {
    set x: Ty | 0 <= x < |v| && v[x] == Dummy
  }

  /** The dummy itself was captured in the place of a part. */
  predicate Captured(tr: Trav) {
    match tr
    case PtrT(f) => f.Dummy?
    case ListT(f) => f.Dummy?
    case MapT(f, h) => f.Dummy? || h.Dummy?
    case _ => false
  }

  ghost predicate AllClean(v: seq<Trav>) {
    forall x | x in Done(v) :: Clean(v[x])
  }

  /** From `v` to `v'` exactly the types of `r` were compiled, and exactly its bad ones captured the
      dummy. */
  ghost predicate Follows(v: seq<Trav>, v': seq<Trav>, r: Visited) {
    && |v'| == |v| && Done(v') == r.done && Open(v') == Open(v)
    && (forall y | y in Done(v) :: v'[y] == v[y])
    && (forall y | y in r.done && y !in Done(v) :: Captured(v'[y]) <==> y in r.bad)
    && (AllClean(v) && r.bad == {} ==> AllClean(v'))
  }

  lemma FollowsThen(v: seq<Trav>, v1: seq<Trav>, v2: seq<Trav>, r1: Visited, r2: Visited, flag: set<Ty>, x: Ty)
    requires Follows(v, v1, r1) && Follows(v1, v2, r2) && flag <= {x} && x in Open(v)
    requires r1.bad !! Done(v) + Open(v) && r1.bad <= r1.done && r2.bad - {x} !! r1.done + Open(v)
    ensures Follows(v, v2, Visited(r2.done, flag + r1.bad + r2.bad))
  {
    forall y | y in r2.done && y !in Done(v) ensures Captured(v2[y]) <==> y in flag + r1.bad + r2.bad {
      assert y in Done(v2) && y !in Open(v2);
      assert y != x;
      if y in r1.done { assert v2[y] == v1[y]; }
    }
  }

  lemma FollowsNothing(v: seq<Trav>)
    ensures Follows(v, v, Visited(Done(v), {}))
  {}

  /** Tying the finished traverser of `x`. */
  lemma FollowsTie(v: seq<Trav>, v3: seq<Trav>, x: Ty, tr: Trav, r: Visited)
    requires x < |v| && v[x] == NoTrav && Follows(v[x := Dummy], v3, r) && tr != Dummy && tr != NoTrav
    requires Captured(tr) <==> x in r.bad
    requires AllClean(v) && r.bad == {} ==> Clean(tr)
    ensures Follows(v, v3[x := tr], Visited(r.done + {x}, r.bad))
  {
    var u, v' := v[x := Dummy], v3[x := tr];
    assert Done(u) == Done(v) && Open(u) == Open(v) + {x};
    assert v3[x] == Dummy by { assert x in Open(v3); }
    assert Done(v') == Done(v3) + {x} && Open(v') == Open(v3) - {x};
  }

  lemma {:induction false} GetTravVisits(g: Graph, t: Ty, s: State, x: Ty)
    requires WF(g) && TrapFree(g, t) && Sound(g, t, s) && x < |g|
    ensures var (s', tr) := GetTrav(g, t, s, x);
            var v := Travs(g, s);
            && Sound(g, t, s') && Follows(v, Travs(g, s'), Visit(g, t, Done(v), Open(v), x))
            && tr == Travs(g, s')[x] && (tr != NoTrav <==> Reaches(g, t, x))
    decreases Bare(g, s), 0, 0
  {
    hide GetTrav, CanReach, Compile, Reaches, AllBuilt, AllRight, Grows, VisitAsked;
    GetTravSound(g, t, s, x);
    Steps(g, t, s, x);
    var v := Travs(g, s);
    if v[x] != NoTrav || !Reaches(g, t, x) {
      FollowsNothing(v);
    } else if x == t {
      TieNothing(v, x);
      FollowsTie(v, v[x := Dummy], x, CallF, Visited(Done(v), {}));
      assert v[x := Dummy][x := CallF] == v[x := CallF];
    } else {
      var s2 := Primed(g, t, s, x);
      CompileVisits(g, t, s2, x);
      var (s3, tr) := Compile(g, t, s2, x);
      TieOpen(v, x);
      FollowsTie(v, Travs(g, s3), x, tr, VisitAsked(g, t, Done(v), Open(v) + {x}, x, 0));
    }
  }

  lemma TieOpen(v: seq<Trav>, x: Ty)
    requires x < |v| && v[x] == NoTrav
    ensures Done(v[x := Dummy]) == Done(v) && Open(v[x := Dummy]) == Open(v) + {x}
    ensures AllClean(v[x := Dummy]) == AllClean(v)
  {}

  lemma TieNothing(v: seq<Trav>, x: Ty)
    requires x < |v| && v[x] == NoTrav
    ensures Follows(v[x := Dummy], v[x := Dummy], Visited(Done(v), {}))
  {
    TieOpen(v, x);
  }

  /** Asking for the members of `x` from the i-th on. */
  ghost function AskMembers(g: Graph, t: Ty, s: State, x: Ty, i: nat): (s': State)
    requires WF(g) && Quiet(g, s) && x < |g| && i <= |Asks(g, x)|
    ensures Quiet(g, s') && Bare(g, s') <= Bare(g, s)
    decreases |Asks(g, x)| - i
  {
    if i == |Asks(g, x)| then s
    else
      AsksMentions(g, x, Asks(g, x)[i]);
      AskMembers(g, t, GetTrav(g, t, s, Asks(g, x)[i]).0, x, i + 1)
  }

  lemma {:induction false} MembersVisited(g: Graph, t: Ty, s: State, x: Ty, i: nat)
    requires WF(g) && TrapFree(g, t) && Sound(g, t, s) && x < |g| && i <= |Asks(g, x)| && x in Open(Travs(g, s))
    ensures var s' := AskMembers(g, t, s, x, i);
            var v := Travs(g, s);
            Sound(g, t, s') && Follows(v, Travs(g, s'), VisitAsked(g, t, Done(v), Open(v), x, i))
    decreases Bare(g, s), 1, |Asks(g, x)| - i
  {
    hide GetTrav, CanReach, Reaches, TrapFree, AllRight, AllBuilt, Grows, Follows, Visit;
    var v := Travs(g, s);
    if i == |Asks(g, x)| {
      FollowsNothing(v);
    } else {
      var y := Asks(g, x)[i];
      AsksMentions(g, x, y);
      GetTravVisits(g, t, s, y);
      var s1 := GetTrav(g, t, s, y).0;
      FollowsOpen(v, Travs(g, s1), Visit(g, t, Done(v), Open(v), y));
      MembersVisited(g, t, s1, x, i + 1);
      MembersJoin(g, t, v, Travs(g, s1), Travs(g, AskMembers(g, t, s1, x, i + 1)), x, i);
    }
  }

  lemma FollowsOpen(v: seq<Trav>, v': seq<Trav>, r: Visited)
    requires Follows(v, v', r)
    ensures Open(v') == Open(v) && Done(v') == r.done && |v'| == |v|
  {}

  lemma MembersJoin(g: Graph, t: Ty, v: seq<Trav>, v1: seq<Trav>, v2: seq<Trav>, x: Ty, i: nat)
    requires WF(g) && x < |g| && i < |Asks(g, x)| && Asks(g, x)[i] < |g| && x in Open(v)
    requires Follows(v, v1, Visit(g, t, Done(v), Open(v), Asks(g, x)[i]))
    requires Follows(v1, v2, VisitAsked(g, t, Done(v1), Open(v1), x, i + 1))
    ensures Follows(v, v2, VisitAsked(g, t, Done(v), Open(v), x, i))
  {
    var y := Asks(g, x)[i];
    FollowsOpen(v, v1, Visit(g, t, Done(v), Open(v), y));
    var r1 := Visit(g, t, Done(v), Open(v), y);
    var r2 := VisitAsked(g, t, r1.done, Open(v), x, i + 1);
    hide Follows, Visit, Asks;
    var flag := if y in Open(v) && !g[x].Struct? then {x} else {};
    FollowsThen(v, v1, v2, r1, r2, flag, x);
  }

  /** The members of `x` that are open, seen from the walk. */
  lemma {:induction false} BadHere(g: Graph, t: Ty, done: set<Ty>, open: set<Ty>, x: Ty, i: nat)
    requires WF(g) && x < |g| && i <= |Asks(g, x)| && x in open
    ensures x in VisitAsked(g, t, done, open, x, i).bad <==>
            !g[x].Struct? && exists k :: i <= k < |Asks(g, x)| && Asks(g, x)[k] in open
    decreases |Asks(g, x)| - i
  {
    if i < |Asks(g, x)| {
      AsksMentions(g, x, Asks(g, x)[i]);
      BadHere(g, t, Visit(g, t, done, open, Asks(g, x)[i]).done, open, x, i + 1);
    }
  }

  /** What asking for a member yields. */
  lemma {:induction false} MemberAnswer(g: Graph, t: Ty, s: State, y: Ty)
    requires WF(g) && TrapFree(g, t) && Sound(g, t, s) && y < |g|
    ensures var (s', f) := GetTrav(g, t, s, y);
            var v := Travs(g, s);
            && Sound(g, t, s') && Open(Travs(g, s')) == Open(v)
            && (f.Dummy? <==> y in Open(v)) && (f != NoTrav <==> Reaches(g, t, y))
            && (AllClean(v) && Visit(g, t, Done(v), Open(v), y).bad == {} && y !in Open(v) ==>
                  AllClean(Travs(g, s')) && Clean(f))
    decreases Bare(g, s), 1, 0
  {
    hide GetTrav, CanReach, AllRight, AllBuilt, Grows, Reaches, TrapFree, Visit;
    GetTravVisits(g, t, s, y);
    var v' := Travs(g, GetTrav(g, t, s, y).0);
    assert y in Open(v') <==> v'[y] == Dummy;
    assert y in Done(v') <==> v'[y] != NoTrav && v'[y] != Dummy;
  }

  /** The traverser made for `x` holds the dummy exactly if the walk says so. */
  lemma {:induction false} CompileVisits(g: Graph, t: Ty, s: State, x: Ty)
    requires WF(g) && TrapFree(g, t) && Sound(g, t, s) && x < |g|
    requires x != t && Reaches(g, t, x) && x in s.m && Look(s, x).trav == Dummy
    ensures var (s', tr) := Compile(g, t, s, x);
            var v := Travs(g, s);
            var r := VisitAsked(g, t, Done(v), Open(v), x, 0);
            && Follows(v, Travs(g, s'), r) && (Captured(tr) <==> x in r.bad)
            && (AllClean(v) && r.bad == {} ==> Clean(tr)) && tr != NoTrav
    decreases Bare(g, s), 2, 0
  {
    var v := Travs(g, s);
    assert x in Open(v);
    hide *;
    MembersVisited(g, t, s, x, 0);
    BadHere(g, t, Done(v), Open(v), x, 0);
    Composed(g, t, s, x);
  }

  /** What compiling makes of the answers for the members. */
  lemma {:induction false} Composed(g: Graph, t: Ty, s: State, x: Ty)
    requires WF(g) && TrapFree(g, t) && Sound(g, t, s) && x < |g| && x in Open(Travs(g, s))
    requires x != t && Reaches(g, t, x) && x in s.m && Look(s, x).trav == Dummy
    ensures var (s', tr) := Compile(g, t, s, x);
            var v := Travs(g, s);
            && s' == AskMembers(g, t, s, x, 0) && tr != NoTrav
            && (Captured(tr) <==> !g[x].Struct? && exists k :: 0 <= k < |Asks(g, x)| && Asks(g, x)[k] in Open(v))
            && (AllClean(v) && VisitAsked(g, t, Done(v), Open(v), x, 0).bad == {} ==> Clean(tr))
    decreases Bare(g, s), 1, 3
  {
    hide *;
    SoundQuiet(g, t, s);
    CompileForm(g, t, s, x);
    match g[x]
    case Ptr(e) =>
      OneVisits(g, t, s, x, e);
      assert Asks(g, x)[0] == e;
      Forms(GetTrav(g, t, s, e).1, NoTrav);
    case List(e) =>
      OneVisits(g, t, s, x, e);
      assert Asks(g, x)[0] == e;
      Forms(GetTrav(g, t, s, e).1, NoTrav);
    case Map(k, e) =>
      MapVisits(g, t, s, x, k, e);
      assert Asks(g, x)[0] == k && Asks(g, x)[1] == e;
      Forms(GetTrav(g, t, s, k).1, GetTrav(g, t, GetTrav(g, t, s, k).0, e).1);
    case Struct(_) =>
      FieldsAsked(g, t, s, x, 0);
      StructForms(CompileFields(g, t, s, x, 0).1);
    case Iface =>
      NoneAsked(g, t, s, x);
      StructForms([]);
    case Leaf =>
  }

  /** What compiling makes of each kind. */
  lemma CompileForm(g: Graph, t: Ty, s: State, x: Ty)
    requires WF(g) && Quiet(g, s) && x < |g| && x in s.m && Look(s, x).trav == Dummy && x != t && Reaches(g, t, x)
    ensures !g[x].Leaf?
    ensures match g[x]
            case Ptr(e) => e < |g| && Compile(g, t, s, x) == (GetTrav(g, t, s, e).0, PtrT(GetTrav(g, t, s, e).1))
            case List(e) => e < |g| && Compile(g, t, s, x) == (GetTrav(g, t, s, e).0, ListT(GetTrav(g, t, s, e).1))
            case Map(k, e) =>
              && k < |g| && e < |g|
              && var (s1, f) := GetTrav(g, t, s, k);
                 var (s2, h) := GetTrav(g, t, s1, e);
                 Compile(g, t, s, x) == (s2, MapT(f, h))
            case Struct(_) =>
              Compile(g, t, s, x) == (CompileFields(g, t, s, x, 0).0, StructT(CompileFields(g, t, s, x, 0).1))
            case _ => Compile(g, t, s, x) == (s, IfaceT)
  {
    hide GetTrav, CompileFields, Grows, Quiet;
    if g[x].Leaf? { var y := ReachesUnfold(g, t, x); }
    if g[x].Map? { MapInGraph(g, x, g[x].key, g[x].elem); }
    if g[x].Ptr? || g[x].List? { OnlyMember(g, t, x); }
  }

  lemma Forms(f: Trav, h: Trav)
    ensures Clean(PtrT(f)) == Clean(f) && Captured(PtrT(f)) == f.Dummy?
    ensures Clean(ListT(f)) == Clean(f) && Captured(ListT(f)) == f.Dummy?
    ensures Clean(MapT(f, h)) == (Clean(f) && Clean(h)) && Captured(MapT(f, h)) == (f.Dummy? || h.Dummy?)
  {}

  lemma StructForms(refs: seq<Ref>)
    ensures Clean(StructT(refs)) && !Captured(StructT(refs)) && Clean(IfaceT) && !Captured(IfaceT)
  {}

  lemma NoneAsked(g: Graph, t: Ty, s: State, x: Ty)
    requires WF(g) && Quiet(g, s) && x < |g| && g[x].Iface?
    ensures AskMembers(g, t, s, x, 0) == s && Asks(g, x) == []
  {
    hide GetTrav, Quiet, WF, Valid, Bare;
    assert Asks(g, x) == [];
  }

  /** A pointer, array or slice. */
  lemma {:induction false} OneVisits(g: Graph, t: Ty, s: State, x: Ty, e: Ty)
    requires WF(g) && TrapFree(g, t) && Sound(g, t, s) && x < |g| && x != t && Reaches(g, t, x)
    requires (g[x] == Ptr(e) || g[x] == List(e)) && x in Open(Travs(g, s))
    ensures Asks(g, x) == [e] && e < |g|
    ensures var (s', f) := GetTrav(g, t, s, e);
            var v := Travs(g, s);
            && s' == AskMembers(g, t, s, x, 0) && (f.Dummy? <==> e in Open(v)) && f != NoTrav
            && (AllClean(v) && VisitAsked(g, t, Done(v), Open(v), x, 0).bad == {} ==> Clean(f))
    decreases Bare(g, s), 1, 1
  {
    hide *;
    OnlyMember(g, t, x);
    SoundQuiet(g, t, s);
    var v := Travs(g, s);
    OneAsked(g, t, Done(v), Open(v), x, e);
    MemberAnswer(g, t, s, e);
    MembersAre(g, t, s, x);
  }

  lemma MembersAre(g: Graph, t: Ty, s: State, x: Ty)
    requires WF(g) && Quiet(g, s) && x < |g| && forall i | 0 <= i < |Asks(g, x)| :: Asks(g, x)[i] < |g|
    ensures |Asks(g, x)| == 1 ==> AskMembers(g, t, s, x, 0) == GetTrav(g, t, s, Asks(g, x)[0]).0
    ensures |Asks(g, x)| == 2 ==>
              AskMembers(g, t, s, x, 0) == GetTrav(g, t, GetTrav(g, t, s, Asks(g, x)[0]).0, Asks(g, x)[1]).0
  {
    hide GetTrav, Grows, Quiet, Asks;
    if |Asks(g, x)| == 2 {
      assert AskMembers(g, t, s, x, 0) == AskMembers(g, t, GetTrav(g, t, s, Asks(g, x)[0]).0, x, 1);
    }
  }

  lemma TwoAre(g: Graph, t: Ty, s: State, x: Ty, k: Ty, e: Ty)
    requires WF(g) && Quiet(g, s) && x < |g| && Asks(g, x) == [k, e] && k < |g| && e < |g|
    ensures AskMembers(g, t, s, x, 0) == GetTrav(g, t, GetTrav(g, t, s, k).0, e).0
  {
    MembersAre(g, t, s, x);
  }

  lemma MapInGraph(g: Graph, x: Ty, k: Ty, e: Ty)
    requires WF(g) && x < |g| && g[x] == Map(k, e)
    ensures k < |g| && e < |g|
  {
    assert Mentions(g, x, k) && Mentions(g, x, e);
  }

  lemma SoundQuiet(g: Graph, t: Ty, s: State)
    requires WF(g) && Sound(g, t, s)
    ensures Quiet(g, s) && Valid(g, s)
  {}

  lemma {:induction false} MapVisits(g: Graph, t: Ty, s: State, x: Ty, k: Ty, e: Ty)
    requires WF(g) && TrapFree(g, t) && Sound(g, t, s) && x < |g| && x != t && Reaches(g, t, x)
    requires g[x] == Map(k, e) && x in Open(Travs(g, s))
    ensures Asks(g, x) == [k, e] && k < |g| && e < |g|
    ensures var (s1, f) := GetTrav(g, t, s, k);
            var (s2, h) := GetTrav(g, t, s1, e);
            var v := Travs(g, s);
            && s2 == AskMembers(g, t, s, x, 0) && (f.Dummy? <==> k in Open(v)) && (h.Dummy? <==> e in Open(v))
            && (AllClean(v) && VisitAsked(g, t, Done(v), Open(v), x, 0).bad == {} ==> Clean(f) && Clean(h))
    decreases Bare(g, s), 1, 2
  {
    MapInGraph(g, x, k, e);
    hide *;
    var v := Travs(g, s);
    TwoAsked(g, t, Done(v), Open(v), x, k, e);
    SoundQuiet(g, t, s);
    MapAnswers(g, t, s, k, e);
    TwoAre(g, t, s, x, k, e);
  }

  /** What asking for the key and then for the element of a map yields. */
  lemma {:induction false} MapAnswers(g: Graph, t: Ty, s: State, k: Ty, e: Ty)
    requires WF(g) && TrapFree(g, t) && Sound(g, t, s) && k < |g| && e < |g|
    ensures var (s1, f) := GetTrav(g, t, s, k);
            var (s2, h) := GetTrav(g, t, s1, e);
            var v := Travs(g, s);
            var r := Visit(g, t, Done(v), Open(v), k);
            && (f.Dummy? <==> k in Open(v)) && (h.Dummy? <==> e in Open(v))
            && (AllClean(v) && r.bad + Visit(g, t, r.done, Open(v), e).bad == {} && k !in Open(v) && e !in Open(v) ==>
                  Clean(f) && Clean(h))
    decreases Bare(g, s), 1, 1
  {
    hide *;
    SoundQuiet(g, t, s);
    var v, s1 := Travs(g, s), GetTrav(g, t, s, k).0;
    MemberAnswer(g, t, s, k);
    SoundQuiet(g, t, s1);
    GetTravVisits(g, t, s, k);
    FollowsOpen(v, Travs(g, s1), Visit(g, t, Done(v), Open(v), k));
    MemberAnswer(g, t, s1, e);
  }

  lemma {:induction false} FieldsAsked(g: Graph, t: Ty, s: State, x: Ty, i: nat)
    requires WF(g) && Quiet(g, s) && x < |g| && g[x].Struct? && i <= |g[x].fields|
    ensures |Asks(g, x)| == |g[x].fields| && CompileFields(g, t, s, x, i).0 == AskMembers(g, t, s, x, i)
    decreases |g[x].fields| - i
  {
    hide GetTrav, Grows, Quiet, Reaches, Valid, Bare;
    assert |Asks(g, x)| == |g[x].fields|;
    if i < |g[x].fields| {
      var y := g[x].fields[i].ty;
      assert Mentions(g, x, y) && Asks(g, x)[i] == y;
      hide WF, Asks;
      FieldsAsked(g, t, GetTrav(g, t, s, y).0, x, i + 1);
    }
  }
}
