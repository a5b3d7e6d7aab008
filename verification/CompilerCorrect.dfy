/** What compiled traversers look like, and that every cache built by any history of calls holds only
    right answers and well-built traversers. */
module CompilerCorrect {
  import opened TypeGraph
  import opened ReachSearch
  import opened ReachCorrect
  import opened Compiler

  /** A struct traverser lists, in order, exactly the fields from `i` on whose type reaches, each with
      the address of the typeInfo that is live for that type. */
  ghost predicate Lists(g: Graph, t: Ty, s: State, x: Ty, i: nat, refs: seq<Ref>)
    requires Valid(g, s) && x < |g| && g[x].Struct? && i <= |g[x].fields|
    decreases |g[x].fields| - i
  {
    if i == |g[x].fields| then refs == []
    else
      var y := g[x].fields[i].ty;
      if Reaches(g, t, y) then
        && refs != [] && refs[0].field == i
        && y in s.m && refs[0].info == s.m[y] && Look(s, y).know == Yes && Look(s, y).trav != NoTrav
        && Lists(g, t, s, x, i + 1, refs[1..])
      else Lists(g, t, s, x, i + 1, refs)
  }

  /** `tr` is a traverser for `x`, except that a dummy may have been captured in the place of a part. */
  ghost predicate Built(g: Graph, t: Ty, s: State, tr: Trav, x: Ty)
    requires Valid(g, s)
    decreases tr
  {
    && x < |g|
    && (tr.Dummy? ||
        if x == t then tr.CallF?
        else match g[x]
          case Ptr(e) => tr.PtrT? && Built(g, t, s, tr.elemT, e)
          case Struct(_) => tr.StructT? && Lists(g, t, s, x, 0, tr.refs)
          case Map(k, e) =>
            && tr.MapT?
            && (if Reaches(g, t, k) then Built(g, t, s, tr.keyT, k) else tr.keyT == NoTrav)
            && (if Reaches(g, t, e) then Built(g, t, s, tr.valT, e) else tr.valT == NoTrav)
          case List(e) => tr.ListT? && Built(g, t, s, tr.itemT, e)
          case Iface => tr.IfaceT?
          case Leaf => false)
  }

  ghost predicate AllBuilt(g: Graph, t: Ty, s: State)
    requires Valid(g, s)
  {
    forall x | x in s.m && Look(s, x).trav != NoTrav :: Built(g, t, s, Look(s, x).trav, x)
  }

  ghost predicate Sound(g: Graph, t: Ty, s: State)
    requires WF(g)
  {
    Quiet(g, s) && AllRight(g, t, s) && AllBuilt(g, t, s)
  }

  lemma FreshSound(g: Graph, t: Ty)
    requires WF(g)
    ensures Sound(g, t, Fresh)
  {}

  /** The part of growth that captured addresses rely on: a `yes` is never moved to another typeInfo. */
  ghost predicate Keeps(g: Graph, s: State, s': State)
    requires Valid(g, s) && Valid(g, s')
  {
    forall x | x in s.m && Look(s, x).know == Yes ::
      && x in s'.m && s'.m[x] == s.m[x] && Look(s', x).know == Yes
      && (Look(s, x).trav != NoTrav ==> Look(s', x).trav != NoTrav)
  }

  lemma GrowsKeeps(g: Graph, s: State, s': State)
    requires Valid(g, s) && Valid(g, s') && Grows(g, s, s')
    ensures Keeps(g, s, s')
  {}

  lemma {:induction false} ListsKept(g: Graph, t: Ty, s: State, s': State, x: Ty, i: nat, refs: seq<Ref>)
    requires Valid(g, s) && Valid(g, s') && Keeps(g, s, s')
    requires x < |g| && g[x].Struct? && i <= |g[x].fields| && Lists(g, t, s, x, i, refs)
    ensures Lists(g, t, s', x, i, refs)
    decreases |g[x].fields| - i
  {
    if i < |g[x].fields| {
      ListsKept(g, t, s, s', x, i + 1, if Reaches(g, t, g[x].fields[i].ty) then refs[1..] else refs);
    }
  }

  lemma {:induction false} BuiltKept(g: Graph, t: Ty, s: State, s': State, tr: Trav, x: Ty)
    requires Valid(g, s) && Valid(g, s') && Keeps(g, s, s') && Built(g, t, s, tr, x)
    ensures Built(g, t, s', tr, x)
    decreases tr
  {
    if tr.Dummy? || x == t {
    } else {
      match g[x]
      case Ptr(e) => BuiltKept(g, t, s, s', tr.elemT, e);
      case List(e) => BuiltKept(g, t, s, s', tr.itemT, e);
      case Map(k, e) =>
        if Reaches(g, t, k) { BuiltKept(g, t, s, s', tr.keyT, k); }
        if Reaches(g, t, e) { BuiltKept(g, t, s, s', tr.valT, e); }
      case Struct(_) => ListsKept(g, t, s, s', x, 0, tr.refs);
      case Iface =>
    }
  }

  /** Changing one typeInfo in a way that keeps captured addresses keeps the cache sound. */
  lemma SoundUpdate(g: Graph, t: Ty, s: State, s': State, x: Ty)
    requires WF(g) && Quiet(g, s) && Quiet(g, s') && AllRight(g, t, s) && AllBuilt(g, t, s) && Keeps(g, s, s')
    requires s'.m == s.m && x in s.m && (forall y | y in s.m && y != x :: Look(s', y) == Look(s, y))
    requires Right(g, t, x, Look(s', x))
    requires Look(s', x).trav != NoTrav ==> Built(g, t, s', Look(s', x).trav, x)
    ensures Sound(g, t, s')
  {
    forall y | y in s'.m && Look(s', y).trav != NoTrav ensures Built(g, t, s', Look(s', y).trav, y) {
      if y != x { BuiltKept(g, t, s, s', Look(s, y).trav, y); }
    }
  }

  /** A search between compilations answers exactly, and keeps the cache sound. */
  lemma SearchSound(g: Graph, t: Ty, s: State, x: Ty)
    requires WF(g) && TrapFree(g, t) && Sound(g, t, s) && x < |g|
    ensures var (s1, k) := CanReach(g, t, s, x);
            && Sound(g, t, s1) && Grows(g, s, s1) && (k == Yes <==> Reaches(g, t, x))
  {
    var (s1, k) := CanReach(g, t, s, x);
    Searched(g, s, s1);
    Decides(g, t, s, x);
    GrowsKeeps(g, s, s1);
    forall y | y in s1.m && Look(s1, y).trav != NoTrav ensures Built(g, t, s1, Look(s1, y).trav, y) {
      if s1.m[y] < |s.infos| {
        assert y in s.m && s1.m[y] == s.m[y] && Look(s1, y) == Look(s, y);
        BuiltKept(g, t, s, s1, Look(s, y).trav, y);
      }
    }
    if Reaches(g, t, x) {
      var p :| Route(g, t, x, p);
      assert Clear(g, s, p) by {
        forall i | 0 <= i < |p| ensures !Visiting(s, p[i]) {}
      }
      Finds(g, t, s, x, p);
    }
    assert Right(g, t, x, Look(s1, x));
  }

  lemma {:induction false} GetTravSound(g: Graph, t: Ty, s: State, x: Ty)
    requires WF(g) && TrapFree(g, t) && Sound(g, t, s) && x < |g|
    ensures var (s', tr) := GetTrav(g, t, s, x);
            && Sound(g, t, s')
            && (tr != NoTrav <==> Reaches(g, t, x))
            && (Reaches(g, t, x) ==> Built(g, t, s', tr, x) && Look(s', x).know == Yes)
    decreases Bare(g, s), 0, 0
  {
    hide CanReach;
    var (s1, k) := CanReach(g, t, s, x);
    SearchSound(g, t, s, x);
    Searched(g, s, s1);
    var a := s1.m[x];
    if s1.infos[a].trav != NoTrav || k == No {
    } else if k == DontKnow {
      Hardened(g, s, s1, x);
      SoundUpdate(g, t, s1, SetKnow(s1, a, No), x);
    } else if x == t {
      Installed(g, s, s1, x, CallF);
      GrowsKeeps(g, s1, SetTrav(s1, a, CallF));
      SoundUpdate(g, t, s1, SetTrav(s1, a, CallF), x);
    } else {
      var s2 := SetTrav(s1, a, Dummy);
      Installed(g, s, s1, x, Dummy);
      GrowsKeeps(g, s1, s2);
      SoundUpdate(g, t, s1, s2, x);
      CompileSound(g, t, s2, x);
      var (s3, tr) := Compile(g, t, s2, x);
      Tied(g, s, s1, s3, x, tr);
      TieSound(g, t, s3, x, tr);
    }
  }

  lemma TieSound(g: Graph, t: Ty, s: State, x: Ty, tr: Trav)
    requires WF(g) && Sound(g, t, s) && x in s.m && Look(s, x).trav == Dummy && Built(g, t, s, tr, x)
    requires tr != NoTrav
    ensures var s' := SetTrav(s, s.m[x], tr); Valid(g, s') && Sound(g, t, s') && Built(g, t, s', tr, x)
  {
    hide CanReach, GetTrav, AllBuilt;
    var s' := SetTrav(s, s.m[x], tr);
    Replaced(g, s, x, tr);
    assert Keeps(g, s, s');
    BuiltKept(g, t, s, s', tr, x);
    SoundUpdate(g, t, s, s', x);
  }

  lemma {:induction false} CompileSound(g: Graph, t: Ty, s: State, x: Ty)
    requires WF(g) && TrapFree(g, t) && Sound(g, t, s) && x < |g| && x != t && Reaches(g, t, x)
    requires x in s.m && Look(s, x).trav == Dummy
    ensures var (s', tr) := Compile(g, t, s, x); Sound(g, t, s') && Built(g, t, s', tr, x)
    decreases Bare(g, s), 2, 0
  {
    hide GetTrav, CompileFields, AllRight, AllBuilt, TrapFree, Reaches, Grows;
    match g[x]
    case Ptr(e) =>
      OnlyMember(g, t, x);
      GetTravSound(g, t, s, e);
    case List(e) =>
      OnlyMember(g, t, x);
      GetTravSound(g, t, s, e);
    case Map(k, e) =>
      EdgeInGraph(g, x, k);
      EdgeInGraph(g, x, e);
      GetTravSound(g, t, s, k);
      var (s1, f) := GetTrav(g, t, s, k);
      GetTravSound(g, t, s1, e);
      var (s2, h) := GetTrav(g, t, s1, e);
      if Reaches(g, t, k) {
        GrowsKeeps(g, s1, s2);
        BuiltKept(g, t, s1, s2, f, k);
      }
    case Struct(_) => FieldsSound(g, t, s, x, 0);
    case Iface =>
    case Leaf => var y := ReachesUnfold(g, t, x);
  }

  /** A pointer, array or slice that reaches does so through its element. */
  lemma OnlyMember(g: Graph, t: Ty, x: Ty)
    requires WF(g) && x < |g| && x != t && Reaches(g, t, x) && (g[x].Ptr? || g[x].List?)
    ensures g[x].elem < |g| && Reaches(g, t, g[x].elem)
  {
    hide CanReach, GetTrav, AllBuilt;
    var y := ReachesUnfold(g, t, x);
  }

  lemma {:induction false} FieldsSound(g: Graph, t: Ty, s: State, x: Ty, i: nat)
    requires WF(g) && TrapFree(g, t) && Sound(g, t, s) && x < |g| && g[x].Struct? && i <= |g[x].fields|
    ensures var (s', refs) := CompileFields(g, t, s, x, i); Sound(g, t, s') && Lists(g, t, s', x, i, refs)
    decreases Bare(g, s), 1, |g[x].fields| - i
  {
    hide GetTrav, AllRight, AllBuilt, TrapFree, Reaches, Grows;
    if i < |g[x].fields| {
      var y := g[x].fields[i].ty;
      assert Mentions(g, x, y);
      GetTravSound(g, t, s, y);
      var (s1, f) := GetTrav(g, t, s, y);
      FieldsSound(g, t, s1, x, i + 1);
      var (s2, refs) := CompileFields(g, t, s1, x, i + 1);
      ListsOneMore(g, t, s1, s2, x, i, refs);
    }
  }

  lemma ListsOneMore(g: Graph, t: Ty, s1: State, s2: State, x: Ty, i: nat, refs: seq<Ref>)
    requires Valid(g, s1) && Valid(g, s2) && Grows(g, s1, s2)
    requires x < |g| && g[x].Struct? && i < |g[x].fields| && Lists(g, t, s2, x, i + 1, refs)
    requires var y := g[x].fields[i].ty;
             y in s1.m && (Reaches(g, t, y) ==> Look(s1, y).know == Yes && Look(s1, y).trav != NoTrav)
    ensures var y := g[x].fields[i].ty;
            Lists(g, t, s2, x, i, if Reaches(g, t, y) then [Ref(i, s1.m[y])] + refs else refs)
  {
    GrowsKeeps(g, s1, s2);
    var y := g[x].fields[i].ty;
    assert ([Ref(i, s1.m[y])] + refs)[1..] == refs;
  }
}
