/** What a traverser holds: the finished traversers of the parts, or the dummy. */
module Links {
  import opened TypeGraph
  import opened ReachSearch
  import opened ReachCorrect
  import opened Compiler
  import opened CompilerCorrect
  import opened CompileOrder
  import opened Knots
  import opened Asking

  /** `f` is held in the place of the part `e`. */
  ghost predicate LinkOk(g: Graph, t: Ty, v: seq<Trav>, f: Trav, e: Ty) {
    f.Dummy? || (e in Done(v) && f == v[e]) || (f == NoTrav && !Reaches(g, t, e))
  }

  ghost predicate TravLinked(g: Graph, t: Ty, v: seq<Trav>, tr: Trav, x: Ty)
    requires x < |g|
  {
    match g[x]
    case Ptr(e) => tr.PtrT? ==> LinkOk(g, t, v, tr.elemT, e)
    case List(e) => tr.ListT? ==> LinkOk(g, t, v, tr.itemT, e)
    case Map(k, e) => tr.MapT? ==> LinkOk(g, t, v, tr.keyT, k) && LinkOk(g, t, v, tr.valT, e)
    case _ => true
  }

  ghost predicate Linked(g: Graph, t: Ty, v: seq<Trav>) {
    |v| == |g| && forall y | y in Done(v) :: TravLinked(g, t, v, v[y], y)
  }

  lemma LinkGrows(g: Graph, t: Ty, v: seq<Trav>, v': seq<Trav>, tr: Trav, x: Ty)
    requires x < |g| && |v| == |v'| && TravLinked(g, t, v, tr, x)
    requires forall y | y in Done(v) :: y in Done(v') && v'[y] == v[y]
    ensures TravLinked(g, t, v', tr, x)
  {
    hide Reaches, Done;
  }

  /** Tying the finished traverser of `x`. */
  lemma TieLinked(g: Graph, t: Ty, v: seq<Trav>, x: Ty, tr: Trav)
    requires Linked(g, t, v) && x < |g| && x !in Done(v) && tr != NoTrav && tr != Dummy && TravLinked(g, t, v, tr, x)
    ensures Linked(g, t, v[x := tr])
  {
    var v' := v[x := tr];
    forall y | y in Done(v') ensures TravLinked(g, t, v', v'[y], y) {
      if y != x { assert y in Done(v); }
      LinkGrows(g, t, v, v', v'[y], y);
    }
  }

  lemma PrimeLinked(g: Graph, t: Ty, v: seq<Trav>, x: Ty)
    requires Linked(g, t, v) && x < |g| && v[x] == NoTrav
    ensures Linked(g, t, v[x := Dummy])
  {
    var v' := v[x := Dummy];
    assert Done(v') == Done(v);
    forall y | y in Done(v') ensures TravLinked(g, t, v', v'[y], y) { LinkGrows(g, t, v, v', v'[y], y); }
  }

  lemma {:induction false} GetTravLinked(g: Graph, t: Ty, s: State, x: Ty)
    requires WF(g) && TrapFree(g, t) && Sound(g, t, s) && x < |g| && Linked(g, t, Travs(g, s))
    ensures var (s', f) := GetTrav(g, t, s, x);
            && Sound(g, t, s') && Linked(g, t, Travs(g, s')) && LinkOk(g, t, Travs(g, s'), f, x)
            && (forall y | y in Done(Travs(g, s)) :: y in Done(Travs(g, s')) && Travs(g, s')[y] == Travs(g, s)[y])
    decreases Bare(g, s), 0, 0
  {
    hide GetTrav, CanReach, Compile, Reaches, AllBuilt, AllRight, Grows, VisitAsked, TravLinked, Linked;
    GetTravVisits(g, t, s, x);
    Steps(g, t, s, x);
    var v := Travs(g, s);
    if v[x] != NoTrav || !Reaches(g, t, x) {
    } else if x == t {
      HitLinked(g, t, v, x);
    } else {
      var s2 := Primed(g, t, s, x);
      PrimeLinked(g, t, v, x);
      CompileLinked(g, t, s2, x);
      var (s3, tr) := Compile(g, t, s2, x);
      CompileNot(g, t, s2, x);
      TieLinked(g, t, Travs(g, s3), x, tr);
    }
  }

  lemma HitLinked(g: Graph, t: Ty, v: seq<Trav>, x: Ty)
    requires Linked(g, t, v) && x < |g| && v[x] == NoTrav
    ensures Linked(g, t, v[x := CallF])
  {
    TieLinked(g, t, v, x, CallF);
  }

  lemma CompileNot(g: Graph, t: Ty, s: State, x: Ty)
    requires WF(g) && TrapFree(g, t) && Sound(g, t, s) && x < |g|
    requires x != t && Reaches(g, t, x) && x in s.m && Look(s, x).trav == Dummy
    ensures Compile(g, t, s, x).1 != NoTrav
  {
    CompileVisits(g, t, s, x);
  }

  lemma {:induction false} MembersLinked(g: Graph, t: Ty, s: State, x: Ty, i: nat)
    requires WF(g) && TrapFree(g, t) && Sound(g, t, s) && x < |g| && i <= |Asks(g, x)| && Linked(g, t, Travs(g, s))
    ensures Linked(g, t, Travs(g, AskMembers(g, t, s, x, i)))
    decreases Bare(g, s), 1, |Asks(g, x)| - i
  {
    hide GetTrav, CanReach, Reaches, TrapFree, AllRight, AllBuilt, Grows, Linked;
    if i < |Asks(g, x)| {
      AsksMentions(g, x, Asks(g, x)[i]);
      GetTravLinked(g, t, s, Asks(g, x)[i]);
      MembersLinked(g, t, GetTrav(g, t, s, Asks(g, x)[i]).0, x, i + 1);
    }
  }

  lemma {:induction false} CompileLinked(g: Graph, t: Ty, s: State, x: Ty)
    requires WF(g) && TrapFree(g, t) && Sound(g, t, s) && x < |g| && Linked(g, t, Travs(g, s))
    requires x != t && Reaches(g, t, x) && x in s.m && Look(s, x).trav == Dummy
    ensures var (s', tr) := Compile(g, t, s, x);
            Linked(g, t, Travs(g, s')) && TravLinked(g, t, Travs(g, s'), tr, x)
    decreases Bare(g, s), 2, 0
  {
    hide GetTrav, CanReach, Compile, Reaches, AllBuilt, AllRight, Grows, Linked, LinkOk, CompileFields, Done;
    CompileForm(g, t, s, x);
    match g[x]
    case Ptr(e) => GetTravLinked(g, t, s, e);
    case List(e) => GetTravLinked(g, t, s, e);
    case Map(k, e) =>
      GetTravLinked(g, t, s, k);
      var (s1, f) := GetTrav(g, t, s, k);
      GetTravLinked(g, t, s1, e);
      StaysLinked(g, t, Travs(g, s1), Travs(g, GetTrav(g, t, s1, e).0), f, k);
    case Struct(_) =>
      FieldsAsked(g, t, s, x, 0);
      MembersLinked(g, t, s, x, 0);
    case Iface =>
  }

  lemma StaysLinked(g: Graph, t: Ty, v: seq<Trav>, v': seq<Trav>, f: Trav, e: Ty)
    requires |v| == |v'| && LinkOk(g, t, v, f, e)
    requires forall y | y in Done(v) :: y in Done(v') && v'[y] == v[y]
    ensures LinkOk(g, t, v', f, e)
  {}

  lemma {:induction false} AskAllLinked(g: Graph, t: Ty, s: State, h: seq<Ty>)
    requires WF(g) && TrapFree(g, t) && Sound(g, t, s) && Legal(g, h) && Linked(g, t, Travs(g, s))
    ensures Sound(g, t, AskAll(g, t, s, h)) && Linked(g, t, Travs(g, AskAll(g, t, s, h)))
    decreases |h|
  {
    hide GetTrav, AllRight, AllBuilt, TrapFree, Linked;
    if h != [] {
      GetTravLinked(g, t, s, h[0]);
      AskAllLinked(g, t, GetTrav(g, t, s, h[0]).0, h[1..]);
    }
  }
}
