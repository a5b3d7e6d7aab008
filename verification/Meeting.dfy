/** Exactly which calls run into a captured dummy: those whose value holds something of a bad type. */
module Meeting {
  import opened TypeGraph
  import opened ReachSearch
  import opened ReachCorrect
  import opened Compiler
  import opened CompilerCorrect
  import opened Traversal
  import opened TraversalCorrect
  import opened CompileOrder
  import opened Knots
  import opened Asking
  import opened HiddenFields
  import opened Links

  /** There is something below `v` for its traverser to be called on. */
  predicate Full(v: Value) {
    v.body.Pointee? || (v.body.Parts? && v.body.vs != []) || (v.body.Entries? && v.body.kvs != [])
  }

  /** On the way to its targets, `v` holds a value of a type in `bad` that is neither nil nor empty. */
  ghost predicate Meets(g: Graph, t: Ty, v: Value, bad: set<Ty>)
    requires Typed(g, v)
    decreases v, 1, 0
  {
    v.ty != t && Reaches(g, t, v.ty) &&
    ((v.ty in bad && Full(v)) ||
     match g[v.ty]
     case Ptr(_) => v.body.Pointee? && Meets(g, t, v.body.to, bad)
     case Struct(_) => FieldsMeet(g, t, v, bad, 0)
     case Map(_, _) => EntriesMeet(g, t, v, bad, 0)
     case List(_) => ItemsMeet(g, t, v, bad, 0)
     case Iface => v.body.Dynamic? && Meets(g, t, v.body.held, bad)
     case Leaf => false)
  }

  ghost predicate FieldsMeet(g: Graph, t: Ty, v: Value, bad: set<Ty>, i: nat)
    requires Typed(g, v) && g[v.ty].Struct? && i <= |v.body.vs|
    decreases v, 0, |v.body.vs| - i
  {
    i < |v.body.vs| && (Meets(g, t, v.body.vs[i], bad) || FieldsMeet(g, t, v, bad, i + 1))
  }

  ghost predicate EntriesMeet(g: Graph, t: Ty, v: Value, bad: set<Ty>, i: nat)
    requires Typed(g, v) && g[v.ty].Map? && i <= |v.body.kvs|
    decreases v, 0, |v.body.kvs| - i
  {
    i < |v.body.kvs| && (Meets(g, t, v.body.kvs[i].key, bad) || Meets(g, t, v.body.kvs[i].val, bad)
                         || EntriesMeet(g, t, v, bad, i + 1))
  }

  ghost predicate ItemsMeet(g: Graph, t: Ty, v: Value, bad: set<Ty>, i: nat)
    requires Typed(g, v) && g[v.ty].List? && i <= |v.body.vs|
    decreases v, 0, |v.body.vs| - i
  {
    i < |v.body.vs| && (Meets(g, t, v.body.vs[i], bad) || ItemsMeet(g, t, v, bad, i + 1))
  }

  // ----- A cache, and what is still to be asked for -----

  /** Among the types compiled now or on asking for `h`, those of `bad` are the ones that hold the dummy. */
  ghost predicate Fits(g: Graph, t: Ty, s: State, h: seq<Ty>, bad: set<Ty>)
    requires WF(g) && Legal(g, h)
  {
    && Sound(g, t, s) && Open(Travs(g, s)) == {} && Linked(g, t, Travs(g, s))
    && var v := Travs(g, s);
       var r := VisitAll(g, t, Done(v), h);
       && (forall y | y in Done(v) :: Captured(v[y]) <==> y in bad)
       && (forall y | y in r.done && y !in Done(v) :: y in r.bad <==> y in bad)
  }

  lemma FitsThen(g: Graph, t: Ty, s: State, a: seq<Ty>, b: seq<Ty>, bad: set<Ty>)
    requires WF(g) && TrapFree(g, t) && Legal(g, a) && Legal(g, b) && Legal(g, a + b) && Fits(g, t, s, a + b, bad)
    ensures Fits(g, t, s, a, bad) && Fits(g, t, AskAll(g, t, s, a), b, bad)
  {
    hide AskAll, Visit, Sound, Travs, Linked, VisitAll, Done, Open, Captured;
    SoundQuiet(g, t, s);
    VisitMore(g, t, Done(Travs(g, s)), a, b);
    AskAllVisits(g, t, s, a);
    AskAllLinked(g, t, s, a);
    SoundQuiet(g, t, AskAll(g, t, s, a));
    FollowsOpen(Travs(g, s), Travs(g, AskAll(g, t, s, a)), VisitAll(g, t, Done(Travs(g, s)), a));
  }

  lemma FitsNow(g: Graph, t: Ty, s: State, h: seq<Ty>, bad: set<Ty>, x: Ty)
    requires WF(g) && Legal(g, h) && Fits(g, t, s, h, bad) && x in Done(Travs(g, s))
    ensures x < |g| && Built(g, t, s, Travs(g, s)[x], x) && TravLinked(g, t, Travs(g, s), Travs(g, s)[x], x)
    ensures Captured(Travs(g, s)[x]) <==> x in bad
  {}

  // ----- Running -----

  /** The traverser of `v`'s type, in a cache that fits what `v` asks for. */
  ghost predicate Ready(g: Graph, t: Ty, s: State, tr: Trav, v: Value, bad: set<Ty>)
    requires WF(g) && Typed(g, v)
  {
    && Fits(g, t, s, Dynamics(g, t, v), bad) && Reaches(g, t, v.ty)
    && v.ty in Done(Travs(g, s)) && tr == Travs(g, s)[v.ty]
  }

  lemma {:induction false} RunMeets(g: Graph, t: Ty, s: State, tr: Trav, v: Value, bad: set<Ty>)
    requires WF(g) && TrapFree(g, t) && HiddenFree(g, t) && Typed(g, v) && Ready(g, t, s, tr, v, bad)
    ensures Quiet(g, s) && (Run(g, t, s, tr, v, false).1.Panic? <==> Meets(g, t, v, bad))
    decreases v, 1, 0
  {
    hide GetTrav, AllBuilt, AllRight, Fits, Travs, Done, HiddenFree, TrapFree;
    SoundNow(g, t, s, Dynamics(g, t, v), bad);
    Parts(g, t, s, Dynamics(g, t, v), bad, v.ty);
    if v.ty != t {
      match g[v.ty]
      case Ptr(_) => if v.body.Pointee? && v.ty !in bad { PartMeets(g, t, s, tr.elemT, v.body.to, bad); }
      case Struct(_) =>
        assert tr.refs[0..] == tr.refs;
        FieldsRunMeet(g, t, s, tr.refs, v, bad, 0, 0);
      case Map(_, _) =>
        if v.ty in bad { FirstEntryPanics(g, t, s, tr.keyT, tr.valT, v); }
        else { EntriesRunMeet(g, t, s, tr.keyT, tr.valT, v, bad, 0); }
      case List(_) =>
        if v.ty in bad { FirstItemPanics(g, t, s, v); } else { ItemsRunMeet(g, t, s, tr.itemT, v, bad, 0); }
      case Iface => if v.body.Dynamic? { DynamicMeets(g, t, s, v, bad); }
    }
  }

  /** What the traverser of a compiled type holds. */
  lemma Parts(g: Graph, t: Ty, s: State, h: seq<Ty>, bad: set<Ty>, x: Ty)
    requires WF(g) && Legal(g, h) && Fits(g, t, s, h, bad) && x in Done(Travs(g, s)) && Reaches(g, t, x)
    ensures x < |g|
    ensures var tr := Travs(g, s)[x];
            if x == t then tr == CallF
            else match g[x]
              case Ptr(_) =>
                && Reaches(g, t, g[x].elem) && tr.PtrT? && tr.elemT != NoTrav && (tr.elemT.Dummy? <==> x in bad)
                && (x !in bad ==> Held(g, t, s, tr.elemT, g[x].elem))
              case List(_) =>
                && Reaches(g, t, g[x].elem) && tr.ListT? && (tr.itemT.Dummy? <==> x in bad)
                && (x !in bad ==> Held(g, t, s, tr.itemT, g[x].elem))
              case Map(_, _) =>
                && tr.MapT? && (tr.keyT.Dummy? || tr.valT.Dummy? <==> x in bad)
                && (x !in bad ==> Held(g, t, s, tr.keyT, g[x].key) && Held(g, t, s, tr.valT, g[x].elem))
              case Struct(_) => x !in bad && tr.StructT? && Lists(g, t, s, x, 0, tr.refs)
              case Iface => x !in bad && tr == IfaceT
              case Leaf => false
  {
    FitsNow(g, t, s, h, bad, x);
    DoneReal(Travs(g, s), x);
    if x != t && (g[x].Ptr? || g[x].List?) { OnlyMember(g, t, x); }
    hide Fits, Travs, Done, Reaches;
  }

  lemma SoundNow(g: Graph, t: Ty, s: State, h: seq<Ty>, bad: set<Ty>)
    requires WF(g) && Legal(g, h) && Fits(g, t, s, h, bad)
    ensures Sound(g, t, s) && Quiet(g, s) && Open(Travs(g, s)) == {}
  {}

  /** The finished traverser of a part, if the part has one. */
  ghost predicate Held(g: Graph, t: Ty, s: State, f: Trav, e: Ty)
    requires Valid(g, s)
  {
    if Reaches(g, t, e) then e in Done(Travs(g, s)) && f == Travs(g, s)[e] else f == NoTrav
  }

  lemma HeldKept(g: Graph, t: Ty, s: State, h: seq<Ty>, f: Trav, e: Ty)
    requires WF(g) && TrapFree(g, t) && Sound(g, t, s) && Open(Travs(g, s)) == {} && Legal(g, h) && Held(g, t, s, f, e)
    ensures Held(g, t, AskAll(g, t, s, h), f, e)
  {
    AskAllVisits(g, t, s, h);
    hide AskAll, Reaches, VisitAll, Sound, Travs;
  }

  /** A part, and the cache it leaves if it does not panic. */
  lemma {:induction false} PartMeets(g: Graph, t: Ty, s: State, f: Trav, y: Value, bad: set<Ty>)
    requires WF(g) && TrapFree(g, t) && HiddenFree(g, t) && Typed(g, y) && Fits(g, t, s, Dynamics(g, t, y), bad)
    requires Valid(g, s) && Held(g, t, s, f, y.ty)
    ensures Quiet(g, s)
    ensures var (s', o) := RunPart(g, t, s, f, y, false);
            (o.Panic? <==> Meets(g, t, y, bad)) && (o.Calls? ==> s' == AskAll(g, t, s, Dynamics(g, t, y)))
    decreases y, 2, 0
  {
    hide GetTrav, AllBuilt, AllRight, Fits, Travs, Done, HiddenFree, TrapFree, Run, Reaches, AskAll;
    var h := Dynamics(g, t, y);
    SoundNow(g, t, s, h, bad);
    if Reaches(g, t, y.ty) {
      FitsNow(g, t, s, h, bad, y.ty);
      DoneReal(Travs(g, s), y.ty);
      RunMeets(g, t, s, f, y, bad);
      RunAsks(g, t, s, f, y, false);
    } else {
      Unasked(g, t, y);
      AsksNothing(g, t, s, Calls([]));
      AskNone(g, t, s);
    }
  }

  lemma AskNone(g: Graph, t: Ty, s: State)
    requires WF(g) && Quiet(g, s)
    ensures AskAll(g, t, s, []) == s
  {}

  lemma DoneReal(v: seq<Trav>, x: Ty)
    requires x in Done(v)
    ensures x < |v| && v[x] != NoTrav && v[x] != Dummy
  {}

  lemma {:induction false} ItemsRunMeet(g: Graph, t: Ty, s: State, f: Trav, v: Value, bad: set<Ty>, j: nat)
    requires WF(g) && TrapFree(g, t) && HiddenFree(g, t) && Typed(g, v) && g[v.ty].List? && j <= |v.body.vs|
    requires Fits(g, t, s, ItemDynamics(g, t, v, j), bad) && Held(g, t, s, f, g[v.ty].elem)
    requires Reaches(g, t, g[v.ty].elem)
    ensures Quiet(g, s) && (RunItems(g, t, s, f, v, false, j).1.Panic? <==> ItemsMeet(g, t, v, bad, j))
    decreases v, 0, |v.body.vs| - j
  {
    hide GetTrav, AllBuilt, AllRight, Fits, Travs, Done, HiddenFree, TrapFree, Run, Reaches, AskAll, Dynamics, Meets;
    SoundNow(g, t, s, ItemDynamics(g, t, v, j), bad);
    if j < |v.body.vs| {
      var w := v.body.vs[j];
      assert w.ty == g[v.ty].elem && Typed(g, w);
      var h, rest := Dynamics(g, t, w), ItemDynamics(g, t, v, j + 1);
      FitsThen(g, t, s, h, rest, bad);
      PartMeets(g, t, s, f, w, bad);
      FitsNow(g, t, s, h, bad, w.ty);
      DoneReal(Travs(g, s), w.ty);
      if Run(g, t, s, f, w, false).1.Calls? {
        HeldKept(g, t, s, h, f, g[v.ty].elem);
        ItemsRunMeet(g, t, AskAll(g, t, s, h), f, v, bad, j + 1);
      }
    }
  }

  lemma FirstItemPanics(g: Graph, t: Ty, s: State, v: Value)
    requires WF(g) && Quiet(g, s) && Typed(g, v) && g[v.ty].List?
    ensures RunItems(g, t, s, Dummy, v, false, 0).1.Panic? <==> v.body.vs != []
  {
    if v.body.vs != [] { assert Run(g, t, s, Dummy, v.body.vs[0], false).1.Panic?; }
  }

  lemma FirstEntryPanics(g: Graph, t: Ty, s: State, f: Trav, h: Trav, v: Value)
    requires WF(g) && Quiet(g, s) && Typed(g, v) && g[v.ty].Map? && (f.Dummy? || h.Dummy?)
    ensures RunEntries(g, t, s, f, h, v, false, 0).1.Panic? <==> v.body.kvs != []
  {
    EntryTurn(g, t, s, f, h, v, false, 0);
    hide GetTrav, Grows, RunEntries;
  }

  lemma {:induction false} EntriesRunMeet(g: Graph, t: Ty, s: State, f: Trav, h: Trav, v: Value, bad: set<Ty>, j: nat)
    requires WF(g) && TrapFree(g, t) && HiddenFree(g, t) && Typed(g, v) && g[v.ty].Map? && j <= |v.body.kvs|
    requires Fits(g, t, s, EntryDynamics(g, t, v, j), bad)
    requires Held(g, t, s, f, g[v.ty].key) && Held(g, t, s, h, g[v.ty].elem)
    ensures Quiet(g, s) && (RunEntries(g, t, s, f, h, v, false, j).1.Panic? <==> EntriesMeet(g, t, v, bad, j))
    decreases v, 0, |v.body.kvs| - j
  {
    hide GetTrav, AllBuilt, AllRight, Fits, Travs, Done, HiddenFree, TrapFree, Run, Reaches, AskAll, Dynamics, Meets,
         RunEntries, RunPart, Held, RunEntry, Quiet, Sound;
    SoundNow(g, t, s, EntryDynamics(g, t, v, j), bad);
    EntryTurn(g, t, s, f, h, v, false, j);
    if j < |v.body.kvs| {
      var key, val := v.body.kvs[j].key, v.body.kvs[j].val;
      assert Typed(g, key) && Typed(g, val) && key.ty == g[v.ty].key && val.ty == g[v.ty].elem;
      var a, rest := Dynamics(g, t, key) + Dynamics(g, t, val), EntryDynamics(g, t, v, j + 1);
      FitsThen(g, t, s, a, rest, bad);
      EntryMeets(g, t, s, f, h, v, bad, j);
      if RunEntry(g, t, s, f, h, v, false, j).1.Calls? {
        HeldKept(g, t, s, a, f, key.ty);
        HeldKept(g, t, s, a, h, val.ty);
        EntriesRunMeet(g, t, AskAll(g, t, s, a), f, h, v, bad, j + 1);
      }
    }
  }

  lemma {:induction false} EntryMeets(g: Graph, t: Ty, s: State, f: Trav, h: Trav, v: Value, bad: set<Ty>, j: nat)
    requires WF(g) && TrapFree(g, t) && HiddenFree(g, t) && Typed(g, v) && g[v.ty].Map? && j < |v.body.kvs|
    requires Typed(g, v.body.kvs[j].key) && Typed(g, v.body.kvs[j].val) && Valid(g, s)
    requires Fits(g, t, s, Dynamics(g, t, v.body.kvs[j].key) + Dynamics(g, t, v.body.kvs[j].val), bad)
    requires Held(g, t, s, f, g[v.ty].key) && Held(g, t, s, h, g[v.ty].elem)
    ensures Quiet(g, s)
    ensures var key, val := v.body.kvs[j].key, v.body.kvs[j].val;
            var (s', o) := RunEntry(g, t, s, f, h, v, false, j);
            && (o.Panic? <==> Meets(g, t, key, bad) || Meets(g, t, val, bad))
            && (o.Calls? ==> s' == AskAll(g, t, s, Dynamics(g, t, key) + Dynamics(g, t, val)))
    decreases v, 0, 0
  {
    hide GetTrav, AllBuilt, AllRight, Fits, Travs, Done, HiddenFree, TrapFree, Run, Reaches, AskAll, Dynamics, Meets,
         RunPart, Held;
    var key, val := v.body.kvs[j].key, v.body.kvs[j].val;
    var a, b := Dynamics(g, t, key), Dynamics(g, t, val);
    FitsThen(g, t, s, a, b, bad);
    SoundNow(g, t, s, a, bad);
    AskMore(g, t, s, a, b);
    PartMeets(g, t, s, f, key, bad);
    if RunPart(g, t, s, f, key, false).1.Calls? {
      var s1 := AskAll(g, t, s, a);
      SoundNow(g, t, s1, b, bad);
      HeldKept(g, t, s, a, h, val.ty);
      PartMeets(g, t, s1, h, val, bad);
    }
  }

  lemma {:induction false} FieldsRunMeet(g: Graph, t: Ty, s: State, refs: seq<Ref>, v: Value, bad: set<Ty>, j: nat,
                                         i: nat)
    requires WF(g) && TrapFree(g, t) && HiddenFree(g, t) && Typed(g, v) && g[v.ty].Struct?
    requires v.ty != t && Reaches(g, t, v.ty) && j <= |refs| && i <= |v.body.vs|
    requires Fits(g, t, s, FieldDynamics(g, t, v, i), bad) && Lists(g, t, s, v.ty, i, refs[j..])
    ensures Quiet(g, s) && (RunFields(g, t, s, refs, v, false, j).1.Panic? <==> FieldsMeet(g, t, v, bad, i))
    decreases v, 0, |v.body.vs| - i
  {
    hide GetTrav, AllBuilt, AllRight, Fits, HiddenFree, TrapFree, Run, AskAll, Dynamics, Meets, Done, Open, Travs,
         Reaches;
    SoundNow(g, t, s, FieldDynamics(g, t, v, i), bad);
    if i < |v.body.vs| {
      var y, w := g[v.ty].fields[i].ty, v.body.vs[i];
      assert w.ty == y && Typed(g, w);
      var h, rest := Dynamics(g, t, w), FieldDynamics(g, t, v, i + 1);
      FitsThen(g, t, s, h, rest, bad);
      if !Reaches(g, t, y) {
        NotMet(g, t, w, bad);
        AskNone(g, t, s);
        FieldsRunMeet(g, t, s, refs, v, bad, j, i + 1);
      } else {
        Shown(g, t, v.ty, i);
        assert refs[j..][0] == refs[j] && refs[j..][1..] == refs[j + 1..];
        OneFieldRun(g, t, s, refs, v, false, j, i);
        var tr := Look(s, y).trav;
        LiveDone(g, s, y);
        PartMeets(g, t, s, tr, w, bad);
        if Run(g, t, s, tr, w, false).1.Calls? {
          FieldsRunMeet(g, t, AskAll(g, t, s, h), refs, v, bad, j + 1, i + 1);
        }
      }
    }
  }

  lemma LiveDone(g: Graph, s: State, y: Ty)
    requires Valid(g, s) && Open(Travs(g, s)) == {} && y in s.m && Look(s, y).trav != NoTrav
    ensures y in Done(Travs(g, s)) && Travs(g, s)[y] == Look(s, y).trav
  {
    assert y !in Open(Travs(g, s));
  }

  lemma NotMet(g: Graph, t: Ty, v: Value, bad: set<Ty>)
    requires Typed(g, v) && !Reaches(g, t, v.ty)
    ensures !Meets(g, t, v, bad) && Dynamics(g, t, v) == []
  {}

  lemma Shown(g: Graph, t: Ty, x: Ty, i: nat)
    requires HiddenFree(g, t) && x < |g| && x != t && g[x].Struct? && i < |g[x].fields| && Reaches(g, t, x)
    requires Reaches(g, t, g[x].fields[i].ty)
    ensures g[x].fields[i].exported
  {}

  lemma {:induction false} DynamicMeets(g: Graph, t: Ty, s: State, v: Value, bad: set<Ty>)
    requires WF(g) && TrapFree(g, t) && HiddenFree(g, t) && Typed(g, v) && Fits(g, t, s, Dynamics(g, t, v), bad)
    requires v.ty != t && Reaches(g, t, v.ty) && g[v.ty].Iface? && v.body.Dynamic?
    ensures Quiet(g, s) && (Run(g, t, s, IfaceT, v, false).1.Panic? <==> Meets(g, t, v.body.held, bad))
    decreases v, 0, 0
  {
    hide GetTrav, AllBuilt, AllRight, Fits, Travs, Done, HiddenFree, TrapFree, Reaches, AskAll, Dynamics, Meets;
    var held := v.body.held;
    assert Typed(g, held);
    SoundNow(g, t, s, Dynamics(g, t, v), bad);
    HeldDynamics(g, t, v);
    AskOne(g, t, s, held.ty);
    FitsThen(g, t, s, [held.ty], Dynamics(g, t, held), bad);
    var (s1, f) := GetTrav(g, t, s, held.ty);
    Found(g, t, s, held.ty);
    PartMeets(g, t, s1, f, held, bad);
  }

  /** Asking with nothing in progress. */
  lemma Found(g: Graph, t: Ty, s: State, x: Ty)
    requires WF(g) && TrapFree(g, t) && Sound(g, t, s) && Open(Travs(g, s)) == {} && x < |g|
    ensures var (s1, f) := GetTrav(g, t, s, x); Held(g, t, s1, f, x)
  {
    hide GetTrav, Visit, AllBuilt, AllRight, Reaches, TrapFree;
    GetTravVisits(g, t, s, x);
    var (s1, f) := GetTrav(g, t, s, x);
    assert x !in Open(Travs(g, s1));
  }

  // ----- One call -----

  /** In a cache that fits what the call asks for, recursive types included: the call returns, having called f on
      exactly the publicly accessible members, if and only if its value holds no non-nil, non-empty value of a
      bad type. */
  lemma CallMeets(g: Graph, t: Ty, s: State, v: Value, bad: set<Ty>)
    requires WF(g) && TrapFree(g, t) && HiddenFree(g, t) && Typed(g, v) && Fits(g, t, s, Wants(g, t, v), bad)
    ensures Quiet(g, s) && (DoSpec(g, t, s, v).1 == Calls(Members(g, t, v)) <==> !Meets(g, t, v, bad))
  {
    hide GetTrav, AllBuilt, AllRight, HiddenFree, TrapFree, Reaches, AskAll, Dynamics, Meets, Run, Visit, VisitAll,
         Fits;
    SoundNow(g, t, s, Wants(g, t, v), bad);
    DoFindsMembers(g, t, s, v);
    AskOne(g, t, s, v.ty);
    FitsThen(g, t, s, [v.ty], Dynamics(g, t, v), bad);
    var (s1, f) := GetTrav(g, t, s, v.ty);
    Found(g, t, s, v.ty);
    PartMeets(g, t, s1, f, v, bad);
  }

  /** To begin with, the bad types are those that the walk names. */
  lemma FreshFits(g: Graph, t: Ty, h: seq<Ty>)
    requires WF(g) && Legal(g, h)
    ensures Fits(g, t, Fresh, h, VisitAll(g, t, {}, h).bad)
  {
    FreshSound(g, t);
    assert Done(Travs(g, Fresh)) == {} && Open(Travs(g, Fresh)) == {};
    hide VisitAll, Sound;
  }
}
