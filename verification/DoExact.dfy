/** `Do` itself: exactly when a call is right and keeps the cache so, and exactly which type graphs make
    every call right. */
module DoExact {
  import opened TypeGraph
  import opened ReachSearch
  import opened ReachCorrect
  import opened Compiler
  import opened CompilerCorrect
  import opened Traversal
  import opened TraversalCorrect
  import opened CompileOrder
  import opened Knots
  import opened Asking
  import opened Histories
  import opened HiddenFields
  import opened Meeting

  // ----- A run only ever asks for traversers -----

  lemma {:induction false} RunHistory(g: Graph, t: Ty, h: seq<Ty>, tr: Trav, v: Value, ro: bool) returns (h': seq<Ty>)
    requires WF(g) && Legal(g, h) && Typed(g, v)
    ensures Legal(g, h') && Run(g, t, After(g, t, h), tr, v, ro).0 == After(g, t, h')
    decreases v, 1, 0
  {
    hide GetTrav, After, Grows;
    h' := h;
    match tr
    case NoTrav =>
    case Dummy =>
    case CallF =>
    case PtrT(f) => if v.body.Pointee? { h' := RunHistory(g, t, h, f, v.body.to, ro); }
    case StructT(refs) => if g[v.ty].Struct? { h' := FieldsHistory(g, t, h, refs, v, ro, 0); }
    case MapT(f, k) => if g[v.ty].Map? { h' := EntriesHistory(g, t, h, f, k, v, ro, 0); }
    case ListT(f) => if g[v.ty].List? { h' := ItemsHistory(g, t, h, f, v, ro, 0); }
    case IfaceT =>
      if v.body.Dynamic? && g[v.ty].Iface? {
        assert Typed(g, v.body.held);
        AfterOneMore(g, t, h, v.body.held.ty);
        h' := h + [v.body.held.ty];
        var f := GetTrav(g, t, After(g, t, h), v.body.held.ty).1;
        if f != NoTrav { h' := RunHistory(g, t, h', f, v.body.held, ro); }
      }
  }

  lemma {:induction false} FieldsHistory(g: Graph, t: Ty, h: seq<Ty>, refs: seq<Ref>, v: Value, ro: bool, j: nat)
    returns (h': seq<Ty>)
    requires WF(g) && Legal(g, h) && Typed(g, v) && g[v.ty].Struct? && j <= |refs|
    ensures Legal(g, h') && RunFields(g, t, After(g, t, h), refs, v, ro, j).0 == After(g, t, h')
    decreases v, 0, |refs| - j
  {
    hide Run, After, Grows;
    h' := h;
    var s := After(g, t, h);
    if j < |refs| && refs[j].field < |v.body.vs| && refs[j].info < |s.infos| {
      var i := refs[j].field;
      var tr, w := s.infos[refs[j].info].trav, ro || !g[v.ty].fields[i].exported;
      h' := RunHistory(g, t, h, tr, v.body.vs[i], w);
      if Run(g, t, s, tr, v.body.vs[i], w).1.Calls? { h' := FieldsHistory(g, t, h', refs, v, ro, j + 1); }
    }
  }

  lemma {:induction false} PartHistory(g: Graph, t: Ty, h: seq<Ty>, f: Trav, v: Value, ro: bool) returns (h': seq<Ty>)
    requires WF(g) && Legal(g, h) && Typed(g, v)
    ensures Legal(g, h')
    ensures (if f == NoTrav then After(g, t, h) else Run(g, t, After(g, t, h), f, v, ro).0) == After(g, t, h')
    decreases v, 2, 0
  {
    hide Run, After, Grows;
    h' := h;
    if f != NoTrav { h' := RunHistory(g, t, h, f, v, ro); }
  }

  lemma {:induction false} EntriesHistory(g: Graph, t: Ty, h: seq<Ty>, f: Trav, k: Trav, v: Value, ro: bool, j: nat)
    returns (h': seq<Ty>)
    requires WF(g) && Legal(g, h) && Typed(g, v) && g[v.ty].Map? && j <= |v.body.kvs|
    ensures Legal(g, h') && RunEntries(g, t, After(g, t, h), f, k, v, ro, j).0 == After(g, t, h')
    decreases v, 0, |v.body.kvs| - j
  {
    hide Run, After, Grows, WF, Legal, Quiet;
    h' := h;
    if j < |v.body.kvs| {
      var s := After(g, t, h);
      h' := PartHistory(g, t, h, f, v.body.kvs[j].key, ro);
      if f == NoTrav || Run(g, t, s, f, v.body.kvs[j].key, ro).1.Calls? {
        var s1 := After(g, t, h');
        h' := PartHistory(g, t, h', k, v.body.kvs[j].val, ro);
        if k == NoTrav || Run(g, t, s1, k, v.body.kvs[j].val, ro).1.Calls? {
          h' := EntriesHistory(g, t, h', f, k, v, ro, j + 1);
        }
      }
    }
  }

  lemma {:induction false} ItemsHistory(g: Graph, t: Ty, h: seq<Ty>, f: Trav, v: Value, ro: bool, j: nat)
    returns (h': seq<Ty>)
    requires WF(g) && Legal(g, h) && Typed(g, v) && g[v.ty].List? && j <= |v.body.vs|
    ensures Legal(g, h') && RunItems(g, t, After(g, t, h), f, v, ro, j).0 == After(g, t, h')
    decreases v, 0, |v.body.vs| - j
  {
    hide Run, After, Grows;
    h' := h;
    if j < |v.body.vs| {
      var s := After(g, t, h);
      h' := RunHistory(g, t, h, f, v.body.vs[j], ro);
      if Run(g, t, s, f, v.body.vs[j], ro).1.Calls? { h' := ItemsHistory(g, t, h', f, v, ro, j + 1); }
    }
  }

  /** Every call of `Do` leads from one history's cache to another's. */
  lemma DoHistory(g: Graph, t: Ty, h: seq<Ty>, v: Value) returns (h': seq<Ty>)
    requires WF(g) && Legal(g, h) && Typed(g, v)
    ensures Legal(g, h') && DoSpec(g, t, After(g, t, h), v).0 == After(g, t, h')
  {
    hide Run, GetTrav, After, Grows;
    AfterOneMore(g, t, h, v.ty);
    h' := h + [v.ty];
    var tr := GetTrav(g, t, After(g, t, h), v.ty).1;
    if tr != NoTrav { h' := RunHistory(g, t, h', tr, v, false); }
  }

  /** In a graph without traps: whatever was walked before, a `Do` that returns has called f on exactly
      the publicly accessible target-typed members, each as often as it can be reached, in walking
      order. */
  lemma DoIsRight(g: Graph, t: Ty, h: seq<Ty>, v: Value)
    requires WF(g) && TrapFree(g, t) && Legal(g, h) && Typed(g, v)
    ensures var o := DoSpec(g, t, After(g, t, h), v).1; o.Calls? ==> o.args == Members(g, t, v)
  {
    AfterSound(g, t, h);
    DoFindsMembers(g, t, After(g, t, h), v);
  }

  // ----- One call -----

  /** On any sound cache without captured dummies, recursive types included: a call returns, has called f
      on exactly the publicly accessible members, and leaves no dummy captured, if and only if the
      depth-first walk over the types it asks for, past what is compiled, never meets an open type from a
      pointer, map, array or slice type. */
  lemma CallIsRightIff(g: Graph, t: Ty, s: State, v: Value)
    requires WF(g) && TrapFree(g, t) && HiddenFree(g, t) && Sound(g, t, s) && Pure(g, s) && Typed(g, v)
    ensures var (s', o) := DoSpec(g, t, s, v);
            VisitAll(g, t, Done(Travs(g, s)), Wants(g, t, v)).bad == {} <==>
            o == Calls(Members(g, t, v)) && Pure(g, s')
  {
    DoAsks(g, t, s, v);
    DoFindsMembers(g, t, s, v);
    StaysPureIff(g, t, s, Wants(g, t, v));
    WalkCompletes(g, t, v);
    WalkIsMembers(g, t, v, false);
    hide DoSpec, Walk, Members, VisitAll, Travs, Wants, AskAll, HiddenFree, TrapFree, Sound, WF, Grows, Pure;
    var (s', o) := DoSpec(g, t, s, v);
    var u := AskAll(g, t, s, Wants(g, t, v));
    if Pure(g, u) { PureBefore(g, s', u); }
  }

  /** The same for a call that follows a history of calls. */
  lemma CallAfterIsRightIff(g: Graph, t: Ty, h: seq<Ty>, v: Value)
    requires WF(g) && TrapFree(g, t) && HiddenFree(g, t) && Legal(g, h) && Typed(g, v)
    ensures Legal(g, h + Wants(g, t, v))
    ensures var (s', o) := DoSpec(g, t, After(g, t, h), v);
            VisitAll(g, t, {}, h + Wants(g, t, v)).bad == {} <==>
            Pure(g, After(g, t, h)) && o == Calls(Members(g, t, v)) && Pure(g, s')
  {
    AfterSound(g, t, h);
    PureAfterIff(g, t, h);
    DoneAfter(g, t, h);
    VisitMore(g, t, {}, h, Wants(g, t, v));
    if Pure(g, After(g, t, h)) { CallIsRightIff(g, t, After(g, t, h), v); }
  }

  /** What is compiled after a history, seen from the type graph. */
  lemma DoneAfter(g: Graph, t: Ty, h: seq<Ty>)
    requires WF(g) && TrapFree(g, t) && Legal(g, h)
    ensures Done(Travs(g, After(g, t, h))) == VisitAll(g, t, {}, h).done
  {
    FreshSound(g, t);
    FreshPure(g);
    AfterAsks(g, t, h);
    AskAllVisits(g, t, Fresh, h);
  }

  /** Exactly when a single call goes well, after any history, one that captured dummies included: its value
      holds no non-nil, non-empty value of a type that the walk over the types asked for, by the history and
      then by the call, lets meet an open type. */
  lemma CallExact(g: Graph, t: Ty, h: seq<Ty>, v: Value)
    requires WF(g) && TrapFree(g, t) && HiddenFree(g, t) && Legal(g, h) && Typed(g, v)
    ensures Legal(g, h + Wants(g, t, v))
    ensures CallTotal(g, t, h, v) <==> !Meets(g, t, v, VisitAll(g, t, {}, h + Wants(g, t, v)).bad)
  {
    var all := h + Wants(g, t, v);
    FreshFits(g, t, all);
    hide VisitAll, Fits, Meets, Wants, DoSpec, Members, TrapFree, HiddenFree, After, AskAll;
    FitsThen(g, t, Fresh, h, Wants(g, t, v), VisitAll(g, t, {}, all).bad);
    AfterAsks(g, t, h);
    CallMeets(g, t, After(g, t, h), v, VisitAll(g, t, {}, all).bad);
  }

  // ----- All calls: traps -----

  /** A value along a route, which holds a publicly accessible target. */
  lemma {:induction false} MemberHolder(g: Graph, t: Ty, rank: seq<nat>, x: Ty, p: seq<Ty>) returns (v: Value)
    requires WF(g) && Founded(g, rank) && t < |g| && x < |g| && Route(g, t, x, p)
    ensures Typed(g, v) && v.ty == x && Members(g, t, v) != []
    decreases |p|
  {
    if x == t {
      return Zero(g, rank, t);
    }
    if |p| == 1 {
      return Value(x, Dynamic(Zero(g, rank, t)));
    }
    assert Edge(g, p[0], p[1]) && Route(g, t, p[1], p[1..]);
    EdgeInGraph(g, x, p[1]);
    var w := MemberHolder(g, t, rank, p[1], p[1..]);
    match g[x]
    case Ptr(_) => v := Value(x, Pointee(w));
    case Struct(fs) =>
      var i :| 0 <= i < |fs| && fs[i].exported && fs[i].ty == p[1];
      v := WithField(g, rank, x, i, w);
      FieldHeld(g, t, v, 0, i);
    case Map(k, e) =>
      EdgeInGraph(g, x, k);
      EdgeInGraph(g, x, e);
      var entry := if p[1] == k then Entry(w, Zero(g, rank, e)) else Entry(Zero(g, rank, k), w);
      v := Value(x, Entries([entry]));
      assert EntryMembers(g, t, v, 0) != [];
    case List(_) =>
      v := Value(x, Parts([w]));
      assert ItemMembers(g, t, v, 0) != [];
  }

  lemma FieldHeld(g: Graph, t: Ty, v: Value, k: nat, i: nat)
    requires Typed(g, v) && g[v.ty].Struct? && k <= i < |v.body.vs|
    requires g[v.ty].fields[i].exported && Members(g, t, v.body.vs[i]) != []
    ensures FieldMembers(g, t, v, k) != []
    decreases i - k
  {
    if k < i { FieldHeld(g, t, v, k + 1, i); }
  }

  /** After the history that springs a trap, a call on a value of its second type finds nothing. */
  lemma TrapMisses(g: Graph, t: Ty, m: Ty, x: Ty, v: Value)
    requires WF(g) && Trap(g, t, m, x) && Typed(g, v) && v.ty == x
    ensures Legal(g, Spring(g, m, x))
    ensures DoSpec(g, t, After(g, t, Spring(g, m, x)), v).1 == Calls([])
  {
    hide Reaches, Leads, AllRight, Spring;
    TrapSprings(g, t, m, x);
    var s := After(g, t, Spring(g, m, x));
    KnownAnswer(g, t, s, x);
    hide CanReach, After;
    assert GetTrav(g, t, s, x) == (s, NoTrav);
  }

  /** A call that returns has called f on exactly the publicly accessible members. */
  ghost predicate CallRight(g: Graph, t: Ty, h: seq<Ty>, v: Value)
    requires WF(g) && Legal(g, h) && Typed(g, v)
  {
    var o := DoSpec(g, t, After(g, t, h), v).1; o.Calls? ==> o.args == Members(g, t, v)
  }

  /** Every call that returns, on every value and after every history, is right if and only if the type
      graph has no trap. */
  lemma CallsRightIffTrapFree(g: Graph, t: Ty, rank: seq<nat>)
    requires WF(g) && Founded(g, rank) && t < |g|
    ensures TrapFree(g, t) <==> forall h, v | Legal(g, h) && Typed(g, v) :: CallRight(g, t, h, v)
  {
    if TrapFree(g, t) {
      forall h, v: Value | Legal(g, h) && Typed(g, v) ensures CallRight(g, t, h, v) { DoIsRight(g, t, h, v); }
    } else {
      var m, x :| Trap(g, t, m, x);
      var h, v := TrapFails(g, t, rank, m, x);
    }
  }

  lemma TrapFails(g: Graph, t: Ty, rank: seq<nat>, m: Ty, x: Ty) returns (h: seq<Ty>, v: Value)
    requires WF(g) && Founded(g, rank) && t < |g| && Trap(g, t, m, x)
    ensures Legal(g, h) && Typed(g, v) && !CallRight(g, t, h, v)
  {
    hide DoSpec, After, AllRight, Leads;
    TrapSprings(g, t, m, x);
    var p :| Route(g, t, x, p);
    v := MemberHolder(g, t, rank, x, p);
    h := Spring(g, m, x);
    TrapMisses(g, t, m, x, v);
  }

  // ----- All calls: knots and hidden fields -----

  /** A traverser that holds the dummy panics on some value. */
  lemma CapturedPanics(g: Graph, t: Ty, rank: seq<nat>, s: State, x: Ty, tr: Trav) returns (v: Value)
    requires WF(g) && Founded(g, rank) && Quiet(g, s) && x < |g| && Built(g, t, s, tr, x) && Captured(tr)
    ensures Typed(g, v) && v.ty == x && Run(g, t, s, tr, v, false).1 == Panic
  {
    match g[x]
    case Ptr(e) => v := Value(x, Pointee(Zero(g, rank, e)));
    case List(e) =>
      v := Value(x, Parts([Zero(g, rank, e)]));
      assert RunItems(g, t, s, tr.itemT, v, false, 0).1 == Panic;
    case Map(k, e) =>
      assert Mentions(g, x, k) && Mentions(g, x, e);
      v := Value(x, Entries([Entry(Zero(g, rank, k), Zero(g, rank, e))]));
      assert RunEntries(g, t, s, tr.keyT, tr.valT, v, false, 0).1 == Panic;
  }

  /** A knot makes some call panic. */
  lemma KnotPanics(g: Graph, t: Ty, rank: seq<nat>, p: Ty, c: Ty) returns (v: Value)
    requires WF(g) && TrapFree(g, t) && Founded(g, rank) && Knot(g, t, p, c)
    ensures c < |g| && Legal(g, [c]) && Typed(g, v) && v.ty == p && DoSpec(g, t, After(g, t, [c]), v).1 == Panic
  {
    KnotIsBad(g, t, p, c);
    assert p in VisitAll(g, t, {}, [c]).bad;
    CapturedExactly(g, t, [c], p);
    hide After, GetTrav, Reaches, TrapFree, Knot, VisitAll, Visit, AllRight, AllBuilt, Compile, CanReach, Run,
         RunEntries, RunItems, Grows;
    var s := After(g, t, [c]);
    AfterSound(g, t, [c]);
    GetTravSound(g, t, s, p);
    Steps(g, t, s, p);
    var (s', tr) := GetTrav(g, t, s, p);
    v := CapturedPanics(g, t, rank, s', p, tr);
  }

  /** A value on which the plain walk panics makes the call panic too. */
  lemma WalkPanics(g: Graph, t: Ty, s: State, v: Value)
    requires WF(g) && TrapFree(g, t) && Sound(g, t, s) && Typed(g, v) && Walk(g, t, v, false) == Panic
    ensures DoSpec(g, t, s, v).1 == Panic
  {
    hide GetTrav, AllBuilt, AllRight;
    GetTravSound(g, t, s, v.ty);
    var (s1, tr) := GetTrav(g, t, s, v.ty);
    if tr == NoTrav {
      if v.ty == t { ReachesHit(g, t, t); }
    } else {
      RunSound(g, t, s1, tr, v, false);
    }
  }

  /** A call returns, having called f on exactly the publicly accessible members. */
  ghost predicate CallTotal(g: Graph, t: Ty, h: seq<Ty>, v: Value)
    requires WF(g) && Legal(g, h) && Typed(g, v)
  {
    DoSpec(g, t, After(g, t, h), v).1 == Calls(Members(g, t, v))
  }

  lemma DoNeverPanics(g: Graph, t: Ty, h: seq<Ty>, v: Value)
    requires WF(g) && TrapFree(g, t) && KnotFree(g, t) && HiddenFree(g, t) && Legal(g, h) && Typed(g, v)
    ensures CallTotal(g, t, h, v)
  {
    CallAfterIsRightIff(g, t, h, v);
    AllNoBad(g, t, {}, h + Wants(g, t, v));
  }

  /** Every call returns and is right, on every value and after every history, if and only if the type
      graph has no trap, no knot and no hidden reaching field. */
  lemma CallsTotalIff(g: Graph, t: Ty, rank: seq<nat>)
    requires WF(g) && Founded(g, rank) && t < |g|
    ensures TrapFree(g, t) && KnotFree(g, t) && HiddenFree(g, t) <==>
            forall h, v | Legal(g, h) && Typed(g, v) :: CallTotal(g, t, h, v)
  {
    if TrapFree(g, t) && KnotFree(g, t) && HiddenFree(g, t) {
      forall h, v: Value | Legal(g, h) && Typed(g, v) ensures CallTotal(g, t, h, v) { DoNeverPanics(g, t, h, v); }
    } else {
      var h, v := SomeCallFails(g, t, rank);
    }
  }

  lemma SomeCallFails(g: Graph, t: Ty, rank: seq<nat>) returns (h: seq<Ty>, v: Value)
    requires WF(g) && Founded(g, rank) && t < |g| && !(TrapFree(g, t) && KnotFree(g, t) && HiddenFree(g, t))
    ensures Legal(g, h) && Typed(g, v) && !CallTotal(g, t, h, v)
  {
    if !TrapFree(g, t) {
      CallsRightIffTrapFree(g, t, rank);
      h, v :| Legal(g, h) && Typed(g, v) && !CallRight(g, t, h, v);
    } else if !KnotFree(g, t) {
      var p, c :| Knot(g, t, p, c);
      v := KnotPanics(g, t, rank, p, c);
      h := [c];
    } else {
      CompletesIffHiddenFree(g, t, rank);
      v :| Typed(g, v) && !HiddenFields.Finds(g, t, v);
      h := [];
      if Walk(g, t, v, false).Calls? {
        WalkIsMembers(g, t, v, false);
      } else {
        FreshSound(g, t);
        WalkPanics(g, t, Fresh, v);
      }
    }
  }
}
