/** The compiled walk against the plain walks. */
module TraversalCorrect {
  import opened TypeGraph
  import opened ReachSearch
  import opened ReachCorrect
  import opened Compiler
  import opened CompilerCorrect
  import opened Traversal

  /** No dummy was captured anywhere inside the traverser. */
  predicate Clean(tr: Trav) {
    match tr
    case NoTrav => true
    case Dummy => false
    case CallF => true
    case PtrT(f) => Clean(f)
    case StructT(_) => true
    case MapT(f, h) => Clean(f) && Clean(h)
    case ListT(f) => Clean(f)
    case IfaceT => true
  }

  ghost predicate Pure(g: Graph, s: State)
    requires Valid(g, s)
  {
    forall x | x in s.m :: Clean(Look(s, x).trav)
  }

  lemma PureBefore(g: Graph, s: State, s': State)
    requires Valid(g, s) && Valid(g, s') && Grows(g, s, s') && Pure(g, s')
    ensures Pure(g, s)
  {
    forall x | x in s.m ensures Clean(Look(s, x).trav) {
      if Look(s, x).trav != NoTrav { assert Look(s', x) == Look(s, x); }
    }
  }

  /** A run gives the outcome of the walk, or panics because some dummy was captured. */
  ghost predicate Gives(g: Graph, s': State, clean: bool, o: Outcome, w: Outcome)
    requires Valid(g, s')
  {
    o == w || (o == Panic && !(clean && Pure(g, s')))
  }

  /** Running one part after another. */
  lemma GivesThen(g: Graph, s1: State, s2: State, clean: bool, o1: Outcome, w1: Outcome, o2: Outcome, w2: Outcome)
    requires Valid(g, s1) && Valid(g, s2) && Grows(g, s1, s2)
    requires Gives(g, s1, clean, o1, w1) && Gives(g, s2, clean, o2, w2) && o1.Calls?
    ensures Gives(g, s2, clean, Then(o1, o2), Then(w1, w2))
  {
    if Pure(g, s2) { PureBefore(g, s1, s2); }
  }

  lemma GivesNothing(g: Graph, s: State, clean: bool)
    requires Valid(g, s)
    ensures Gives(g, s, clean, Calls([]), Calls([]))
  {}

  /** A panic in one part is a panic of the whole. */
  lemma GivesPanic(g: Graph, s: State, clean: bool, o1: Outcome, w1: Outcome, w2: Outcome)
    requires Valid(g, s) && Gives(g, s, clean, o1, w1) && o1.Panic?
    ensures Gives(g, s, clean, Panic, Then(w1, w2))
  {}

  lemma {:induction false} RunSound(g: Graph, t: Ty, s: State, tr: Trav, v: Value, ro: bool)
    requires WF(g) && TrapFree(g, t) && Sound(g, t, s) && Typed(g, v)
    requires Built(g, t, s, tr, v.ty) && Reaches(g, t, v.ty)
    ensures var (s', o) := Run(g, t, s, tr, v, ro);
            Sound(g, t, s') && Gives(g, s', Clean(tr), o, Walk(g, t, v, ro))
    decreases v, 1, 0
  {
    hide GetTrav, AllBuilt, AllRight;
    if tr.Dummy? || v.ty == t {
    } else {
      match g[v.ty]
      case Ptr(e) =>
        if v.body.Pointee? {
          OnlyMember(g, t, v.ty);
          RunSound(g, t, s, tr.elemT, v.body.to, ro);
        }
      case Struct(_) =>
        assert tr.refs[0..] == tr.refs;
        FieldsRun(g, t, s, tr.refs, v, ro, 0, 0);
      case Map(_, _) => EntriesRun(g, t, s, tr.keyT, tr.valT, v, ro, 0);
      case List(e) =>
        OnlyMember(g, t, v.ty);
        ItemsRun(g, t, s, tr.itemT, v, ro, 0);
      case Iface =>
        if v.body.Dynamic? { DynamicRun(g, t, s, v, ro); }
    }
  }

  lemma {:induction false} DynamicRun(g: Graph, t: Ty, s: State, v: Value, ro: bool)
    requires WF(g) && TrapFree(g, t) && Sound(g, t, s) && Typed(g, v)
    requires v.ty != t && Reaches(g, t, v.ty) && g[v.ty].Iface? && v.body.Dynamic?
    ensures var (s', o) := Run(g, t, s, IfaceT, v, ro);
            Sound(g, t, s') && Gives(g, s', true, o, Walk(g, t, v, ro))
    decreases v, 0, 0
  {
    hide GetTrav, AllBuilt, AllRight;
    var held := v.body.held;
    assert Typed(g, held);
    GetTravSound(g, t, s, held.ty);
    var (s1, f) := GetTrav(g, t, s, held.ty);
    if f == NoTrav {
      if held.ty == t { ReachesHit(g, t, t); }
    } else {
      RunSound(g, t, s1, f, held, ro);
      var (s2, o) := Run(g, t, s1, f, held, ro);
      CleanFound(g, s1, s2, held.ty, o, Walk(g, t, held, ro));
    }
  }

  lemma CleanFound(g: Graph, s1: State, s2: State, x: Ty, o: Outcome, w: Outcome)
    requires Valid(g, s1) && Valid(g, s2) && Grows(g, s1, s2) && x in s1.m
    requires Gives(g, s2, Clean(Look(s1, x).trav), o, w)
    ensures Gives(g, s2, true, o, w)
  {
    if Pure(g, s2) { PureBefore(g, s1, s2); }
  }

  /** From reference `j` on, which stands for the fields from `i` on. */
  lemma {:induction false} FieldsRun(g: Graph, t: Ty, s: State, refs: seq<Ref>, v: Value, ro: bool, j: nat, i: nat)
    requires WF(g) && TrapFree(g, t) && Sound(g, t, s) && Typed(g, v) && g[v.ty].Struct?
    requires j <= |refs| && i <= |v.body.vs| && Lists(g, t, s, v.ty, i, refs[j..])
    ensures var (s', o) := RunFields(g, t, s, refs, v, ro, j);
            Sound(g, t, s') && Gives(g, s', true, o, WalkFields(g, t, v, ro, i))
    decreases v, 0, |v.body.vs| - i
  {
    if i < |v.body.vs| {
      var y := g[v.ty].fields[i].ty;
      assert v.body.vs[i].ty == y && Typed(g, v.body.vs[i]);
      if !Reaches(g, t, y) {
        if y == t { ReachesHit(g, t, t); }
        FieldsRun(g, t, s, refs, v, ro, j, i + 1);
      } else {
        assert refs[j..][0] == refs[j] && refs[j..][1..] == refs[j + 1..];
        OneFieldRun(g, t, s, refs, v, ro, j, i);
        var (s1, o1) := Run(g, t, s, Look(s, y).trav, v.body.vs[i], ro || !g[v.ty].fields[i].exported);
        if o1.Calls? {
          FieldsRun(g, t, s1, refs, v, ro, j + 1, i + 1);
          var (s2, o2) := RunFields(g, t, s1, refs, v, ro, j + 1);
          GivesThen(g, s1, s2, true, o1, Walk(g, t, v.body.vs[i], ro || !g[v.ty].fields[i].exported),
                    o2, WalkFields(g, t, v, ro, i + 1));
        }
      }
    }
  }

  lemma {:induction false} OneFieldRun(g: Graph, t: Ty, s: State, refs: seq<Ref>, v: Value, ro: bool, j: nat, i: nat)
    requires WF(g) && TrapFree(g, t) && Sound(g, t, s) && Typed(g, v) && g[v.ty].Struct?
    requires j < |refs| && i < |v.body.vs| && Lists(g, t, s, v.ty, i, refs[j..])
    requires Typed(g, v.body.vs[i]) && v.body.vs[i].ty == g[v.ty].fields[i].ty
    requires Reaches(g, t, g[v.ty].fields[i].ty) && refs[j..][0] == refs[j] && refs[j..][1..] == refs[j + 1..]
    ensures var y := g[v.ty].fields[i].ty;
            && refs[j].field == i && y in s.m && refs[j].info == s.m[y]
            && var w := ro || !g[v.ty].fields[i].exported;
               var (s1, o1) := Run(g, t, s, Look(s, y).trav, v.body.vs[i], w);
               && Sound(g, t, s1) && Gives(g, s1, true, o1, Walk(g, t, v.body.vs[i], w))
               && Lists(g, t, s1, v.ty, i + 1, refs[j + 1..])
    decreases v, 0, 0
  {
    hide GetTrav, AllRight;
    var y := g[v.ty].fields[i].ty;
    var w := ro || !g[v.ty].fields[i].exported;
    RunSound(g, t, s, Look(s, y).trav, v.body.vs[i], w);
    var (s1, o1) := Run(g, t, s, Look(s, y).trav, v.body.vs[i], w);
    GrowsKeeps(g, s, s1);
    ListsKept(g, t, s, s1, v.ty, i + 1, refs[j + 1..]);
    if Pure(g, s1) { PureBefore(g, s, s1); }
  }

  lemma {:induction false} PartRun(g: Graph, t: Ty, s: State, f: Trav, y: Value, ro: bool)
    requires WF(g) && TrapFree(g, t) && Sound(g, t, s) && Typed(g, y)
    requires if Reaches(g, t, y.ty) then Built(g, t, s, f, y.ty) else f == NoTrav
    ensures var (s', o) := RunPart(g, t, s, f, y, ro);
            Sound(g, t, s') && Gives(g, s', Clean(f), o, Walk(g, t, y, ro))
    decreases y, 2, 0
  {
    hide GetTrav, AllBuilt, AllRight;
    if Reaches(g, t, y.ty) {
      assert f != NoTrav;
      RunSound(g, t, s, f, y, ro);
    } else if y.ty == t {
      ReachesHit(g, t, t);
    }
  }

  /** One entry of a map: its key, then its element. */
  function RunEntry(g: Graph, t: Ty, s: State, f: Trav, h: Trav, v: Value, ro: bool, j: nat): (r: (State, Outcome))
    requires WF(g) && Quiet(g, s) && Typed(g, v) && g[v.ty].Map? && j < |v.body.kvs|
    ensures Quiet(g, r.0) && Grows(g, s, r.0)
  {
    var (s1, o1) := RunPart(g, t, s, f, v.body.kvs[j].key, ro);
    if o1.Panic? then (s1, Panic)
    else var (s2, o2) := RunPart(g, t, s1, h, v.body.kvs[j].val, ro); (s2, Then(o1, o2))
  }

  ghost function WalkEntry(g: Graph, t: Ty, v: Value, ro: bool, j: nat): Outcome
    requires Typed(g, v) && g[v.ty].Map? && j < |v.body.kvs|
  {
    Then(Walk(g, t, v.body.kvs[j].key, ro), Walk(g, t, v.body.kvs[j].val, ro))
  }

  lemma {:induction false} EntryRun(g: Graph, t: Ty, s: State, f: Trav, h: Trav, v: Value, ro: bool, j: nat)
    requires WF(g) && TrapFree(g, t) && Sound(g, t, s) && Typed(g, v) && g[v.ty].Map? && j < |v.body.kvs|
    requires Built(g, t, s, MapT(f, h), v.ty) && v.ty != t
    ensures var (s', o) := RunEntry(g, t, s, f, h, v, ro, j);
            && Sound(g, t, s') && Built(g, t, s', MapT(f, h), v.ty)
            && Gives(g, s', Clean(f) && Clean(h), o, WalkEntry(g, t, v, ro, j))
    decreases v, 0, 0
  {
    hide GetTrav, AllBuilt, AllRight, RunPart, Run;
    var key, val := v.body.kvs[j].key, v.body.kvs[j].val;
    assert Typed(g, key) && Typed(g, val);
    PartRun(g, t, s, f, key, ro);
    var (s1, o1) := RunPart(g, t, s, f, key, ro);
    GrowsKeeps(g, s, s1);
    BuiltKept(g, t, s, s1, MapT(f, h), v.ty);
    if o1.Calls? {
      PartRun(g, t, s1, h, val, ro);
      var (s2, o2) := RunPart(g, t, s1, h, val, ro);
      GrowsKeeps(g, s1, s2);
      BuiltKept(g, t, s1, s2, MapT(f, h), v.ty);
      GivesThen(g, s1, s2, Clean(f) && Clean(h), o1, Walk(g, t, key, ro), o2, Walk(g, t, val, ro));
    }
  }

  lemma {:induction false} EntriesRun(g: Graph, t: Ty, s: State, f: Trav, h: Trav, v: Value, ro: bool, j: nat)
    requires WF(g) && TrapFree(g, t) && Sound(g, t, s) && Typed(g, v) && g[v.ty].Map? && j <= |v.body.kvs|
    requires Built(g, t, s, MapT(f, h), v.ty) && v.ty != t
    ensures var (s', o) := RunEntries(g, t, s, f, h, v, ro, j);
            Sound(g, t, s') && Gives(g, s', Clean(f) && Clean(h), o, WalkEntries(g, t, v, ro, j))
    decreases v, 0, |v.body.kvs| - j
  {
    hide AllRight, AllBuilt, Built, Gives, Reaches, TrapFree, Run, Walk, Clean, RunEntries, WalkEntries, RunEntry,
         WalkEntry;
    EntryTurn(g, t, s, f, h, v, ro, j);
    var clean := Clean(f) && Clean(h);
    if j == |v.body.kvs| {
      GivesNothing(g, s, clean);
    } else {
      EntryRun(g, t, s, f, h, v, ro, j);
      var (s2, o2) := RunEntry(g, t, s, f, h, v, ro, j);
      var w2, w3 := WalkEntry(g, t, v, ro, j), WalkEntries(g, t, v, ro, j + 1);
      if o2.Panic? {
        GivesPanic(g, s2, clean, o2, w2, w3);
      } else {
        EntriesRun(g, t, s2, f, h, v, ro, j + 1);
        var (s3, o3) := RunEntries(g, t, s2, f, h, v, ro, j + 1);
        GivesThen(g, s2, s3, clean, o2, w2, o3, w3);
      }
    }
  }

  /** One turn of the loop over the entries. */
  lemma RunTurn(g: Graph, t: Ty, s: State, f: Trav, h: Trav, v: Value, ro: bool, j: nat)
    requires WF(g) && Quiet(g, s) && Typed(g, v) && g[v.ty].Map? && j <= |v.body.kvs|
    ensures if j == |v.body.kvs| then RunEntries(g, t, s, f, h, v, ro, j) == (s, Calls([]))
            else
              var (s2, o2) := RunEntry(g, t, s, f, h, v, ro, j);
              RunEntries(g, t, s, f, h, v, ro, j) ==
              if o2.Panic? then (s2, Panic)
              else var (s3, o3) := RunEntries(g, t, s2, f, h, v, ro, j + 1); (s3, Then(o2, o3))
  {
    hide Run, Walk, Quiet, Grows, WF, Typed;
  }

  /** One turn of both loops over the entries. */
  lemma EntryTurn(g: Graph, t: Ty, s: State, f: Trav, h: Trav, v: Value, ro: bool, j: nat)
    requires WF(g) && Quiet(g, s) && Typed(g, v) && g[v.ty].Map? && j <= |v.body.kvs|
    ensures if j == |v.body.kvs| then
              RunEntries(g, t, s, f, h, v, ro, j) == (s, Calls([])) && WalkEntries(g, t, v, ro, j) == Calls([])
            else
              var (s2, o2) := RunEntry(g, t, s, f, h, v, ro, j);
              && RunEntries(g, t, s, f, h, v, ro, j) ==
                 (if o2.Panic? then (s2, Panic)
                  else var (s3, o3) := RunEntries(g, t, s2, f, h, v, ro, j + 1); (s3, Then(o2, o3)))
              && WalkEntries(g, t, v, ro, j) == Then(WalkEntry(g, t, v, ro, j), WalkEntries(g, t, v, ro, j + 1))
  {
    hide *;
    RunTurn(g, t, s, f, h, v, ro, j);
    WalkTurn(g, t, v, ro, j);
  }

  lemma WalkTurn(g: Graph, t: Ty, v: Value, ro: bool, j: nat)
    requires Typed(g, v) && g[v.ty].Map? && j <= |v.body.kvs|
    ensures if j == |v.body.kvs| then WalkEntries(g, t, v, ro, j) == Calls([])
            else WalkEntries(g, t, v, ro, j) == Then(WalkEntry(g, t, v, ro, j), WalkEntries(g, t, v, ro, j + 1))
  {
    hide Walk;
  }

  lemma {:induction false} ItemsRun(g: Graph, t: Ty, s: State, f: Trav, v: Value, ro: bool, j: nat)
    requires WF(g) && TrapFree(g, t) && Sound(g, t, s) && Typed(g, v) && g[v.ty].List? && j <= |v.body.vs|
    requires Built(g, t, s, f, g[v.ty].elem) && Reaches(g, t, g[v.ty].elem)
    ensures var (s', o) := RunItems(g, t, s, f, v, ro, j);
            Sound(g, t, s') && Gives(g, s', Clean(f), o, WalkItems(g, t, v, ro, j))
    decreases v, 0, |v.body.vs| - j
  {
    hide AllRight, AllBuilt, Built, Gives, Reaches, TrapFree, Run, Walk, Clean;
    if j == |v.body.vs| {
      GivesNothing(g, s, Clean(f));
    } else {
      ItemRun(g, t, s, f, v, ro, j);
      var (s1, o1) := Run(g, t, s, f, v.body.vs[j], ro);
      var w1, w2 := Walk(g, t, v.body.vs[j], ro), WalkItems(g, t, v, ro, j + 1);
      if o1.Panic? {
        GivesPanic(g, s1, Clean(f), o1, w1, w2);
      } else {
        ItemsRun(g, t, s1, f, v, ro, j + 1);
        var (s2, o2) := RunItems(g, t, s1, f, v, ro, j + 1);
        GivesThen(g, s1, s2, Clean(f), o1, w1, o2, w2);
      }
    }
  }

  lemma {:induction false} ItemRun(g: Graph, t: Ty, s: State, f: Trav, v: Value, ro: bool, j: nat)
    requires WF(g) && TrapFree(g, t) && Sound(g, t, s) && Typed(g, v) && g[v.ty].List? && j < |v.body.vs|
    requires Built(g, t, s, f, g[v.ty].elem) && Reaches(g, t, g[v.ty].elem)
    ensures Typed(g, v.body.vs[j])
    ensures var (s1, o1) := Run(g, t, s, f, v.body.vs[j], ro);
            && Sound(g, t, s1) && Gives(g, s1, Clean(f), o1, Walk(g, t, v.body.vs[j], ro))
            && Built(g, t, s1, f, g[v.ty].elem)
    decreases v, 0, 0
  {
    hide GetTrav, AllBuilt, AllRight;
    assert Typed(g, v.body.vs[j]);
    RunSound(g, t, s, f, v.body.vs[j], ro);
    var (s1, o1) := Run(g, t, s, f, v.body.vs[j], ro);
    GrowsKeeps(g, s, s1);
    BuiltKept(g, t, s, s1, f, g[v.ty].elem);
  }

  // ----- The two plain walks agree -----

  /** Pruning loses nothing: a value whose type cannot reach has no members. */
  lemma {:induction false} NoMembers(g: Graph, t: Ty, v: Value)
    requires WF(g) && Typed(g, v) && !Reaches(g, t, v.ty)
    ensures Members(g, t, v) == []
    decreases v
  {
    if v.ty == t || g[v.ty].Iface? {
      ReachesHit(g, t, v.ty);
    } else {
      match g[v.ty]
      case Ptr(e) => if v.body.Pointee? { Unreached(g, t, v.ty, e); NoMembers(g, t, v.body.to); }
      case Struct(fs) =>
        for i := |fs| downto 0
          invariant FieldMembers(g, t, v, i) == []
        {
          assert Typed(g, v.body.vs[i]) && v.body.vs[i].ty == fs[i].ty;
          if fs[i].exported { Unreached(g, t, v.ty, fs[i].ty); NoMembers(g, t, v.body.vs[i]); }
        }
      case Map(k, e) =>
        Unreached(g, t, v.ty, k);
        Unreached(g, t, v.ty, e);
        for i := |v.body.kvs| downto 0
          invariant EntryMembers(g, t, v, i) == []
        {
          NoMembers(g, t, v.body.kvs[i].key);
          NoMembers(g, t, v.body.kvs[i].val);
        }
      case List(e) =>
        Unreached(g, t, v.ty, e);
        for i := |v.body.vs| downto 0
          invariant ItemMembers(g, t, v, i) == []
        {
          NoMembers(g, t, v.body.vs[i]);
        }
      case Leaf =>
    }
  }

  lemma Unreached(g: Graph, t: Ty, x: Ty, y: Ty)
    requires x < |g| && Edge(g, x, y) && !Reaches(g, t, x)
    ensures !Reaches(g, t, y)
  {
    if Reaches(g, t, y) { ReachesStep(g, t, x, y); }
  }

  /** A walk that completes calls f on the publicly accessible members, and on nothing that was only
      reachable through an unexported field. */
  lemma {:induction false} WalkIsMembers(g: Graph, t: Ty, v: Value, ro: bool)
    requires WF(g) && Typed(g, v) && Walk(g, t, v, ro).Calls?
    ensures Walk(g, t, v, ro).args == if ro then [] else Members(g, t, v)
    decreases v, 1, 0
  {
    if v.ty == t {
    } else if !Reaches(g, t, v.ty) {
      NoMembers(g, t, v);
    } else {
      match g[v.ty]
      case Ptr(_) => if v.body.Pointee? { WalkIsMembers(g, t, v.body.to, ro); }
      case Struct(_) => FieldsAreMembers(g, t, v, ro, 0);
      case Map(_, _) => EntriesAreMembers(g, t, v, ro, 0);
      case List(_) => ItemsAreMembers(g, t, v, ro, 0);
      case Iface => if v.body.Dynamic? { WalkIsMembers(g, t, v.body.held, ro); }
      case Leaf =>
    }
  }

  lemma {:induction false} FieldsAreMembers(g: Graph, t: Ty, v: Value, ro: bool, i: nat)
    requires WF(g) && Typed(g, v) && g[v.ty].Struct? && i <= |v.body.vs| && WalkFields(g, t, v, ro, i).Calls?
    ensures WalkFields(g, t, v, ro, i).args == if ro then [] else FieldMembers(g, t, v, i)
    decreases v, 0, |v.body.vs| - i
  {
    if i < |v.body.vs| {
      WalkIsMembers(g, t, v.body.vs[i], ro || !g[v.ty].fields[i].exported);
      FieldsAreMembers(g, t, v, ro, i + 1);
    }
  }

  lemma {:induction false} EntriesAreMembers(g: Graph, t: Ty, v: Value, ro: bool, i: nat)
    requires WF(g) && Typed(g, v) && g[v.ty].Map? && i <= |v.body.kvs| && WalkEntries(g, t, v, ro, i).Calls?
    ensures WalkEntries(g, t, v, ro, i).args == if ro then [] else EntryMembers(g, t, v, i)
    decreases v, 0, |v.body.kvs| - i
  {
    if i < |v.body.kvs| {
      WalkIsMembers(g, t, v.body.kvs[i].key, ro);
      WalkIsMembers(g, t, v.body.kvs[i].val, ro);
      EntriesAreMembers(g, t, v, ro, i + 1);
    }
  }

  lemma {:induction false} ItemsAreMembers(g: Graph, t: Ty, v: Value, ro: bool, i: nat)
    requires WF(g) && Typed(g, v) && g[v.ty].List? && i <= |v.body.vs| && WalkItems(g, t, v, ro, i).Calls?
    ensures WalkItems(g, t, v, ro, i).args == if ro then [] else ItemMembers(g, t, v, i)
    decreases v, 0, |v.body.vs| - i
  {
    if i < |v.body.vs| {
      WalkIsMembers(g, t, v.body.vs[i], ro);
      ItemsAreMembers(g, t, v, ro, i + 1);
    }
  }

  /** `Do`: if it completes, f was called on exactly the publicly accessible members, in order; and it
      completes exactly when the walk does, unless some type captured the dummy traverser. */
  lemma DoFindsMembers(g: Graph, t: Ty, s: State, v: Value)
    requires WF(g) && TrapFree(g, t) && Sound(g, t, s) && Typed(g, v)
    ensures var (s', o) := DoSpec(g, t, s, v);
            && Sound(g, t, s')
            && (o.Calls? ==> o.args == Members(g, t, v))
            && (Pure(g, s') ==> o == Walk(g, t, v, false))
  {
    hide GetTrav, AllBuilt, AllRight;
    GetTravSound(g, t, s, v.ty);
    var (s1, tr) := GetTrav(g, t, s, v.ty);
    if tr == NoTrav {
      NoMembers(g, t, v);
      if v.ty == t { ReachesHit(g, t, t); }
    } else {
      RunSound(g, t, s1, tr, v, false);
      var (s2, o) := Run(g, t, s1, tr, v, false);
      if Pure(g, s2) { PureBefore(g, s1, s2); }
      if o.Calls? { WalkIsMembers(g, t, v, false); }
    }
  }
}
