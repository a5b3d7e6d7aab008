/** The package as it is written: a table of typeInfos updated in place, and the methods that search,
    compile and run against it.  Each method is proved equal to its function on the table. */
module TypeApply {
  import opened TypeGraph
  import R = ReachSearch
  import opened ReachSearch
  import C = Compiler
  import opened Compiler
  import T = Traversal
  import opened Traversal

  // ----- One turn of each loop -----

  lemma SearchTurn(g: Graph, t: Ty, s: State, x: Ty, i: nat)
    requires WF(g) && Valid(g, s) && x < |g| && Visiting(s, x) && g[x].Struct? && i < |g[x].fields|
    ensures !g[x].fields[i].exported ==> SearchFields(g, t, s, x, i) == SearchFields(g, t, s, x, i + 1)
    ensures g[x].fields[i].exported ==>
              var y := g[x].fields[i].ty;
              && Mentions(g, x, y)
              && var s2 := AskAlso(g, t, s, x, y);
                 Idle(g, s2) == Idle(g, s) && SearchFields(g, t, s, x, i) == SearchFields(g, t, s2, x, i + 1)
  {
    hide R.CanReach;
    if g[x].fields[i].exported {
      var y := g[x].fields[i].ty;
      assert Mentions(g, x, y);
      SameIdle(g, s, AskAlso(g, t, s, x, y), s.m[x]);
    }
  }

  lemma CompileTurn(g: Graph, t: Ty, s: State, x: Ty, i: nat, refs: seq<Ref>)
    requires WF(g) && Quiet(g, s) && x < |g| && g[x].Struct? && i < |g[x].fields|
    ensures var y := g[x].fields[i].ty;
            && y < |g|
            && var (s1, f) := GetTrav(g, t, s, y);
               var now := if f != NoTrav then [Ref(i, s1.m[y])] else [];
               Before(refs, CompileFields(g, t, s, x, i)) == Before(refs + now, CompileFields(g, t, s1, x, i + 1))
  {
    hide GetTrav, Grows;
    var y := g[x].fields[i].ty;
    assert Mentions(g, x, y);
    var (s1, f) := GetTrav(g, t, s, y);
    var rest := CompileFields(g, t, s1, x, i + 1).1;
    var now := if f != NoTrav then [Ref(i, s1.m[y])] else [];
    assert refs + (now + rest) == (refs + now) + rest;
    assert [] + rest == rest;
  }

  function Before(refs: seq<Ref>, r: (State, seq<Ref>)): (State, seq<Ref>) {
    (r.0, refs + r.1)
  }

  function AfterCalls(done: seq<Value>, r: (State, Outcome)): (State, Outcome) {
    (r.0, Then(Calls(done), r.1))
  }

  lemma ThenAssoc(done: seq<Value>, a: seq<Value>, o: Outcome)
    ensures Then(Calls(done), Then(Calls(a), o)) == Then(Calls(done + a), o)
  {
    if o.Calls? { assert done + (a + o.args) == (done + a) + o.args; }
  }

  lemma NothingBefore(r: (State, Outcome))
    ensures AfterCalls([], r) == r
  {
    if r.1.Calls? { assert [] + r.1.args == r.1.args; }
  }

  lemma StructTurn(g: Graph, t: Ty, s: State, refs: seq<Ref>, v: Value, ro: bool, j: nat, done: seq<Value>)
    requires WF(g) && Quiet(g, s) && Typed(g, v) && g[v.ty].Struct? && j < |refs|
    requires refs[j].field < |v.body.vs| && refs[j].info < |s.infos|
    ensures var i := refs[j].field;
            var (s1, o1) := Run(g, t, s, s.infos[refs[j].info].trav, v.body.vs[i], ro || !g[v.ty].fields[i].exported);
            AfterCalls(done, RunFields(g, t, s, refs, v, ro, j)) ==
            if o1.Panic? then (s1, Panic)
            else AfterCalls(done + o1.args, RunFields(g, t, s1, refs, v, ro, j + 1))
  {
    hide Run, GetTrav, Grows;
    var i := refs[j].field;
    var (s1, o1) := Run(g, t, s, s.infos[refs[j].info].trav, v.body.vs[i], ro || !g[v.ty].fields[i].exported);
    if o1.Calls? { ThenAssoc(done, o1.args, RunFields(g, t, s1, refs, v, ro, j + 1).1); }
  }

  lemma MapTurn(g: Graph, t: Ty, s: State, f: Trav, h: Trav, v: Value, ro: bool, j: nat, done: seq<Value>)
    requires WF(g) && Quiet(g, s) && Typed(g, v) && g[v.ty].Map? && j < |v.body.kvs|
    ensures var (s1, o1) := RunPart(g, t, s, f, v.body.kvs[j].key, ro);
            var (s2, o2) := RunPart(g, t, s1, h, v.body.kvs[j].val, ro);
            AfterCalls(done, RunEntries(g, t, s, f, h, v, ro, j)) ==
            if o1.Panic? then (s1, Panic)
            else if o2.Panic? then (s2, Panic)
            else AfterCalls(done + o1.args + o2.args, RunEntries(g, t, s2, f, h, v, ro, j + 1))
  {
    hide Run, GetTrav, Grows;
    var (s1, o1) := RunPart(g, t, s, f, v.body.kvs[j].key, ro);
    var (s2, o2) := RunPart(g, t, s1, h, v.body.kvs[j].val, ro);
    if o1.Calls? && o2.Calls? {
      ThenAssoc(done, o1.args + o2.args, RunEntries(g, t, s2, f, h, v, ro, j + 1).1);
      assert done + (o1.args + o2.args) == done + o1.args + o2.args;
    }
  }

  lemma ListTurn(g: Graph, t: Ty, s: State, f: Trav, v: Value, ro: bool, j: nat, done: seq<Value>)
    requires WF(g) && Quiet(g, s) && Typed(g, v) && g[v.ty].List? && j < |v.body.vs|
    ensures var (s1, o1) := Run(g, t, s, f, v.body.vs[j], ro);
            AfterCalls(done, RunItems(g, t, s, f, v, ro, j)) ==
            if o1.Panic? then (s1, Panic)
            else AfterCalls(done + o1.args, RunItems(g, t, s1, f, v, ro, j + 1))
  {
    hide Run, GetTrav, Grows;
    var (s1, o1) := Run(g, t, s, f, v.body.vs[j], ro);
    if o1.Calls? { ThenAssoc(done, o1.args, RunItems(g, t, s1, f, v, ro, j + 1).1); }
  }

  // ----- The end of each loop -----

  lemma FieldsEnd(g: Graph, t: Ty, s: State, x: Ty)
    requires WF(g) && Valid(g, s) && x < |g| && Visiting(s, x) && g[x].Struct?
    ensures SearchFields(g, t, s, x, |g[x].fields|) == s
  {}

  lemma CompileEnd(g: Graph, t: Ty, s: State, x: Ty)
    requires WF(g) && Quiet(g, s) && x < |g| && g[x].Struct?
    ensures CompileFields(g, t, s, x, |g[x].fields|) == (s, [])
  {}

  lemma RunEnd(g: Graph, t: Ty, s: State, refs: seq<Ref>, v: Value, ro: bool)
    requires WF(g) && Quiet(g, s) && Typed(g, v) && g[v.ty].Struct?
    ensures RunFields(g, t, s, refs, v, ro, |refs|) == (s, Calls([]))
  {}

  lemma StructStuck(g: Graph, t: Ty, s: State, refs: seq<Ref>, v: Value, ro: bool, j: nat)
    requires WF(g) && Quiet(g, s) && Typed(g, v) && g[v.ty].Struct? && j < |refs|
    requires refs[j].field >= |v.body.vs| || refs[j].info >= |s.infos|
    ensures RunFields(g, t, s, refs, v, ro, j) == (s, Panic)
  {}

  lemma MapEnd(g: Graph, t: Ty, s: State, f: Trav, h: Trav, v: Value, ro: bool)
    requires WF(g) && Quiet(g, s) && Typed(g, v) && g[v.ty].Map?
    ensures RunEntries(g, t, s, f, h, v, ro, |v.body.kvs|) == (s, Calls([]))
  {}

  lemma ListEnd(g: Graph, t: Ty, s: State, f: Trav, v: Value, ro: bool)
    requires WF(g) && Quiet(g, s) && Typed(g, v) && g[v.ty].List?
    ensures RunItems(g, t, s, f, v, ro, |v.body.vs|) == (s, Calls([]))
  {}

  /** The table for one target type `t`, and the calls made to f so far. */
  class TypeMap {
    const g: Graph
    const t: Ty
    var m: map<Ty, nat>
    var infos: seq<Info>
    var calls: seq<Value>

    constructor (g: Graph, t: Ty)
      ensures this.g == g && this.t == t && View() == Fresh && calls == []
    {
      this.g, this.t := g, t;
      m, infos, calls := map[], [], [];
    }

    function View(): State
      reads this
    {
      State(m, infos)
    }

    method CanReach(x: Ty) returns (k: Knowledge)
      requires WF(g) && Valid(g, View()) && x < |g|
      modifies this`m, this`infos
      ensures (View(), k) == R.CanReach(g, t, old(View()), x)
      decreases Idle(g, View()), 0, 0
    {
      if x in m && Settled(infos[m[x]]) {
        return infos[m[x]].know;
      }
      var a := |infos|;
      Begin(g, View(), x);
      m := m[x := a];
      infos := infos + [Info(DontKnow, false, NoTrav)];
      if t == x {
        infos := infos[a := infos[a].(know := Yes)];
        return Yes;
      }
      infos := infos[a := infos[a].(visiting := true)];
      SearchKind(x);
      infos := infos[a := infos[a].(visiting := false)];
      k := infos[a].know;
    }

    /** The switch of `canReach`. */
    method SearchKind(x: Ty)
      requires WF(g) && Valid(g, View()) && x < |g| && Visiting(View(), x)
      modifies this`m, this`infos
      ensures View() == Search(g, t, old(View()), x)
      decreases Idle(g, View()), 3, 0
    {
      var a := m[x];
      match g[x]
      case Ptr(e) =>
        assert Mentions(g, x, e);
        var k := CanReach(e);
        infos := infos[a := infos[a].(know := k)];
      case Struct(fs) => SearchStruct(x);
      case Map(ke, e) =>
        assert Mentions(g, x, ke) && Mentions(g, x, e);
        ghost var s := View();
        var k := CanReach(ke);
        infos := infos[a := infos[a].(know := k)];
        assert View() == Ask(g, t, s, x, ke);
        SameIdle(g, s, View(), a);
        k := CanReach(e);
        infos := infos[a := infos[a].(know := Or(k, infos[a].know))];
      case List(e) =>
        assert Mentions(g, x, e);
        var k := CanReach(e);
        infos := infos[a := infos[a].(know := k)];
      case Iface => infos := infos[a := infos[a].(know := Yes)];
      case Leaf =>
    }

    method SearchStruct(x: Ty)
      requires WF(g) && Valid(g, View()) && x < |g| && Visiting(View(), x) && g[x].Struct?
      modifies this`m, this`infos
      ensures View() == SearchFields(g, t, old(View()), x, 0)
      decreases Idle(g, View()), 2, 0
    {
      hide R.CanReach, SearchFields, AskAlso, ExtendsBut, Extends, Idle, Settled;
      var i := 0;
      while i < |g[x].fields|
        invariant 0 <= i <= |g[x].fields|
        invariant Valid(g, View()) && Visiting(View(), x) && Idle(g, View()) == Idle(g, old(View()))
        invariant SearchFields(g, t, View(), x, i) == SearchFields(g, t, old(View()), x, 0)
      {
        SearchTurn(g, t, View(), x, i);
        if g[x].fields[i].exported { SearchField(x, i); }
        i := i + 1;
      }
      FieldsEnd(g, t, View(), x);
    }

    method SearchField(x: Ty, i: nat)
      requires WF(g) && Valid(g, View()) && x < |g| && Visiting(View(), x)
      requires g[x].Struct? && i < |g[x].fields| && g[x].fields[i].exported
      modifies this`m, this`infos
      ensures Mentions(g, x, g[x].fields[i].ty)
      ensures View() == AskAlso(g, t, old(View()), x, g[x].fields[i].ty)
      decreases Idle(g, View()), 1, 0
    {
      assert Mentions(g, x, g[x].fields[i].ty);
      var k := CanReach(g[x].fields[i].ty);
      infos := infos[m[x] := infos[m[x]].(know := Or(k, infos[m[x]].know))];
    }

    method GetTraverserFunc(x: Ty) returns (tr: Trav)
      requires WF(g) && Quiet(g, View()) && x < |g|
      modifies this`m, this`infos
      ensures (View(), tr) == GetTrav(g, t, old(View()), x)
      decreases Bare(g, View()), 0, 0
    {
      ghost var s := View();
      var needFunc := CanReach(x);
      ghost var s1 := View();
      Searched(g, s, s1);
      var a := m[x];
      if infos[a].trav != NoTrav || needFunc == No {
        return infos[a].trav;
      }
      if needFunc == DontKnow {
        infos := infos[a := infos[a].(know := No)];
        return NoTrav;
      }
      if x == t {
        infos := infos[a := infos[a].(trav := CallF)];
        return CallF;
      }
      Installed(g, s, s1, x, Dummy);
      infos := infos[a := infos[a].(trav := Dummy)];
      tr := CompileKind(x);
      Tied(g, s, s1, View(), x, tr);
      infos := infos[a := infos[a].(trav := tr)];
    }

    /** The switch of `getTraverserFunc`. */
    method CompileKind(x: Ty) returns (tr: Trav)
      requires WF(g) && Quiet(g, View()) && x < |g| && x in m && infos[m[x]].trav == Dummy
      modifies this`m, this`infos
      ensures (View(), tr) == Compile(g, t, old(View()), x)
      decreases Bare(g, View()), 2, 0
    {
      match g[x]
      case Ptr(e) =>
        assert Mentions(g, x, e);
        var f := GetTraverserFunc(e);
        tr := PtrT(f);
      case Struct(fs) =>
        var refs := CompileStruct(x);
        tr := StructT(refs);
      case Map(k, e) =>
        assert Mentions(g, x, k) && Mentions(g, x, e);
        var f := GetTraverserFunc(k);
        var h := GetTraverserFunc(e);
        tr := MapT(f, h);
      case List(e) =>
        assert Mentions(g, x, e);
        var f := GetTraverserFunc(e);
        tr := ListT(f);
      case Iface => tr := IfaceT;
      case Leaf => tr := Dummy;
    }

    method CompileStruct(x: Ty) returns (refs: seq<Ref>)
      requires WF(g) && Quiet(g, View()) && x < |g| && g[x].Struct?
      modifies this`m, this`infos
      ensures (View(), refs) == CompileFields(g, t, old(View()), x, 0)
      decreases Bare(g, View()), 1, 0
    {
      hide GetTrav, CompileFields, Grows;
      refs := [];
      assert [] + CompileFields(g, t, View(), x, 0).1 == CompileFields(g, t, View(), x, 0).1;
      var i := 0;
      while i < |g[x].fields|
        invariant 0 <= i <= |g[x].fields|
        invariant Quiet(g, View()) && Bare(g, View()) <= Bare(g, old(View()))
        invariant Before(refs, CompileFields(g, t, View(), x, i)) == CompileFields(g, t, old(View()), x, 0)
      {
        CompileTurn(g, t, View(), x, i, refs);
        var f := GetTraverserFunc(g[x].fields[i].ty);
        assert refs + [] == refs;
        if f != NoTrav { refs := refs + [Ref(i, m[g[x].fields[i].ty])]; }
        i := i + 1;
      }
      CompileEnd(g, t, View(), x);
      assert refs + [] == refs;
    }

    /** Running a traverser.  The result is false for a panic. */
    method RunTraverser(tr: Trav, v: Value, ro: bool) returns (ok: bool)
      requires WF(g) && Quiet(g, View()) && Typed(g, v)
      modifies this
      ensures var (s', o) := Run(g, t, old(View()), tr, v, ro);
              View() == s' && ok == o.Calls? && (ok ==> calls == old(calls) + o.args)
      decreases v, 1, 0
    {
      match tr
      case NoTrav => ok := false;
      case Dummy => ok := false;
      case CallF =>
        ok := !ro;
        if ok { calls := calls + [v]; }
      case PtrT(f) =>
        if v.body.Null? {
          ok := true;
        } else if v.body.Pointee? {
          ok := RunTraverser(f, v.body.to, ro);
        } else {
          ok := false;
        }
      case StructT(refs) =>
        ok := g[v.ty].Struct?;
        if ok { ok := RunStruct(refs, v, ro); }
      case MapT(f, h) =>
        ok := g[v.ty].Map?;
        if ok { ok := RunMap(f, h, v, ro); }
      case ListT(f) =>
        ok := g[v.ty].List?;
        if ok { ok := RunList(f, v, ro); }
      case IfaceT =>
        if v.body.Null? {
          ok := true;
        } else if v.body.Dynamic? && g[v.ty].Iface? {
          assert Typed(g, v.body.held);
          var f := GetTraverserFunc(v.body.held.ty);
          ok := true;
          if f != NoTrav { ok := RunTraverser(f, v.body.held, ro); }
        } else {
          ok := false;
        }
    }

    method RunStruct(refs: seq<Ref>, v: Value, ro: bool) returns (ok: bool)
      requires WF(g) && Quiet(g, View()) && Typed(g, v) && g[v.ty].Struct?
      modifies this
      ensures var (s', o) := RunFields(g, t, old(View()), refs, v, ro, 0);
              View() == s' && ok == o.Calls? && (ok ==> calls == old(calls) + o.args)
      decreases v, 0, 0
    {
      hide Run, RunFields, GetTrav, Grows;
      ghost var whole := RunFields(g, t, View(), refs, v, ro, 0);
      ghost var done: seq<Value> := [];
      NothingBefore(whole);
      for j := 0 to |refs|
        invariant Quiet(g, View()) && calls == old(calls) + done
        invariant whole == AfterCalls(done, RunFields(g, t, View(), refs, v, ro, j))
      {
        if refs[j].field >= |v.body.vs| || refs[j].info >= |infos| {
          StructStuck(g, t, View(), refs, v, ro, j);
          return false;
        }
        StructTurn(g, t, View(), refs, v, ro, j, done);
        var i := refs[j].field;
        ghost var o1 := Run(g, t, View(), infos[refs[j].info].trav, v.body.vs[i],
                            ro || !g[v.ty].fields[i].exported).1;
        ok := RunTraverser(infos[refs[j].info].trav, v.body.vs[i], ro || !g[v.ty].fields[i].exported);
        if !ok { return; }
        done := done + o1.args;
      }
      ok := true;
      RunEnd(g, t, View(), refs, v, ro);
    }

    method RunMember(f: Trav, v: Value, ro: bool) returns (ok: bool)
      requires WF(g) && Quiet(g, View()) && Typed(g, v)
      modifies this
      ensures var (s', o) := RunPart(g, t, old(View()), f, v, ro);
              View() == s' && ok == o.Calls? && (ok ==> calls == old(calls) + o.args)
      decreases v, 2, 0
    {
      ok := true;
      if f != NoTrav { ok := RunTraverser(f, v, ro); }
    }

    method RunMap(f: Trav, h: Trav, v: Value, ro: bool) returns (ok: bool)
      requires WF(g) && Quiet(g, View()) && Typed(g, v) && g[v.ty].Map?
      modifies this
      ensures var (s', o) := RunEntries(g, t, old(View()), f, h, v, ro, 0);
              View() == s' && ok == o.Calls? && (ok ==> calls == old(calls) + o.args)
      decreases v, 0, 0
    {
      hide Run, RunEntries, RunPart, GetTrav, Grows;
      ghost var whole := RunEntries(g, t, View(), f, h, v, ro, 0);
      ghost var done: seq<Value> := [];
      NothingBefore(whole);
      for j := 0 to |v.body.kvs|
        invariant Quiet(g, View()) && calls == old(calls) + done
        invariant whole == AfterCalls(done, RunEntries(g, t, View(), f, h, v, ro, j))
      {
        MapTurn(g, t, View(), f, h, v, ro, j, done);
        ghost var o1 := RunPart(g, t, View(), f, v.body.kvs[j].key, ro).1;
        ok := RunMember(f, v.body.kvs[j].key, ro);
        if !ok { return; }
        ghost var o2 := RunPart(g, t, View(), h, v.body.kvs[j].val, ro).1;
        ok := RunMember(h, v.body.kvs[j].val, ro);
        if !ok { return; }
        done := done + o1.args + o2.args;
      }
      ok := true;
      MapEnd(g, t, View(), f, h, v, ro);
    }

    method RunList(f: Trav, v: Value, ro: bool) returns (ok: bool)
      requires WF(g) && Quiet(g, View()) && Typed(g, v) && g[v.ty].List?
      modifies this
      ensures var (s', o) := RunItems(g, t, old(View()), f, v, ro, 0);
              View() == s' && ok == o.Calls? && (ok ==> calls == old(calls) + o.args)
      decreases v, 0, 0
    {
      hide Run, RunItems, GetTrav, Grows;
      ghost var whole := RunItems(g, t, View(), f, v, ro, 0);
      ghost var done: seq<Value> := [];
      NothingBefore(whole);
      for j := 0 to |v.body.vs|
        invariant Quiet(g, View()) && calls == old(calls) + done
        invariant whole == AfterCalls(done, RunItems(g, t, View(), f, v, ro, j))
      {
        ListTurn(g, t, View(), f, v, ro, j, done);
        ghost var o1 := Run(g, t, View(), f, v.body.vs[j], ro).1;
        ok := RunTraverser(f, v.body.vs[j], ro);
        if !ok { return; }
        done := done + o1.args;
      }
      ok := true;
      ListEnd(g, t, View(), f, v, ro);
    }

    /** `Do`, for the target type of this table. */
    method Do(v: Value) returns (ok: bool)
      requires WF(g) && Quiet(g, View()) && Typed(g, v)
      modifies this
      ensures var (s', o) := DoSpec(g, t, old(View()), v);
              View() == s' && ok == o.Calls? && (ok ==> calls == old(calls) + o.args)
    {
      var tr := GetTraverserFunc(v.ty);
      ok := true;
      if tr != NoTrav { ok := RunTraverser(tr, v, false); }
    }
  }
}
