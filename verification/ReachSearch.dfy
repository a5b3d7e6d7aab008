/** The memoised depth-first search `canReach`, as a function on the cache it updates. */
module ReachSearch {
  import opened TypeGraph

  datatype Knowledge = DontKnow | No | Yes

  /** A compiled traverser.  A struct traverser keeps, for each field it follows, the index of the
      field and the address of the field type's typeInfo; every other traverser holds its callee. */
  datatype Trav =
    | NoTrav
    | Dummy
    | CallF
    | PtrT(elemT: Trav)
    | StructT(refs: seq<Ref>)
    | MapT(keyT: Trav, valT: Trav)
    | ListT(itemT: Trav)
    | IfaceT

  datatype Ref = Ref(field: nat, info: nat)

  datatype Info = Info(know: Knowledge, visiting: bool, trav: Trav)

  /** `m` maps a type to the address of its typeInfo; `infos` holds every typeInfo ever allocated, so
      that an address captured by a traverser keeps its meaning after `m` moves on. */
  datatype State = State(m: map<Ty, nat>, infos: seq<Info>)

  const Fresh := State(map[], [])

  ghost predicate Valid(g: Graph, s: State) {
    && (forall x | x in s.m :: x < |g| && s.m[x] < |s.infos|)
    && (forall x, y | x in s.m && y in s.m && s.m[x] == s.m[y] :: x == y)
  }

  function Look(s: State, x: Ty): Info
    requires x in s.m && s.m[x] < |s.infos|
  {
    s.infos[s.m[x]]
  }

  predicate Settled(i: Info) {
    i.visiting || i.know != DontKnow
  }

  function SetKnow(s: State, a: nat, k: Knowledge): State
    requires a < |s.infos|
  {
    s.(infos := s.infos[a := s.infos[a].(know := k)])
  }

  function SetVisiting(s: State, a: nat, b: bool): State
    requires a < |s.infos|
  {
    s.(infos := s.infos[a := s.infos[a].(visiting := b)])
  }

  function Allocate(s: State, x: Ty): State {
    State(s.m[x := |s.infos|], s.infos + [Info(DontKnow, false, NoTrav)])
  }

  function Or(a: Knowledge, b: Knowledge): Knowledge {
    if a == Yes || b == Yes then Yes
    else if a == DontKnow || b == DontKnow then DontKnow
    else No
  }

  /** The types whose search is in progress. */
  ghost predicate Visiting(s: State, x: Ty)
    requires x in s.m ==> s.m[x] < |s.infos|
  {
    x in s.m && Look(s, x).visiting
  }

  ghost function Idle(g: Graph, s: State): set<Ty>
    requires Valid(g, s)
  {
    set x: Ty | 0 <= x < |g| && !Visiting(s, x)
  }

  /** All that a finished search may do to a cache: allocate.  No existing typeInfo is written, and a
      type is moved to a new typeInfo only if its old one was undecided. */
  ghost predicate Extends(s: State, s': State) {
    && s.infos <= s'.infos
    && s.m.Keys <= s'.m.Keys
    && (forall x | x in s.m :: s.m[x] < |s.infos| &&
         (s'.m[x] == s.m[x] || (s'.m[x] >= |s.infos| && !Settled(Look(s, x)))))
    && (forall x | x in s'.m && x !in s.m :: s'.m[x] >= |s.infos|)
    && (forall a | |s.infos| <= a < |s'.infos| :: !s'.infos[a].visiting && s'.infos[a].trav == NoTrav)
  }

  /** The same while the typeInfo at `a`, which belongs to the caller, has its answer updated. */
  ghost predicate ExtendsBut(s: State, s': State, a: nat) {
    && a < |s.infos| <= |s'.infos|
    && s'.infos[a] == s.infos[a].(know := s'.infos[a].know)
    && Extends(s, s'.(infos := s'.infos[a := s.infos[a]]))
  }

  function CanReach(g: Graph, t: Ty, s: State, x: Ty): (r: (State, Knowledge))
    requires WF(g) && Valid(g, s) && x < |g|
    ensures Valid(g, r.0) && Extends(s, r.0)
    ensures x in r.0.m && Look(r.0, x).know == r.1
    decreases Idle(g, s), 0, 0
  {
    if x in s.m && Settled(Look(s, x)) then (s, Look(s, x).know)
    else
      var a := |s.infos|;
      if x == t then (SetKnow(Allocate(s, x), a, Yes), Yes)
      else
        var s2 := SetVisiting(Allocate(s, x), a, true);
        Begin(g, s, x);
        var s3 := Search(g, t, s2, x);
        Finish(g, s, s3, x);
        (SetVisiting(s3, a, false), s3.infos[a].know)
  }

  /** The switch on the kind of `x`, whose typeInfo is marked visiting. */
  function Search(g: Graph, t: Ty, s: State, x: Ty): (s': State)
    requires WF(g) && Valid(g, s) && x < |g| && Visiting(s, x)
    ensures Valid(g, s') && ExtendsBut(s, s', s.m[x])
    decreases Idle(g, s), 3, 0
  {
    match g[x]
    case Ptr(e) => Ask(g, t, s, x, e)
    case Struct(fs) => SearchFields(g, t, s, x, 0)
    case Map(k, e) =>
      var s1 := Ask(g, t, s, x, k);
      SameIdle(g, s, s1, s.m[x]);
      var s2 := AskAlso(g, t, s1, x, e);
      Chain(g, s, s1, s2, s.m[x]);
      s2
    case List(e) => Ask(g, t, s, x, e)
    case Iface => SetKnow(s, s.m[x], Yes)
    case Leaf => s
  }

  /** `info.canReach = canReach(m, t, y)`. */
  function Ask(g: Graph, t: Ty, s: State, x: Ty, y: Ty): (s': State)
    requires WF(g) && Valid(g, s) && x < |g| && Visiting(s, x) && Mentions(g, x, y)
    ensures Valid(g, s') && ExtendsBut(s, s', s.m[x]) && Visiting(s', x)
    decreases Idle(g, s), 1, 0
  {
    var (s1, k) := CanReach(g, t, s, y);
    Noted(g, s, s1, s.m[x], k);
    SetKnow(s1, s.m[x], k)
  }

  /** `info.canReach = or(canReach(m, t, y), info.canReach)`. */
  function AskAlso(g: Graph, t: Ty, s: State, x: Ty, y: Ty): (s': State)
    requires WF(g) && Valid(g, s) && x < |g| && Visiting(s, x) && Mentions(g, x, y)
    ensures Valid(g, s') && ExtendsBut(s, s', s.m[x]) && Visiting(s', x)
    decreases Idle(g, s), 1, 0
  {
    var (s1, k) := CanReach(g, t, s, y);
    Noted(g, s, s1, s.m[x], Or(k, s1.infos[s.m[x]].know));
    SetKnow(s1, s.m[x], Or(k, s1.infos[s.m[x]].know))
  }

  /** The loop over the fields, from field `i` on; unexported members are ignored. */
  function SearchFields(g: Graph, t: Ty, s: State, x: Ty, i: nat): (s': State)
    requires WF(g) && Valid(g, s) && x < |g| && Visiting(s, x)
    requires g[x].Struct? && i <= |g[x].fields|
    ensures Valid(g, s') && ExtendsBut(s, s', s.m[x])
    decreases Idle(g, s), 2, |g[x].fields| - i
  {
    if i == |g[x].fields| then s
    else if g[x].fields[i].exported then
      var y := g[x].fields[i].ty;
      var s1 := AskAlso(g, t, s, x, y);
      SameIdle(g, s, s1, s.m[x]);
      var s2 := SearchFields(g, t, s1, x, i + 1);
      Chain(g, s, s1, s2, s.m[x]);
      s2
    else SearchFields(g, t, s, x, i + 1)
  }

  /** Recording an answer at the caller's own typeInfo. */
  lemma Noted(g: Graph, s: State, s1: State, a: nat, k: Knowledge)
    requires Valid(g, s) && Valid(g, s1) && Extends(s, s1) && a < |s.infos| && s.infos[a].visiting
    ensures Valid(g, SetKnow(s1, a, k)) && ExtendsBut(s, SetKnow(s1, a, k), a)
    ensures forall x | x in s.m && s.m[x] == a :: Visiting(SetKnow(s1, a, k), x)
  {
    var s' := SetKnow(s1, a, k);
    assert s'.infos[a := s.infos[a]] == s1.infos;
  }

  /** The same spelled out, entry by entry. */
  ghost predicate GrowsBut(s: State, s': State, a: nat) {
    && a < |s.infos| <= |s'.infos|
    && s'.infos[a] == s.infos[a].(know := s'.infos[a].know)
    && (forall i | 0 <= i < |s.infos| && i != a :: s'.infos[i] == s.infos[i])
    && (forall i | |s.infos| <= i < |s'.infos| :: !s'.infos[i].visiting && s'.infos[i].trav == NoTrav)
    && s.m.Keys <= s'.m.Keys
    && (forall x | x in s.m :: s.m[x] < |s.infos| &&
         (s'.m[x] == s.m[x] || (s'.m[x] >= |s.infos| && !Settled(Look(s, x)))))
    && (forall x | x in s'.m && x !in s.m :: s'.m[x] >= |s.infos|)
  }

  lemma Spelled(s: State, s': State, a: nat)
    ensures ExtendsBut(s, s', a) <==> GrowsBut(s, s', a)
  {
    if a < |s.infos| <= |s'.infos| {
      var r := s'.infos[a := s.infos[a]];
      if s.infos <= r {
        forall i | 0 <= i < |s.infos| && i != a ensures s'.infos[i] == s.infos[i] { assert r[i] == s.infos[i]; }
      }
      forall i | |s.infos| <= i < |r| ensures r[i] == s'.infos[i] {}
    }
  }

  lemma Chain(g: Graph, s: State, s1: State, s2: State, a: nat)
    requires Valid(g, s) && Valid(g, s1) && Valid(g, s2)
    requires ExtendsBut(s, s1, a) && ExtendsBut(s1, s2, a) && s.infos[a].visiting
    ensures ExtendsBut(s, s2, a)
  {
    hide ExtendsBut, Valid;
    Spelled(s, s1, a);
    Spelled(s1, s2, a);
    Spelled(s, s2, a);
    forall x | x in s.m && s2.m[x] != s.m[x] ensures s2.m[x] >= |s.infos| && !Settled(Look(s, x)) {
      if s1.m[x] == s.m[x] { assert s.m[x] != a; }
    }
  }

  /** Marking `x` leaves one type fewer to search. */
  lemma Begin(g: Graph, s: State, x: Ty)
    requires Valid(g, s) && x < |g| && (x in s.m ==> !Settled(Look(s, x)))
    ensures var s' := SetVisiting(Allocate(s, x), |s.infos|, true);
            Valid(g, s') && Visiting(s', x) && Idle(g, s') < Idle(g, s)
  {
    var s' := SetVisiting(Allocate(s, x), |s.infos|, true);
    assert x in Idle(g, s) && x !in Idle(g, s');
    forall y | y in Idle(g, s') ensures y in Idle(g, s) {
      assert y != x;
    }
  }

  /** Finishing the search at the freshly allocated typeInfo of `x` extends the original cache. */
  lemma Finish(g: Graph, s: State, s3: State, x: Ty)
    requires Valid(g, s) && Valid(g, s3) && x < |g| && (x in s.m ==> !Settled(Look(s, x)))
    requires ExtendsBut(SetVisiting(Allocate(s, x), |s.infos|, true), s3, |s.infos|)
    ensures var s' := SetVisiting(s3, |s.infos|, false);
            Valid(g, s') && Extends(s, s') && s'.m.Keys == s3.m.Keys && x in s'.m && s'.m[x] == |s.infos|
  {
    var a := |s.infos|;
    var s2 := SetVisiting(Allocate(s, x), a, true);
    Spelled(s2, s3, a);
    hide ExtendsBut, Extends, GrowsBut;
    Finished(g, s, s3, x);
    assert Valid(g, SetVisiting(s3, a, false));
  }

  lemma Finished(g: Graph, s: State, s3: State, x: Ty)
    requires Valid(g, s) && (x in s.m ==> !Settled(Look(s, x)))
    requires GrowsBut(SetVisiting(Allocate(s, x), |s.infos|, true), s3, |s.infos|)
    ensures Extends(s, SetVisiting(s3, |s.infos|, false)) && x in s3.m && s3.m[x] == |s.infos|
  {
    var a := |s.infos|;
    var s2 := SetVisiting(Allocate(s, x), a, true);
    assert s2.m == s.m[x := a] && s3.m[x] == a;
    var s4 := SetVisiting(s3, a, false);
    assert s.infos <= s4.infos by {
      forall i | 0 <= i < a ensures s4.infos[i] == s.infos[i] { assert s2.infos[i] == s.infos[i]; }
    }
    forall y | y in s.m ensures s4.m[y] == s.m[y] || (s4.m[y] >= a && !Settled(Look(s, y))) {
      if y != x { assert s2.m[y] == s.m[y] && Look(s2, y) == Look(s, y); }
    }
  }

  /** Extending a cache leaves the set of types in progress alone. */
  lemma SameIdle(g: Graph, s: State, s': State, a: nat)
    requires Valid(g, s) && Valid(g, s') && ExtendsBut(s, s', a)
    ensures Idle(g, s) == Idle(g, s')
  {
    forall x: Ty | x < |g| ensures Visiting(s, x) == Visiting(s', x) {
      if x in s'.m && s'.m[x] != a { assert s'.infos[s'.m[x]] == s'.infos[a := s.infos[a]][s'.m[x]]; }
    }
  }
}
