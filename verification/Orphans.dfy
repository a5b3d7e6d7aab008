/** Which connections are still open below a closed one: the safety of the completion protocol. */
module Orphans {
  import opened Completion

  /** `j` is `i` or lies below it. */
  predicate Descends(t: Tree, i: nat, j: nat)
    requires |t.parent| > 0 && forall k | 0 < k < |t.parent| :: t.parent[k] < k
    decreases j
  {
    j == i || (0 < j < |t.parent| && Descends(t, i, t.parent[j]))
  }

  lemma {:induction false} DescendsUp(t: Tree, i: nat, j: nat)
    requires t.Valid() && Descends(t, i, j)
    ensures i <= j
    decreases j
  {
    if j != i { DescendsUp(t, i, t.parent[j]); }
  }

  lemma {:induction false} DescendsOn(t: Tree, x: nat, j: nat)
    requires t.Valid() && 0 < x < |t.parent| && j < |t.parent| && Descends(t, x, j)
    ensures Descends(t, t.parent[x], j)
    decreases j
  {
    if j == x { assert Descends(t, t.parent[x], t.parent[x]); } else { DescendsOn(t, x, t.parent[j]); }
  }

  lemma FullCount(a: set<nat>, b: set<nat>)
    requires a <= b && |a| == |b|
    ensures a == b
  {
    if a != b {
      var x :| x in b && x !in a;
      assert a <= b - {x};
      CardMono(a, b - {x});
    }
  }

  // ----- Where everything above runs -----

  /** Nothing is wrong with `j` or anything above it. */
  ghost predicate FineTo(t: Tree, j: nat)
    requires t.Valid() && j < |t.parent|
    decreases j
  {
    j == 0 || (t.fate[j] == Fine && FineTo(t, t.parent[j]))
  }

  /** A node whose process has ended, with nothing wrong from the top down to it, has taken a token from every
      slave that it counted, each for a closed connection. */
  lemma {:induction false} ClosedKids(t: Tree, s: State, i: nat, j: nat)
    requires Inv(t, s) && i < |t.parent| && Gone(s.status[i]) && FineTo(t, i) && j in t.Kids(i)
    ensures s.status[j] == Reaped || (i == 0 && t.fate[j] == NoDial)
    decreases i
  {
    assert Balanced(t, s, i) && Placed(t, s, i) && Ended(t, s, i);
    NotTorn(t, s, i);
    var taken := TakenKids(t, s, i);
    forall k | k in taken ensures s.status[k] == Reaped && t.fate[k] != NoDial && s.status[k] != Idle {
      assert Placed(t, s, k);
    }
    if i == 0 {
      FullCount(taken, SentKids(t, s));
      assert t.fate[j] != NoDial ==> j in SentKids(t, s);
    } else {
      FullCount(taken, t.Kids(i));
    }
  }

  lemma {:induction false} NotTorn(t: Tree, s: State, i: nat)
    requires Inv(t, s) && i < |t.parent| && Gone(s.status[i]) && FineTo(t, i)
    ensures !Torn(t, s, i)
    decreases i, 0
  {
    if k :| k in s.lost && k in t.Kids(i) {
      assert Broken(t, s, k);
      ClosedKids(t, s, t.parent[i], i);
      assert false;
    }
  }

  /** Every program from the top down to `j` can be started, and no node list goes wrong on the way. */
  ghost predicate Steady(t: Tree, j: nat)
    requires t.Valid() && j < |t.parent|
    decreases j
  {
    j == 0 || (t.fate[j] != NoStart && t.fate[j] != BadRange && Steady(t, t.parent[j]))
  }

  lemma {:induction false} SteadyFine(t: Tree, s: State, j: nat)
    requires Inv(t, s) && j < |t.parent| && Begun(s.status[j]) && Steady(t, j)
    ensures FineTo(t, j)
    decreases j
  {
    assert Placed(t, s, j);
    if j > 0 { SteadyFine(t, s, t.parent[j]); }
  }

  /** In every reachable state: below a slave whose upstream connection is closed, every program has
      ended and every connection is closed, down to where something above went wrong. */
  lemma {:induction false} ClosedMeansDone(t: Tree, s: State, i: nat, j: nat)
    requires Inv(t, s) && 0 < i < |t.parent| && Shut(s.status[i]) && j < |t.parent| && Descends(t, i, j)
    requires Steady(t, t.parent[j])
    ensures Shut(s.status[j])
    decreases j
  {
    if j != i {
      var p := t.parent[j];
      DescendsUp(t, i, p);
      ClosedMeansDone(t, s, i, p);
      SteadyFine(t, s, p);
      ClosedKids(t, s, p, j);
    }
  }

  // ----- Programs that cannot be started -----

  /** The request gets through to `j` and to everything above it. */
  ghost predicate Gets(t: Tree, j: nat)
    requires t.Valid() && j < |t.parent|
    decreases j
  {
    j == 0 || (Starts(t.fate[j]) && t.fate[t.parent[j]] != BadRange && Gets(t, t.parent[j]))
  }

  lemma {:induction false} BegunGets(t: Tree, s: State, j: nat)
    requires Inv(t, s) && j < |t.parent| && Begun(s.status[j])
    ensures Gets(t, j)
    decreases j
  {
    assert Placed(t, s, j);
    if j > 0 { BegunGets(t, s, t.parent[j]); }
  }

  /** No node that the request gets through to, and whose program cannot be started, has a node below it that
      the request could get through to as well. */
  ghost predicate NoOrphans(t: Tree)
    requires t.Valid()
  {
    forall j | 0 < j < |t.parent| && t.fate[t.parent[j]] == NoStart && Gets(t, t.parent[j]) :: !Starts(t.fate[j])
  }

  /** Below a closed connection no connection is open, and so no program runs. */
  ghost predicate SafeState(t: Tree, s: State)
    requires WellSized(t, s)
  {
    forall i, j | 0 < i < |t.parent| && 0 <= j < |t.parent| && Shut(s.status[i]) && Descends(t, i, j) ::
      !Open(s.status[j])
  }

  lemma {:induction false} AboveFine(t: Tree, s: State, j: nat)
    requires Inv(t, s) && NoOrphans(t) && 0 < j < |t.parent| && Begun(s.status[j])
    ensures FineTo(t, t.parent[j])
    decreases j
  {
    var p := t.parent[j];
    assert Placed(t, s, j) && Placed(t, s, p);
    BegunGets(t, s, p);
    if p > 0 { AboveFine(t, s, p); }
  }

  lemma {:induction false} NothingOpenBelow(t: Tree, s: State, i: nat, j: nat)
    requires Inv(t, s) && NoOrphans(t) && 0 < i < |t.parent| && Shut(s.status[i]) && j < |t.parent| && Descends(t, i, j)
    ensures Shut(s.status[j]) || !Begun(s.status[j])
    decreases j
  {
    if j != i {
      var p := t.parent[j];
      DescendsUp(t, i, p);
      NothingOpenBelow(t, s, i, p);
      assert Placed(t, s, j);
      if Begun(s.status[j]) {
        AboveFine(t, s, j);
        ClosedKids(t, s, p, j);
      }
    }
  }

  lemma InvSafe(t: Tree, s: State)
    requires Inv(t, s) && NoOrphans(t)
    ensures SafeState(t, s)
  {
    forall i, j | 0 < i < |t.parent| && 0 <= j < |t.parent| && Shut(s.status[i]) && Descends(t, i, j)
      ensures !Open(s.status[j])
    {
      NothingOpenBelow(t, s, i, j);
    }
  }

  /** A slave is not below itself. */
  lemma {:induction false} HostsApart(t: Tree, x: nat, j: nat)
    requires t.Valid() && x < |t.parent| && j < |t.parent| && x != j && Descends(t, x, j)
    ensures t.host[x] != t.host[j]
    decreases x
  {
    DescendsUp(t, x, j);
    if x > 0 && t.host[x] == t.host[j] {
      var p := t.parent[j];
      DescendsUp(t, x, p);
      DescendsOn(t, x, p);
      HostsApart(t, t.parent[x], p);
    }
  }

  /** Only the nodes on the way to `j` have been started, and none of them is done. */
  ghost predicate OnlyPath(t: Tree, s: State, j: nat)
    requires WellSized(t, s)
  {
    && s.lost == {} && s.stuck == {}
    && forall x | 0 <= x < |t.parent| ::
         s.status[x] == if x == 0 then Finished else if Descends(t, x, j) then Running else Idle
  }

  lemma {:induction false} ReachRun(t: Tree, j: nat) returns (acts: seq<Act>)
    requires t.Valid() && j < |t.parent| && Gets(t, j)
    ensures Run(t, Initial(t), acts) && OnlyPath(t, After(t, Initial(t), acts), j)
    decreases j
  {
    if j == 0 {
      acts := [];
      forall x | 0 < x < |t.parent| ensures !Descends(t, x, 0) {}
    } else {
      var acts0 := ReachRun(t, t.parent[j]);
      var s := After(t, Initial(t), acts0);
      Reached(t, s, j);
      hide OnlyPath, Enabled, Next, Initial, After, Run;
      RunMore(t, Initial(t), acts0, Dial(j));
      RunMore(t, Initial(t), acts0 + [Dial(j)], Start(j));
      acts := acts0 + [Dial(j)] + [Start(j)];
    }
  }

  lemma Reached(t: Tree, s: State, j: nat)
    requires WellSized(t, s) && 0 < j < |t.parent| && OnlyPath(t, s, t.parent[j])
    requires Starts(t.fate[j]) && t.fate[t.parent[j]] != BadRange
    ensures Enabled(t, s, Dial(j)) && Enabled(t, Next(t, s, Dial(j)), Start(j))
    ensures OnlyPath(t, Next(t, Next(t, s, Dial(j)), Start(j)), j)
  {
    var p := t.parent[j];
    if Descends(t, j, p) { DescendsUp(t, j, p); }
    assert Descends(t, p, p);
    var s1 := Next(t, s, Dial(j));
    forall k | 0 <= k < |t.parent| && k != j && t.host[k] == t.host[j] ensures s1.status[k] == Idle {
      if Descends(t, k, p) { HostsApart(t, k, j); }
    }
    forall x | 0 < x < |t.parent| && x != j ensures Descends(t, x, j) == Descends(t, x, p) {}
  }

  ghost predicate SafeRun(t: Tree, acts: seq<Act>)
    requires t.Valid() && Run(t, Initial(t), acts)
  {
    SafeState(t, After(t, Initial(t), acts))
  }

  /** In every state of every run no connection is open below a closed one, if and only if no node whose
      program cannot be started has a node below it that the request gets through to. */
  lemma SafeIffNoOrphans(t: Tree)
    requires t.Valid()
    ensures NoOrphans(t) <==> forall acts | Run(t, Initial(t), acts) :: SafeRun(t, acts)
  {
    if NoOrphans(t) {
      forall acts | Run(t, Initial(t), acts) ensures SafeRun(t, acts) {
        Reachable(t, acts);
        InvSafe(t, After(t, Initial(t), acts));
      }
    } else {
      var acts := UnsafeRun(t);
    }
  }

  lemma UnsafeRun(t: Tree) returns (acts: seq<Act>)
    requires t.Valid() && !NoOrphans(t)
    ensures Run(t, Initial(t), acts) && !SafeRun(t, acts)
  {
    var p, j := Orphan(t);
    hide *;
    acts := OrphanRun(t, p, j);
    Unsafe(t, acts, p, j);
  }

  lemma Orphan(t: Tree) returns (p: nat, j: nat)
    requires t.Valid() && !NoOrphans(t)
    ensures 0 < p < |t.parent| && j in t.Kids(p) && Gets(t, j) && !FineTo(t, p)
  {
    j :| 0 < j < |t.parent| && t.fate[t.parent[j]] == NoStart && Gets(t, t.parent[j]) && Starts(t.fate[j]);
    p := t.parent[j];
  }

  lemma Unsafe(t: Tree, acts: seq<Act>, p: nat, j: nat)
    requires t.Valid() && Run(t, Initial(t), acts) && 0 < p < |t.parent| && j in t.Kids(p)
    requires var s := After(t, Initial(t), acts); Shut(s.status[p]) && Open(s.status[j])
    ensures !SafeRun(t, acts)
  {
    hide After, Run, Initial;
    assert Descends(t, p, p) && Descends(t, p, j);
  }

  // ----- How it spreads downwards -----

  /** On the way to `j`, the process of `q` has ended, and those below still run. */
  ghost predicate BrokenAt(t: Tree, s: State, q: nat, j: nat)
    requires WellSized(t, s) && q < |t.parent|
  {
    && Gone(s.status[q])
    && forall x | 0 <= x < |t.parent| && x != q && Descends(t, q, x) && Descends(t, x, j) ::
         s.status[x] == Running && (t.parent[x] != q ==> x !in s.lost)
  }

  /** The node above dials all its slaves. */
  lemma DialAll(t: Tree, acts: seq<Act>, q: nat) returns (more: seq<Act>)
    requires t.Valid() && Run(t, Initial(t), acts) && q < |t.parent| && t.fate[q] != BadRange
    requires Active(After(t, Initial(t), acts).status[q])
    ensures Run(t, Initial(t), more) && AllTried(t, After(t, Initial(t), more), q)
    ensures var s, s' := After(t, Initial(t), acts), After(t, Initial(t), more);
            s'.lost == s.lost && forall x | 0 <= x < |t.parent| && s.status[x] != Idle :: s'.status[x] == s.status[x]
  {
    more := acts;
    hide Enabled, Next, Run, After, Initial;
    ghost var s := After(t, Initial(t), acts);
    for k := 0 to |t.parent|
      invariant Run(t, Initial(t), more)
      invariant After(t, Initial(t), more).lost == s.lost
      invariant forall x | 0 <= x < |t.parent| && s.status[x] != Idle ::
                  After(t, Initial(t), more).status[x] == s.status[x]
      invariant forall x | 0 <= x < k && x in t.Kids(q) :: After(t, Initial(t), more).status[x] != Idle
    {
      var s1 := After(t, Initial(t), more);
      if k in t.Kids(q) && s1.status[k] == Idle {
        DialOne(t, s1, k);
        RunMore(t, Initial(t), more, Dial(k));
        more := more + [Dial(k)];
      }
    }
  }

  lemma DialOne(t: Tree, s: State, k: nat)
    requires WellSized(t, s) && 0 < k < |t.parent| && s.status[k] == Idle
    requires Active(s.status[t.parent[k]]) && t.fate[t.parent[k]] != BadRange
    ensures Enabled(t, s, Dial(k))
    ensures var s' := Next(t, s, Dial(k));
            && s'.lost == s.lost && s'.status[k] != Idle
            && forall x | 0 <= x < |t.parent| && x != k :: s'.status[x] == s.status[x]
  {}

  /** The node below `q` on the way to `j`. */
  lemma {:induction false} NextDown(t: Tree, q: nat, j: nat) returns (e: nat)
    requires t.Valid() && j < |t.parent| && q != j && Descends(t, q, j)
    ensures e in t.Kids(q) && Descends(t, e, j) && Descends(t, q, e)
    decreases j
  {
    assert Descends(t, q, q);
    if t.parent[j] == q { e := j; } else { e := NextDown(t, q, t.parent[j]); }
  }

  /** A node that waits for a token from below, when the process above it has ended: it may lose it. */
  lemma CanBreak(t: Tree, s: State, q: nat, e: nat)
    requires Inv(t, s) && 0 < q < |t.parent| && e in t.Kids(q) && t.fate[q] == Fine && AllTried(t, s, q)
    requires s.status[q] == Running && s.status[e] == Running && e !in s.lost && Gone(s.status[t.parent[q]])
    ensures Enabled(t, s, Cut(e)) && Enabled(t, Next(t, s, Cut(e)), Quit(q))
    ensures var s' := Next(t, Next(t, s, Cut(e)), Quit(q));
            s' == State(s.status[q := Loose], s'.numWorkers, s.lost + {e}, s.stuck)
  {
    assert Balanced(t, s, q);
    if s.numWorkers[q] == 0 {
      FullCount(TakenKids(t, s, q), t.Kids(q));
      assert false;
    }
    var s1 := Next(t, s, Cut(e));
    assert e in s1.lost && Torn(t, s1, q);
  }

  lemma {:induction false} BreakRun(t: Tree, q: nat, j: nat) returns (acts: seq<Act>)
    requires t.Valid() && 0 < q < |t.parent| && j < |t.parent| && q != j && Descends(t, q, j)
    requires Gets(t, j) && !FineTo(t, q)
    ensures Run(t, Initial(t), acts) && BrokenAt(t, After(t, Initial(t), acts), q, j)
    decreases q
  {
    hide Enabled, Next, Run, After, Initial, BrokenAt, OnlyPath;
    GetsUp(t, q, j);
    if t.fate[q] == NoStart {
      acts := ReachRun(t, j);
      CrashFirst(t, After(t, Initial(t), acts), q, j);
      RunMore(t, Initial(t), acts, Crash(q, true));
      acts := acts + [Crash(q, true)];
    } else {
      DescendsOn(t, q, j);
      DescendsUp(t, q, j);
      var acts0 := BreakRun(t, t.parent[q], j);
      acts := BreakOne(t, acts0, q, j);
    }
  }

  lemma CrashFirst(t: Tree, s: State, q: nat, j: nat)
    requires WellSized(t, s) && OnlyPath(t, s, j) && 0 < q < |t.parent| && j < |t.parent| && Descends(t, q, j)
    requires t.fate[q] == NoStart
    ensures Enabled(t, s, Crash(q, true)) && BrokenAt(t, Next(t, s, Crash(q, true)), q, j)
  {
    forall x | 0 <= x < |t.parent| && x != q && Descends(t, q, x) ensures x != 0 { DescendsUp(t, q, x); }
  }

  /** One level down. */
  lemma BreakOne(t: Tree, acts0: seq<Act>, q: nat, j: nat) returns (acts: seq<Act>)
    requires t.Valid() && 0 < q < |t.parent| && j < |t.parent| && q != j && Descends(t, q, j) && t.fate[q] == Fine
    requires Run(t, Initial(t), acts0) && BrokenAt(t, After(t, Initial(t), acts0), t.parent[q], j)
    ensures Run(t, Initial(t), acts) && BrokenAt(t, After(t, Initial(t), acts), q, j)
  {
    hide *;
    DescendsOn(t, q, j);
    DescendsUp(t, q, j);
    var e := NextDown(t, q, j);
    StillRuns(t, After(t, Initial(t), acts0), q, e, j);
    var acts1 := DialAll(t, acts0, q);
    Reachable(t, acts1);
    var s := After(t, Initial(t), acts1);
    CanBreak(t, s, q, e);
    RunMore(t, Initial(t), acts1, Cut(e));
    RunMore(t, Initial(t), acts1 + [Cut(e)], Quit(q));
    acts := acts1 + [Cut(e)] + [Quit(q)];
    Lower(t, After(t, Initial(t), acts0), s, After(t, Initial(t), acts), q, e, j);
  }

  lemma StillRuns(t: Tree, s: State, q: nat, e: nat, j: nat)
    requires WellSized(t, s) && 0 < q < |t.parent| && j < |t.parent| && BrokenAt(t, s, t.parent[q], j)
    requires e in t.Kids(q) && Descends(t, q, j) && Descends(t, e, j)
    ensures s.status[q] == Running && s.status[e] == Running && e !in s.lost && Active(s.status[q])
    ensures t.parent[q] < |t.parent| && s.status[t.parent[q]] != Idle && Gone(s.status[t.parent[q]])
  {
    var p := t.parent[q];
    assert Descends(t, p, p) && Descends(t, p, q) && Descends(t, p, e);
  }

  lemma Lower(t: Tree, s0: State, s: State, s': State, q: nat, e: nat, j: nat)
    requires WellSized(t, s0) && WellSized(t, s) && WellSized(t, s') && 0 < q < |t.parent| && e in t.Kids(q)
    requires Descends(t, q, j) && BrokenAt(t, s0, t.parent[q], j) && s.lost == s0.lost
    requires forall x | 0 <= x < |t.parent| && s0.status[x] != Idle :: s.status[x] == s0.status[x]
    requires s'.status == s.status[q := Loose] && s'.lost == s.lost + {e}
    ensures BrokenAt(t, s', q, j)
  {
    forall x | 0 <= x < |t.parent| && x != q && Descends(t, q, x) && Descends(t, x, j)
      ensures s'.status[x] == Running && (t.parent[x] != q ==> x !in s'.lost)
    {
      DescendsOn(t, q, x);
      DescendsUp(t, q, x);
      DescendsUp(t, q, t.parent[x]);
    }
  }

  lemma {:induction false} GetsUp(t: Tree, q: nat, j: nat)
    requires t.Valid() && q < |t.parent| && j < |t.parent| && Descends(t, q, j) && Gets(t, j)
    ensures Gets(t, q) && (q != j ==> t.fate[q] != BadRange)
    decreases j
  {
    if q != j { GetsUp(t, q, t.parent[j]); }
  }

  /** An orphan: its connection stays open after that of the node above it is closed. */
  lemma OrphanRun(t: Tree, p: nat, j: nat) returns (acts: seq<Act>)
    requires t.Valid() && 0 < p < |t.parent| && j in t.Kids(p) && Gets(t, j) && !FineTo(t, p)
    ensures Run(t, Initial(t), acts)
    ensures var s := After(t, Initial(t), acts); Shut(s.status[p]) && s.status[j] == Running
  {
    assert Descends(t, p, p) && Descends(t, p, j) && Descends(t, j, j);
    acts := BreakRun(t, p, j);
    var s := After(t, Initial(t), acts);
    if s.status[p] == Loose {
      RunMore(t, Initial(t), acts, Finish(p));
      acts := acts + [Finish(p)];
    }
  }

  ghost predicate OutlivesIn(t: Tree, p: nat, j: nat, acts: seq<Act>)
    requires t.Valid() && Run(t, Initial(t), acts) && p < |t.parent| && j < |t.parent|
  {
    var s := After(t, Initial(t), acts); Shut(s.status[p]) ==> Shut(s.status[j])
  }

  /** A slave's connection outlives that of a slave below it, in every run, if and only if nothing is wrong
      with the slave or with anything above it. */
  lemma OutlivesIffFine(t: Tree, p: nat, j: nat)
    requires t.Valid() && 0 < p < |t.parent| && j in t.Kids(p) && Gets(t, j)
    ensures FineTo(t, p) <==> forall acts | Run(t, Initial(t), acts) :: OutlivesIn(t, p, j, acts)
  {
    if FineTo(t, p) {
      forall acts | Run(t, Initial(t), acts) ensures OutlivesIn(t, p, j, acts) {
        Reachable(t, acts);
        var s := After(t, Initial(t), acts);
        if Shut(s.status[p]) { ClosedKids(t, s, p, j); }
      }
    } else {
      var acts := OrphanRun(t, p, j);
      assert !OutlivesIn(t, p, j, acts);
    }
  }

  // ----- When the user's process returns -----

  /** Nothing is open below each slave that was reached directly, if there are no orphans, and everything is
      done down to where something above went wrong. */
  lemma ReturnMeansDone(t: Tree, acts: seq<Act>, i: nat, j: nat)
    requires t.Valid() && Run(t, Initial(t), acts)
    requires i in t.Kids(0) && t.fate[i] != NoDial && j < |t.parent| && Descends(t, i, j)
    ensures var s := After(t, Initial(t), acts);
            s.status[0] == Closed ==>
              && (NoOrphans(t) ==> !Open(s.status[j]))
              && (Steady(t, t.parent[j]) ==> Shut(s.status[j]))
  {
    Reachable(t, acts);
    var s := After(t, Initial(t), acts);
    if s.status[0] == Closed {
      ClosedKids(t, s, 0, i);
      if NoOrphans(t) { NothingOpenBelow(t, s, i, j); }
      DescendsUp(t, i, j);
      if Steady(t, t.parent[j]) { ClosedMeansDone(t, s, i, j); }
    }
  }
}
