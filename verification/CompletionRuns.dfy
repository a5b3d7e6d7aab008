/** Runs of the completion protocol in which something goes wrong. */
module CompletionRuns {
  import opened Completion
  import opened Orphans
  import opened Returning

  /** One more step, seen at the statuses only. */
  lemma OneMore(t: Tree, acts: seq<Act>, a: Act) returns (more: seq<Act>)
    requires t.Valid() && Run(t, Initial(t), acts) && Enabled(t, After(t, Initial(t), acts), a)
    ensures more == acts + [a] && Run(t, Initial(t), more)
    ensures After(t, Initial(t), more) == Next(t, After(t, Initial(t), acts), a) && Inv(t, After(t, Initial(t), more))
  {
    hide *;
    RunMore(t, Initial(t), acts, a);
    more := acts + [a];
    Reachable(t, more);
  }

  // ----- A program that cannot be started -----

  /** The user, a slave whose program cannot be started, and two slaves below it. */
  const Chain: Tree := Tree([0, 0, 1, 2], [Fine, NoStart, Fine, Fine], [[], ["1"], ["1", "2"], ["1", "2", "3"]])

  lemma ChainKids()
    ensures Chain.Valid() && Chain.Kids(0) == {1} && Chain.Kids(1) == {2} && Chain.Kids(2) == {3}
    ensures Chain.Kids(3) == {} && Gets(Chain, 3) && !FineTo(Chain, 2)
    ensures Descends(Chain, 0, 3) && Descends(Chain, 1, 3) && Descends(Chain, 2, 3) && Descends(Chain, 3, 3)
  {
    forall i: nat, j: nat | i < 4 && j < 4 && i != j ensures Chain.host[i] != Chain.host[j] {
      assert |Chain.host[i]| == i && |Chain.host[j]| == j;
    }
    assert Gets(Chain, 1) && Gets(Chain, 2) && !FineTo(Chain, 1);
    assert Descends(Chain, 1, 2);
    assert Descends(Chain, 0, 1) && Descends(Chain, 0, 2);
  }

  /** The three programs are started, and the first of them cannot be. */
  lemma CrashesFirst() returns (acts: seq<Act>)
    ensures Chain.Valid() && Run(Chain, Initial(Chain), acts)
    ensures var s := After(Chain, Initial(Chain), acts);
            Inv(Chain, s) && s.status == [Finished, Closed, Running, Running] && s.lost == {}
  {
    ChainKids();
    hide Run, After, Initial;
    acts := ReachRun(Chain, 3);
    var s := After(Chain, Initial(Chain), acts);
    assert s.status == [Finished, Running, Running, Running];
    acts := OneMore(Chain, acts, Crash(1, true));
  }

  /** The user's process returns while the lower programs still run. */
  lemma ReturnsEarly() returns (acts: seq<Act>)
    ensures Chain.Valid() && Run(Chain, Initial(Chain), acts)
    ensures After(Chain, Initial(Chain), acts).status == [Closed, Reaped, Running, Running]
  {
    ChainKids();
    hide Run, After, Initial;
    acts := CrashesFirst();
    var s := After(Chain, Initial(Chain), acts);
    assert TakenKids(Chain, s, 0) == {} && SentKids(Chain, s) == {1} && Balanced(Chain, s, 0);
    acts := OneMore(Chain, acts, Reap(1));
    acts := OneMore(Chain, acts, Close(0));
  }

  /** Output of the last program cannot be passed on; the slave above it ends while that program runs. */
  lemma BreaksOff() returns (acts: seq<Act>)
    ensures Chain.Valid() && Run(Chain, Initial(Chain), acts)
    ensures After(Chain, Initial(Chain), acts).status == [Finished, Closed, Closed, Running]
  {
    ChainKids();
    hide Run, After, Initial;
    acts := CrashesFirst();
    var s := After(Chain, Initial(Chain), acts);
    CanBreak(Chain, s, 2, 3);
    acts := OneMore(Chain, acts, Cut(3));
    acts := OneMore(Chain, acts, Quit(2));
    acts := OneMore(Chain, acts, Finish(2));
  }

  // ----- A request that is lost -----

  /** The user, a slave, and a slave below it that cannot be dialed. */
  const Lost: Tree := Tree([0, 0, 1], [Fine, Fine, NoDial], [[], ["1"], ["1", "2"]])

  lemma LostKids()
    ensures Lost.Valid() && Lost.Kids(0) == {1} && Lost.Kids(1) == {2} && Lost.Kids(2) == {}
    ensures Gets(Lost, 1) && Descends(Lost, 0, 1) && Descends(Lost, 1, 1) && !Descends(Lost, 2, 1)
  {}

  /** The slave counted a worker that never comes: nothing can happen any more, and the user's process has not
      returned. */
  lemma WaitsForEver() returns (acts: seq<Act>)
    ensures Lost.Valid() && Run(Lost, Initial(Lost), acts)
    ensures var s := After(Lost, Initial(Lost), acts);
            s.status == [Finished, Finished, Unreachable] && forall a :: !Enabled(Lost, s, a)
  {
    LostKids();
    hide Run, After, Initial;
    acts := ReachRun(Lost, 1);
    var s := After(Lost, Initial(Lost), acts);
    assert s.status == [Finished, Running, Idle];
    acts := OneMore(Lost, acts, Finish(1));
    acts := OneMore(Lost, acts, Dial(2));
    s := After(Lost, Initial(Lost), acts);
    assert Balanced(Lost, s, 0) && Balanced(Lost, s, 1);
    assert TakenKids(Lost, s, 0) == {} && SentKids(Lost, s) == {1} && TakenKids(Lost, s, 1) == {};
    forall a ensures !Enabled(Lost, s, a) {}
  }

  // ----- A slave that is named twice -----

  /** Two requests for one slave, the first of which cannot start its program. */
  const Twice: Tree := Tree([0, 0, 0], [Fine, NoStart, Fine], [[], ["1"], ["1"]])

  lemma TwiceKids()
    ensures Twice.Valid() && Twice.Kids(0) == {1, 2} && Twice.Kids(1) == {} && Twice.Kids(2) == {}
    ensures NoneLost(Twice) && !Unblocked(Twice) && Gets(Twice, 1) && Descends(Twice, 1, 1) && !Descends(Twice, 2, 1)
  {
    assert FineTo(Twice, Twice.parent[2]) && !Steady(Twice, 1);
  }

  /** The first process ends before it has asked for its slaves, and the second request goes out. */
  lemma HeldFirst() returns (acts: seq<Act>)
    ensures Twice.Valid() && Run(Twice, Initial(Twice), acts)
    ensures var s := After(Twice, Initial(Twice), acts);
            Inv(Twice, s) && s.status == [Finished, Closed, Requested] && 1 in s.stuck && s.lost == {}
  {
    TwiceKids();
    hide Run, After, Initial;
    acts := ReachRun(Twice, 1);
    var s := After(Twice, Initial(Twice), acts);
    assert s.status == [Finished, Running, Idle];
    acts := OneMore(Twice, acts, Crash(1, false));
    acts := OneMore(Twice, acts, Dial(2));
  }

  /** No request is lost.  But the first process ends before it has asked for its slaves, the slave waits for it,
      and the second request is never taken. */
  lemma HeldForEver() returns (acts: seq<Act>)
    ensures Twice.Valid() && NoneLost(Twice) && Maximal(Twice, acts) && !Returned(Twice, acts)
  {
    hide Run, After, Initial, NoneLost, Unblocked;
    TwiceKids();
    acts := HeldFirst();
    var s := After(Twice, Initial(Twice), acts);
    TwoLeft(s);
    acts := OneMore(Twice, acts, Reap(1));
    Held(After(Twice, Initial(Twice), acts));
  }

  lemma Held(s: State)
    requires Inv(Twice, s) && s.status == [Finished, Reaped, Requested] && 1 in s.stuck
    ensures forall a :: !Enabled(Twice, s, a)
  {
    TwiceKids();
    HeldSlave(s);
    OneLeft(s);
    hide HostFree, AllTried, Torn, Inv;
  }

  lemma TwoLeft(s: State)
    requires Inv(Twice, s) && s.status == [Finished, Closed, Requested] && s.lost == {}
    ensures Enabled(Twice, s, Reap(1))
  {
    TwiceKids();
    assert Balanced(Twice, s, 0) && SentKids(Twice, s) == {1, 2} && TakenKids(Twice, s, 0) == {};
  }

  lemma HeldSlave(s: State)
    requires WellSized(Twice, s) && 1 in s.stuck
    ensures !HostFree(Twice, s, 2)
  {}

  lemma OneLeft(s: State)
    requires Inv(Twice, s) && s.status == [Finished, Reaped, Requested]
    ensures s.numWorkers[0] == 1 && !Torn(Twice, s, 0)
  {
    TwiceKids();
    assert Balanced(Twice, s, 0) && Broken(Twice, s, 2) && Broken(Twice, s, 1);
    assert SentKids(Twice, s) == {1, 2} && TakenKids(Twice, s, 0) == {1};
  }
}
