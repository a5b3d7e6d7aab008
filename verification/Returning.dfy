/** When the user's process returns: the progress of the completion protocol. */
module Returning {
  import opened Completion
  import opened Orphans

  /** Every request that node 0 waits for, at any distance, gets through.  A slave counts its workers before
      it sends anything, so there a failed dial matters; node 0 is told how many dials succeeded. */
  ghost predicate NoneLost(t: Tree)
    requires t.Valid()
  {
    forall j | 0 < j < |t.parent| && FineTo(t, t.parent[j]) ::
      if t.parent[j] == 0 then t.fate[j] != NoDialBack else Starts(t.fate[j])
  }

  /** No request that is waited for shares its slave with one that runs into a program that cannot be started,
      or into a bad range, at or above itself. */
  ghost predicate Unblocked(t: Tree)
    requires t.Valid()
  {
    forall j, k | 0 < j < |t.parent| && 0 < k < |t.parent| && j != k && t.host[j] == t.host[k] &&
                  FineTo(t, t.parent[j]) && t.fate[j] != NoDial :: Steady(t, k)
  }

  /** The same of a state: no slave that is needed is held by another request for ever. */
  ghost predicate Unhindered(t: Tree, s: State)
    requires WellSized(t, s)
  {
    forall j, k | 0 < j < |t.parent| && 0 < k < |t.parent| && j != k && t.host[j] == t.host[k] &&
                  FineTo(t, t.parent[j]) && t.fate[j] != NoDial ::
      k !in s.stuck && (s.status[k] == Finished ==> FineTo(t, k))
  }

  lemma NeverHindered(t: Tree, s: State)
    requires Inv(t, s) && NoneLost(t) && Unblocked(t)
    ensures Unhindered(t, s)
  {
    forall j, k | 0 < j < |t.parent| && 0 < k < |t.parent| && j != k && t.host[j] == t.host[k] &&
                  FineTo(t, t.parent[j]) && t.fate[j] != NoDial
      ensures k !in s.stuck && (s.status[k] == Finished ==> FineTo(t, k))
    {
      assert Steady(t, k);
      if s.status[k] == Finished { SteadyFine(t, s, k); }
      if k in s.stuck { NotStuck(t, s, k); }
    }
  }

  lemma NotStuck(t: Tree, s: State, k: nat)
    requires Inv(t, s) && NoneLost(t) && 0 < k < |t.parent| && Steady(t, k)
    ensures k !in s.stuck
  {
    var q := t.parent[k];
    assert Broken(t, s, k) && Placed(t, s, k);
    if k in s.stuck {
      SteadyFine(t, s, q);
      if t.fate[k] == Fine { ClosedKids(t, s, q, k); }
    }
  }

  // ----- Something can always be done -----

  /** The last node that is still waiting, among those that the user's process waits for. */
  lemma LastFinished(t: Tree, s: State) returns (m: nat)
    requires WellSized(t, s) && s.status[0] == Finished
    ensures m < |t.parent| && s.status[m] == Finished && FineTo(t, m)
    ensures forall j | m < j < |t.parent| :: !(s.status[j] == Finished && FineTo(t, j))
  {
    m := |t.parent| - 1;
    while !(s.status[m] == Finished && FineTo(t, m))
      invariant m < |t.parent|
      invariant forall j | m < j < |t.parent| :: !(s.status[j] == Finished && FineTo(t, j))
      decreases m
    {
      m := m - 1;
    }
  }

  /** If no request is lost and no slave is held, then until the user's process has returned some step is
      possible that is bound to be made some time; and it need not dial below anything that went wrong. */
  lemma NeverStuck(t: Tree, s: State) returns (a: Act)
    requires Inv(t, s) && NoneLost(t) && Unhindered(t, s) && s.status[0] != Closed
    ensures Enabled(t, s, a) && !a.Cut?
    ensures (a.Dial? ==> FineTo(t, t.parent[a.j])) && (a.Crash? ==> a.asked)
  {
    assert Placed(t, s, 0);
    if j :| 0 <= j < |t.parent| && (s.status[j] == Running || s.status[j] == Loose) {
      assert Placed(t, s, j);
      a := if s.status[j] == Loose || t.fate[j] == Fine then Finish(j)
           else if t.fate[j] == NoStart then Crash(j, true) else Quit(j);
    } else {
      var m := LastFinished(t, s);
      assert Placed(t, s, m);
      if j :| j in t.Kids(m) && s.status[j] == Idle {
        a := Dial(j);
      } else if s.numWorkers[m] == 0 {
        a := Close(m);
      } else {
        var j := Untaken(t, s, m);
        a := KidMoves(t, s, m, j);
      }
    }
  }

  lemma Untaken(t: Tree, s: State, i: nat) returns (j: nat)
    requires Inv(t, s) && i < |t.parent| && Begun(s.status[i]) && s.numWorkers[i] > 0
    ensures j in t.Kids(i) && s.status[j] != Reaped && j !in s.lost
    ensures i == 0 ==> t.fate[j] != NoDial
  {
    assert Balanced(t, s, i);
    var all := if i == 0 then SentKids(t, s) else t.Kids(i);
    if all <= TakenKids(t, s, i) {
      CardMono(all, TakenKids(t, s, i));
      assert false;
    }
    j :| j in all && j !in TakenKids(t, s, i);
  }

  /** A slave that the last waiting node waits for. */
  lemma KidMoves(t: Tree, s: State, m: nat, j: nat) returns (a: Act)
    requires Inv(t, s) && NoneLost(t) && Unhindered(t, s) && m < |t.parent| && FineTo(t, m)
    requires s.status[m] == Finished && forall k | m < k < |t.parent| :: !(s.status[k] == Finished && FineTo(t, k))
    requires forall k | 0 <= k < |t.parent| :: s.status[k] != Running && s.status[k] != Loose
    requires j in t.Kids(m) && s.status[j] != Reaped && j !in s.lost && (m == 0 ==> t.fate[j] != NoDial)
    requires AllTried(t, s, m) && s.numWorkers[m] > 0
    ensures Enabled(t, s, a) && (a.Reap? || a.Start?)
  {
    assert Placed(t, s, j);
    if s.status[j] == Closed {
      a := Reap(j);
    } else {
      assert s.status[j] == Requested;
      forall k | 0 <= k < |t.parent| && k != j && t.host[k] == t.host[j] ensures !Active(s.status[k]) && k !in s.stuck {
        if s.status[k] == Finished { OneAbove(t, s, m, j, k); }
      }
      a := Start(j);
    }
  }

  /** An open connection on the host of a waiting node's slave belongs to that same node. */
  lemma OneAbove(t: Tree, s: State, m: nat, j: nat, k: nat)
    requires Inv(t, s) && m < |t.parent| && Active(s.status[m]) && j in t.Kids(m)
    requires 0 < k < |t.parent| && t.host[k] == t.host[j] && Active(s.status[k]) && FineTo(t, k)
    ensures k in t.Kids(m)
  {
    assert Placed(t, s, k);
    var p := t.parent[k];
    if Gone(s.status[p]) { ClosedKids(t, s, p, k); }
    assert Active(s.status[p]) && t.host[p] == t.host[m];
  }

  // ----- Maximal runs -----

  /** A run that can only go on by some output getting lost, which need not happen. */
  ghost predicate Maximal(t: Tree, acts: seq<Act>)
    requires t.Valid()
  {
    Run(t, Initial(t), acts) && forall a | Enabled(t, After(t, Initial(t), acts), a) :: a.Cut?
  }

  ghost predicate Returned(t: Tree, acts: seq<Act>)
    requires t.Valid() && Run(t, Initial(t), acts)
  {
    After(t, Initial(t), acts).status[0] == Closed
  }

  /** Every run can be continued to a maximal one. */
  lemma {:induction false} Extend(t: Tree, acts: seq<Act>) returns (more: seq<Act>)
    requires t.Valid() && Run(t, Initial(t), acts)
    ensures Maximal(t, more) && acts <= more
    decreases 7 * |t.parent| - |acts|
  {
    var s := After(t, Initial(t), acts);
    RunsEnd(t, Initial(t), acts);
    if a :| Enabled(t, s, a) && !a.Cut? {
      RunMore(t, Initial(t), acts, a);
      RunsEnd(t, Initial(t), acts + [a]);
      more := Extend(t, acts + [a]);
    } else {
      more := acts;
    }
  }

  /** Once the user's process has returned, whatever it waited for is done. */
  lemma {:induction false} AllDone(t: Tree, s: State, j: nat)
    requires Inv(t, s) && s.status[0] == Closed && 0 < j < |t.parent| && FineTo(t, t.parent[j])
    ensures s.status[j] == Reaped || (t.parent[j] == 0 && t.fate[j] == NoDial)
    decreases j
  {
    var p := t.parent[j];
    if p > 0 { AllDone(t, s, p); }
    ClosedKids(t, s, p, j);
  }

  /** If a request is lost, no run at all ends with the user's process having returned. */
  lemma LostNeverReturns(t: Tree, acts: seq<Act>)
    requires t.Valid() && Run(t, Initial(t), acts) && !NoneLost(t)
    ensures !Returned(t, acts)
  {
    Reachable(t, acts);
    var j := LostOne(t);
    hide NoneLost, FineTo, Run, After;
    var s := After(t, Initial(t), acts);
    assert Placed(t, s, j);
    if s.status[0] == Closed { AllDone(t, s, j); }
  }

  lemma LostOne(t: Tree) returns (j: nat)
    requires t.Valid() && !NoneLost(t)
    ensures 0 < j < |t.parent| && FineTo(t, t.parent[j])
    ensures if t.parent[j] == 0 then t.fate[j] == NoDialBack else !Starts(t.fate[j])
  {
    j :| 0 < j < |t.parent| && FineTo(t, t.parent[j]) &&
         !(if t.parent[j] == 0 then t.fate[j] != NoDialBack else Starts(t.fate[j]));
  }

  /** If none is lost and no slave is held, a run that can go no further has ended with the user's process
      having returned, and every slave that it waited for done. */
  lemma MaximalRunsComplete(t: Tree, acts: seq<Act>)
    requires t.Valid() && NoneLost(t) && Unblocked(t) && Maximal(t, acts)
    ensures Returned(t, acts)
    ensures forall j | 0 < j < |t.parent| && FineTo(t, t.parent[j]) && t.fate[j] != NoDial ::
              After(t, Initial(t), acts).status[j] == Reaped
  {
    Reachable(t, acts);
    var s := After(t, Initial(t), acts);
    if s.status[0] != Closed {
      NeverHindered(t, s);
      var a := NeverStuck(t, s);
      assert false;
    }
    forall j | 0 < j < |t.parent| && FineTo(t, t.parent[j]) && t.fate[j] != NoDial ensures s.status[j] == Reaped {
      AllDone(t, s, j);
    }
  }

  /** Where no slave is held, every maximal run ends with the user's process having returned if and only if
      no request that it waits for is lost. */
  lemma ReturnsIffNoneLost(t: Tree)
    requires t.Valid() && Unblocked(t)
    ensures NoneLost(t) <==> forall acts | Maximal(t, acts) :: Returned(t, acts)
  {
    if NoneLost(t) {
      forall acts | Maximal(t, acts) ensures Returned(t, acts) { MaximalRunsComplete(t, acts); }
    } else {
      var acts := Extend(t, []);
      LostNeverReturns(t, acts);
    }
  }

  // ----- Some run -----

  /** A node with a bad range is the only request for its slave. */
  ghost predicate BadAlone(t: Tree)
    requires t.Valid()
  {
    forall j, k | 0 < j < |t.parent| && 0 < k < |t.parent| && j != k && t.host[j] == t.host[k] ::
      t.fate[k] != BadRange
  }

  /** Nothing has been dialed below a program that cannot be started. */
  ghost predicate Tidy(t: Tree, s: State)
    requires WellSized(t, s)
  {
    && s.lost == {} && (forall k | k in s.stuck :: t.fate[k] == BadRange)
    && forall k | 0 < k < |t.parent| && s.status[k] != Idle :: FineTo(t, t.parent[k])
  }

  lemma TidyUnhindered(t: Tree, s: State)
    requires Inv(t, s) && Tidy(t, s) && BadAlone(t)
    ensures Unhindered(t, s)
  {
    forall k | 0 < k < |t.parent| && s.status[k] == Finished ensures FineTo(t, k) { assert Placed(t, s, k); }
  }

  lemma StaysTidy(t: Tree, s: State, a: Act)
    requires Inv(t, s) && NoneLost(t) && Tidy(t, s) && Enabled(t, s, a) && !a.Cut?
    requires (a.Dial? ==> FineTo(t, t.parent[a.j])) && (a.Crash? ==> a.asked)
    ensures Tidy(t, Next(t, s, a))
  {
    if a.Start? { StartWell(t, s, a.j); }
    hide HostFree, AllTried, Inv, FineTo, Waits, NoneLost;
  }

  lemma StartWell(t: Tree, s: State, j: nat)
    requires Inv(t, s) && NoneLost(t) && Tidy(t, s) && 0 < j < |t.parent| && s.status[j] == Requested
    ensures t.fate[j] != NoDialBack && Active(s.status[t.parent[j]])
  {
    var p := t.parent[j];
    assert Placed(t, s, j) && FineTo(t, p);
    if !Active(s.status[p]) { ClosedKids(t, s, p, j); }
  }

  lemma {:induction false} ReturnRun(t: Tree, acts: seq<Act>) returns (more: seq<Act>)
    requires t.Valid() && NoneLost(t) && BadAlone(t)
    requires Run(t, Initial(t), acts) && Tidy(t, After(t, Initial(t), acts))
    ensures Run(t, Initial(t), more) && Returned(t, more)
    decreases 7 * |t.parent| - |acts|
  {
    hide Enabled, Next, NoneLost, BadAlone, Tidy, Unhindered, Inv, Run;
    var s := After(t, Initial(t), acts);
    Reachable(t, acts);
    if s.status[0] == Closed {
      more := acts;
    } else {
      TidyUnhindered(t, s);
      var a := NeverStuck(t, s);
      StaysTidy(t, s, a);
      RunMore(t, Initial(t), acts, a);
      RunsEnd(t, Initial(t), acts + [a]);
      more := ReturnRun(t, acts + [a]);
    }
  }

  /** Some run ends with the user's process having returned if and only if no request that it waits for is
      lost. */
  lemma MayReturnIffNoneLost(t: Tree)
    requires t.Valid() && BadAlone(t)
    ensures NoneLost(t) <==> exists acts :: Run(t, Initial(t), acts) && Returned(t, acts)
  {
    if NoneLost(t) {
      assert Tidy(t, Initial(t));
      var acts := ReturnRun(t, []);
    } else {
      forall acts | Run(t, Initial(t), acts) ensures !Returned(t, acts) { LostNeverReturns(t, acts); }
    }
  }
}
