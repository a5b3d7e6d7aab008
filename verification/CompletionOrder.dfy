/** What comes before what in every run of the completion protocol, stated on the steps alone. */
module CompletionOrder {
  import opened Completion
  import opened Orphans
  import opened Returning

  lemma {:induction false} LastStep(t: Tree, s: State, acts: seq<Act>)
    requires WellSized(t, s) && Run(t, s, acts) && acts != []
    ensures var before, a := acts[..|acts| - 1], acts[|acts| - 1];
            && Run(t, s, before) && Enabled(t, After(t, s, before), a)
            && After(t, s, acts) == Next(t, After(t, s, before), a)
    decreases |acts|
  {
    hide Enabled, Next;
    var before := acts[..|acts| - 1];
    if |acts| == 1 {
      assert before == [] && acts[1..] == [];
    } else {
      var rest := acts[1..];
      LastStep(t, Next(t, s, acts[0]), rest);
      assert rest[..|rest| - 1] == before[1..] && before[0] == acts[0];
    }
  }

  /** The state in which the k-th step is made. */
  lemma {:induction false} StepAt(t: Tree, acts: seq<Act>, k: nat)
    requires t.Valid() && Run(t, Initial(t), acts) && k < |acts|
    ensures Run(t, Initial(t), acts[..k]) && Enabled(t, After(t, Initial(t), acts[..k]), acts[k])
    ensures Inv(t, After(t, Initial(t), acts[..k]))
    decreases |acts|
  {
    hide Enabled, Next, Run, After, Initial;
    var before := acts[..|acts| - 1];
    LastStep(t, Initial(t), acts);
    if k == |acts| - 1 {
      Reachable(t, before);
    } else {
      StepAt(t, before, k);
      assert before[..k] == acts[..k];
    }
  }

  /** Where a node stands says which steps have been made. */
  ghost predicate Recorded(t: Tree, s: State, acts: seq<Act>, j: nat)
    requires WellSized(t, s) && j < |t.parent|
  {
    && (j > 0 && s.status[j] != Idle ==> Dial(j) in acts)
    && (j > 0 && Begun(s.status[j]) ==> Start(j) in acts)
    && (j > 0 && (s.status[j] == Finished || (Shut(s.status[j]) && t.fate[j] != NoStart)) ==> Finish(j) in acts)
    && (s.status[j] == Reaped ==> Reap(j) in acts)
    && (j in s.lost ==> Cut(j) in acts)
    && (Gone(s.status[j]) ==> HasEnded(acts, j))
  }

  /** The process of `j` has ended: as it should, or too early. */
  predicate HasEnded(acts: seq<Act>, j: nat) {
    Close(j) in acts || Quit(j) in acts || Crash(j, true) in acts || Crash(j, false) in acts
  }

  /** And the other way round. */
  ghost predicate Marked(t: Tree, s: State, acts: seq<Act>, j: nat)
    requires WellSized(t, s) && j < |t.parent|
  {
    && (Dial(j) in acts ==> s.status[j] != Idle)
    && (Start(j) in acts ==> s.status[j] != Idle && s.status[j] != Requested)
    && (Finish(j) in acts ==> s.status[j] == Finished || Shut(s.status[j]))
    && (Quit(j) in acts ==> Gone(s.status[j]))
    && (Close(j) in acts || Crash(j, true) in acts || Crash(j, false) in acts ==> Shut(s.status[j]))
    && (Reap(j) in acts ==> s.status[j] == Reaped)
    && (Cut(j) in acts ==> j in s.lost)
  }

  lemma {:induction false} AllRecorded(t: Tree, acts: seq<Act>, j: nat)
    requires t.Valid() && Run(t, Initial(t), acts) && j < |t.parent|
    ensures Recorded(t, After(t, Initial(t), acts), acts, j) && Marked(t, After(t, Initial(t), acts), acts, j)
    decreases |acts|
  {
    hide *;
    NothingRecorded(t, j);
    if acts != [] {
      var before, a := acts[..|acts| - 1], acts[|acts| - 1];
      LastStep(t, Initial(t), acts);
      AllRecorded(t, before, j);
      assert acts == before + [a];
      RecordedOn(t, After(t, Initial(t), before), before, a, j);
      MarkedOn(t, After(t, Initial(t), before), before, a, j);
    }
  }

  lemma NothingRecorded(t: Tree, j: nat)
    requires t.Valid() && j < |t.parent|
    ensures Run(t, Initial(t), []) && After(t, Initial(t), []) == Initial(t)
    ensures Recorded(t, Initial(t), [], j) && Marked(t, Initial(t), [], j)
  {}

  lemma RecordedOn(t: Tree, s: State, acts: seq<Act>, a: Act, j: nat)
    requires WellSized(t, s) && Enabled(t, s, a) && j < |t.parent| && Recorded(t, s, acts, j)
    ensures Recorded(t, Next(t, s, a), acts + [a], j)
  {
    OneMoves(t, s, a);
    OneLost(t, s, a);
    assert forall x | x in acts :: x in acts + [a];
    assert a in acts + [a];
    if a.j == j { Names(t, s, a); }
    hide Enabled, Next;
  }

  lemma MarkedOn(t: Tree, s: State, acts: seq<Act>, a: Act, j: nat)
    requires WellSized(t, s) && Enabled(t, s, a) && j < |t.parent| && Marked(t, s, acts, j)
    ensures Marked(t, Next(t, s, a), acts + [a], j)
  {
    OneMoves(t, s, a);
    OneLost(t, s, a);
    assert forall x | x in acts + [a] :: x in acts || x == a;
    if a.j == j { Effects(t, s, a); }
    hide Enabled, Next;
  }

  /** What each step does to its node. */
  lemma Effects(t: Tree, s: State, a: Act)
    requires WellSized(t, s) && Enabled(t, s, a)
    ensures var y := Next(t, s, a).status[a.j];
            match a
            case Dial(_) => y != Idle
            case Start(_) => y != Idle && y != Requested
            case Finish(_) => y == Finished || Shut(y)
            case Quit(_) => Gone(y)
            case Close(_) => Shut(y)
            case Crash(_, _) => Shut(y)
            case Reap(_) => y == Reaped
            case Cut(_) => true
  {
    hide HostFree, AllTried, Torn, Waits;
  }

  /** No step is made twice. */
  lemma NoStepTwice(t: Tree, acts: seq<Act>, i: nat, k: nat)
    requires t.Valid() && Run(t, Initial(t), acts) && i < k < |acts|
    ensures acts[i] != acts[k]
  {
    StepAt(t, acts, k);
    var s, a := After(t, Initial(t), acts[..k]), acts[k];
    assert acts[i] == acts[..k][i];
    if acts[i] == a {
      AllRecorded(t, acts[..k], a.j);
      Before(t, s, a);
      assert false;
    }
  }

  lemma Before(t: Tree, s: State, a: Act)
    requires WellSized(t, s) && Enabled(t, s, a)
    ensures var x := s.status[a.j];
            match a
            case Dial(_) => x == Idle
            case Start(_) => x == Requested
            case Finish(_) => x == Running || x == Loose
            case Quit(_) => Active(x)
            case Close(_) => x == Finished
            case Crash(_, asked) => x == Running
            case Reap(_) => x == Closed
            case Cut(_) => a.j !in s.lost
  {
    hide HostFree, AllTried, Torn, Waits;
  }

  /** A process that has ended sends no request and takes no token, and one that had not asked for its slaves
      has sent none. */
  lemma EndedIsSilent(t: Tree, acts: seq<Act>, k: nat, c: nat)
    requires t.Valid() && Run(t, Initial(t), acts) && k < |acts| && 0 < c < |t.parent|
    ensures acts[k] == Dial(c) || acts[k] == Reap(c) || acts[k] == Cut(c) ==> !HasEnded(acts[..k], t.parent[c])
    ensures acts[k] == Crash(t.parent[c], false) ==> Dial(c) !in acts[..k]
  {
    StepAt(t, acts, k);
    var s := After(t, Initial(t), acts[..k]);
    AllRecorded(t, acts[..k], t.parent[c]);
    AllRecorded(t, acts[..k], c);
    hide Run, After, Initial;
  }

  /** A token is lost only after the process two levels up has ended, and a process gives up only when it lost a
      token or was handed a bad range. */
  lemma BreaksInOrder(t: Tree, acts: seq<Act>, k: nat, j: nat)
    requires t.Valid() && Run(t, Initial(t), acts) && k < |acts|
    ensures acts[k] == Cut(j) ==>
              0 < j < |t.parent| && 0 < t.parent[j] < |t.parent| && HasEnded(acts[..k], t.parent[t.parent[j]])
    ensures acts[k] == Quit(j) ==>
              j < |t.parent| && (t.fate[j] == BadRange || exists c :: c in t.Kids(j) && Cut(c) in acts[..k])
    ensures forall asked | acts[k] == Crash(j, asked) :: j < |t.parent| && t.fate[j] == NoStart
  {
    hide Next, Run, After, Initial, Balanced, Placed, Ended, Broken, OneEach, Marked, HasEnded;
    StepAt(t, acts, k);
    var s := After(t, Initial(t), acts[..k]);
    if acts[k] == Cut(j) { AllRecorded(t, acts[..k], t.parent[t.parent[j]]); }
    if acts[k] == Quit(j) && t.fate[j] != BadRange {
      var c :| c in s.lost && c in t.Kids(j);
      AllRecorded(t, acts[..k], c);
    }
  }

  /** Which step makes which move. */
  lemma Names(t: Tree, s: State, a: Act)
    requires WellSized(t, s) && Enabled(t, s, a)
    ensures var x, y := s.status[a.j], Next(t, s, a).status[a.j];
            && (x == Idle && y != Idle ==> a == Dial(a.j))
            && (!Begun(x) && Begun(y) ==> a == Start(a.j))
            && (x == Running && y == Finished ==> a == Finish(a.j))
            && (x == Loose && y == Closed ==> a == Finish(a.j))
            && (x == Running && y == Closed ==> t.fate[a.j] == NoStart)
            && (x != Reaped && y == Reaped ==> a == Reap(a.j))
            && (!Gone(x) && Gone(y) ==>
                  a == Close(a.j) || a == Quit(a.j) || a == Crash(a.j, true) || a == Crash(a.j, false))
            && (a.Cut? ==> a == Cut(a.j))
  {
    hide HostFree, AllTried, Torn, Waits;
  }

  /** A request is sent before it is taken, and by a node that has been started. */
  lemma StartsInOrder(t: Tree, acts: seq<Act>, k: nat, j: nat)
    requires t.Valid() && Run(t, Initial(t), acts) && k < |acts| && (acts[k] == Start(j) || acts[k] == Dial(j))
    ensures 0 < j < |t.parent|
    ensures acts[k] == Start(j) ==> Dial(j) in acts[..k]
    ensures t.parent[j] > 0 ==> Start(t.parent[j]) in acts[..k]
  {
    StepAt(t, acts, k);
    var s := After(t, Initial(t), acts[..k]);
    AllRecorded(t, acts[..k], j);
    AllRecorded(t, acts[..k], t.parent[j]);
    assert Placed(t, s, j);
    hide Run, After, Initial;
  }

  /** A slave closes its connection after its own program has ended and after it has taken a token for every
      slave it handed the request to. */
  lemma ClosesLast(t: Tree, acts: seq<Act>, k: nat, j: nat)
    requires t.Valid() && Run(t, Initial(t), acts) && k < |acts| && acts[k] == Close(j) && j > 0
    ensures j < |t.parent| && Finish(j) in acts[..k]
    ensures forall c | c in t.Kids(j) :: Reap(c) in acts[..k] || Cut(c) in acts[..k]
  {
    StepAt(t, acts, k);
    var s := After(t, Initial(t), acts[..k]);
    AllRecorded(t, acts[..k], j);
    assert Balanced(t, s, j);
    FullCount(TakenKids(t, s, j), t.Kids(j));
    forall c | c in t.Kids(j) ensures Reap(c) in acts[..k] || Cut(c) in acts[..k] {
      AllRecorded(t, acts[..k], c);
      assert c in TakenKids(t, s, j);
    }
  }

  /** A token is taken for a slave whose program has ended, unless that could not be started. */
  lemma ReapsLast(t: Tree, acts: seq<Act>, k: nat, j: nat)
    requires t.Valid() && Run(t, Initial(t), acts) && k < |acts| && acts[k] == Reap(j)
    ensures 0 < j < |t.parent| && Start(j) in acts[..k] && (t.fate[j] != NoStart ==> Finish(j) in acts[..k])
  {
    StepAt(t, acts, k);
    AllRecorded(t, acts[..k], j);
  }

  /** The user's process returns after the end of every program that was started with nothing wrong above it. */
  lemma ReturnsLast(t: Tree, acts: seq<Act>, k: nat, j: nat)
    requires t.Valid() && Run(t, Initial(t), acts) && k < |acts| && acts[k] == Close(0)
    requires 0 < j < |t.parent| && FineTo(t, j)
    ensures Finish(j) in acts[..k]
  {
    StepAt(t, acts, k);
    var s := After(t, Initial(t), acts[..k]);
    AllRecorded(t, acts[..k], j);
    StepKeepsInv(t, s, Close(0));
    AllDone(t, Next(t, s, Close(0)), j);
    assert Next(t, s, Close(0)).status[j] == s.status[j];
  }
}
