/** The completion protocol: who waits for whom before closing a connection, under every interleaving
    of the processes of a delegation tree. */
module Completion {

  /** What becomes of a node's request: it gets through, it cannot be dialed, the node cannot dial back to
      the I/O proxy above it, or it does but its program cannot be started, or the rest of its node list
      holds a bad range. */
  datatype Fate = Fine | NoDial | NoDialBack | NoStart | BadRange

  /** A slave is named by the ids on the way down to it. */
  type Host = seq<string>

  /** The delegation tree.  Node 0 is the process the user started, together with the master that dials
      for it; every other node comes after the node that delegates to it.  A slave that is named twice is
      two nodes on one host; its requests then come from requests on one host. */
  datatype Tree = Tree(parent: seq<nat>, fate: seq<Fate>, host: seq<Host>) {
    ghost predicate Valid() {
      && |parent| == |fate| == |host| > 0 && fate[0] == Fine
      && (forall i | 0 < i < |parent| :: parent[i] < i && host[i] != host[0])
      && (forall i, j | 0 < i < |parent| && 0 < j < |parent| && host[i] == host[j] ::
            host[parent[i]] == host[parent[j]])
    }

    ghost function Kids(i: nat): set<nat> {
      set j | 0 < j < |parent| && parent[j] == i
    }
  }

  /** The life of a node.  Finished: its program has ended, but it may still be waiting for others.
      Loose: its process has ended, while its program may still hold the connection upwards.  Closed: that
      connection is closed.  Reaped: the node above has taken the proxy's token. */
  datatype Status = Idle | Unreachable | Requested | Running | Finished | Loose | Closed | Reaped

  /** `lost` has the nodes whose token was issued because their output could not be passed on; `stuck` has
      the nodes whose slave waits for ever for a process that ended without asking for its slaves. */
  datatype State = State(status: seq<Status>, numWorkers: seq<nat>, lost: set<nat>, stuck: set<nat>)

  datatype Act =
    | Dial(j: nat)    // the node above tries to send it the request
    | Start(j: nat)   // it receives the request, dials back and starts the program
    | Finish(j: nat)  // the program ends
    | Crash(j: nat, asked: bool) // the program could not be started, which ends the whole process
    | Close(j: nat)   // nobody to wait for: close the connection upwards; for node 0, return
    | Reap(j: nat)    // the node above reads one token off its worker channel
    | Cut(j: nat)     // likewise, but the token stands for output that the node above could not pass on
    | Quit(j: nat)    // the process ends for that reason, or for a bad range

  function Initial(t: Tree): (s: State)
    requires t.Valid()
    ensures WellSized(t, s)
  {
    State(seq(|t.parent|, i => if i == 0 then Finished else Idle), seq(|t.parent|, i => 0), {}, {})
  }

  /** The process that serves the request is there. */
  predicate Active(x: Status) {
    x == Running || x == Finished
  }

  predicate Begun(x: Status) {
    x == Running || x == Finished || x == Loose || x == Closed || x == Reaped
  }

  /** It was there, and has ended. */
  predicate Gone(x: Status) {
    Begun(x) && !Active(x)
  }

  predicate Shut(x: Status) {
    x == Closed || x == Reaped
  }

  /** Its connection upwards is open. */
  predicate Open(x: Status) {
    Begun(x) && !Shut(x)
  }

  predicate Starts(f: Fate) {
    f == Fine || f == NoStart || f == BadRange
  }

  /** All requests below `i` have been sent, or have failed. */
  ghost predicate AllTried(t: Tree, s: State, i: nat)
    requires |s.status| == |t.parent|
  {
    forall j | j in t.Kids(i) :: s.status[j] != Idle
  }

  /** Node `i` waits at its worker channel. */
  ghost predicate Waits(t: Tree, s: State, i: nat)
    requires WellSized(t, s) && i < |t.parent|
  {
    Active(s.status[i]) && AllTried(t, s, i) && s.numWorkers[i] > 0
  }

  /** A slave takes its requests one at a time. */
  ghost predicate HostFree(t: Tree, s: State, j: nat)
    requires WellSized(t, s) && j < |t.parent|
  {
    forall k | 0 <= k < |t.parent| && k != j && t.host[k] == t.host[j] :: !Active(s.status[k]) && k !in s.stuck
  }

  ghost predicate WellSized(t: Tree, s: State) {
    && t.Valid() && |s.status| == |s.numWorkers| == |t.parent|
    && (forall k | k in s.lost :: k < |t.parent|) && (forall k | k in s.stuck :: k < |t.parent|)
  }

  /** Some output of a node below `j` could not be passed on. */
  ghost predicate Torn(t: Tree, s: State, j: nat) {
    exists k :: k in s.lost && k in t.Kids(j)
  }

  ghost predicate Enabled(t: Tree, s: State, a: Act)
    requires WellSized(t, s)
  {
    && a.j < |t.parent|
    && match a
       case Dial(j) =>
         && j > 0 && s.status[j] == Idle && Active(s.status[t.parent[j]]) && t.fate[t.parent[j]] != BadRange
       case Start(j) => j > 0 && s.status[j] == Requested && HostFree(t, s, j)
       case Finish(j) => (s.status[j] == Running && t.fate[j] == Fine) || s.status[j] == Loose
       case Crash(j, asked) =>
         s.status[j] == Running && t.fate[j] == NoStart && (asked || forall k | k in t.Kids(j) :: s.status[k] == Idle)
       case Close(j) => s.status[j] == Finished && AllTried(t, s, j) && s.numWorkers[j] == 0
       case Reap(j) => j > 0 && s.status[j] == Closed && j !in s.lost && Waits(t, s, t.parent[j])
       case Cut(j) =>
         && j > 0 && (Open(s.status[j]) || s.status[j] == Closed) && j !in s.lost && Waits(t, s, t.parent[j])
         && t.parent[j] > 0 && Gone(s.status[t.parent[t.parent[j]]])
       case Quit(j) =>
         Active(s.status[j]) && (t.fate[j] == BadRange || (t.fate[j] == Fine && Torn(t, s, j)))
  }

  /** A slave counts its workers before it sends anything; node 0 is told how many sends succeeded. */
  ghost function Next(t: Tree, s: State, a: Act): (s': State)
    requires WellSized(t, s) && Enabled(t, s, a)
    ensures WellSized(t, s')
  {
    match a
    case Dial(j) =>
      if t.fate[j] == NoDial then s.(status := s.status[j := Unreachable])
      else s.(status := s.status[j := Requested],
              numWorkers := if t.parent[j] == 0 then s.numWorkers[0 := s.numWorkers[0] + 1] else s.numWorkers)
    case Start(j) =>
      if t.fate[j] == NoDialBack || !Active(s.status[t.parent[j]]) then
        s.(status := s.status[j := Unreachable], stuck := s.stuck + {j})
      else s.(status := s.status[j := Running], numWorkers := s.numWorkers[j := |t.Kids(j)|])
    case Finish(j) => s.(status := s.status[j := if s.status[j] == Loose then Closed else Finished])
    case Crash(j, asked) => s.(status := s.status[j := Closed], stuck := if asked then s.stuck else s.stuck + {j})
    case Close(j) => s.(status := s.status[j := Closed])
    case Reap(j) =>
      s.(status := s.status[j := Reaped], numWorkers := s.numWorkers[t.parent[j] := s.numWorkers[t.parent[j]] - 1])
    case Cut(j) =>
      s.(lost := s.lost + {j}, numWorkers := s.numWorkers[t.parent[j] := s.numWorkers[t.parent[j]] - 1])
    case Quit(j) =>
      s.(status := s.status[j := if s.status[j] == Running then Loose else Closed],
         stuck := if t.fate[j] == BadRange then s.stuck + {j} else s.stuck)
  }

  // ----- What every step keeps -----

  /** The kids of `i` whose tokens have been taken. */
  ghost function TakenKids(t: Tree, s: State, i: nat): set<nat>
    requires |s.status| == |t.parent|
  {
    set j | j in t.Kids(i) && (s.status[j] == Reaped || j in s.lost)
  }

  /** The kids of node 0 whose request went out. */
  ghost function SentKids(t: Tree, s: State): set<nat>
    requires |s.status| == |t.parent| == |t.fate|
  {
    set j | j in t.Kids(0) && s.status[j] != Idle && t.fate[j] != NoDial
  }

  /** The books of node `i`: the tokens still expected and those taken add up. */
  ghost predicate Balanced(t: Tree, s: State, i: nat)
    requires WellSized(t, s) && i < |t.parent|
  {
    && (i > 0 && Begun(s.status[i]) ==> s.numWorkers[i] + |TakenKids(t, s, i)| == |t.Kids(i)|)
    && (i == 0 ==> s.numWorkers[0] + |TakenKids(t, s, 0)| == |SentKids(t, s)|)
  }

  ghost predicate Placed(t: Tree, s: State, j: nat)
    requires WellSized(t, s) && j < |t.parent|
  {
    && (j == 0 ==> s.status[0] == Finished || s.status[0] == Closed)
    && (j > 0 && s.status[j] != Idle ==> Begun(s.status[t.parent[j]]) && t.fate[t.parent[j]] != BadRange)
    && (s.status[j] == Requested ==> t.fate[j] != NoDial)
    && (Begun(s.status[j]) ==> Starts(t.fate[j]))
    && (s.status[j] == Finished ==> t.fate[j] == Fine)
    && (s.status[j] == Unreachable ==> !Starts(t.fate[j]) || (j > 0 && Gone(s.status[t.parent[j]])))
  }

  /** How a node ended whose program could be started. */
  ghost predicate Ended(t: Tree, s: State, j: nat)
    requires WellSized(t, s) && j < |t.parent|
  {
    && (s.status[j] == Loose ==> t.fate[j] == BadRange || Torn(t, s, j))
    && (Shut(s.status[j]) && t.fate[j] == Fine ==> Torn(t, s, j) || (AllTried(t, s, j) && s.numWorkers[j] == 0))
  }

  /** Tokens are lost only where the process two levels up has ended. */
  ghost predicate LostWell(t: Tree, s: State, j: nat)
    requires WellSized(t, s) && j < |t.parent|
  {
    j in s.lost ==>
      && j > 0 && Begun(s.status[j]) && s.status[j] != Reaped
      && t.parent[j] > 0 && s.status[t.parent[j]] != Reaped && Gone(s.status[t.parent[t.parent[j]]])
  }

  /** Slaves get stuck only over requests that something is wrong with. */
  ghost predicate StuckWell(t: Tree, s: State, j: nat)
    requires WellSized(t, s) && j < |t.parent|
  {
    j in s.stuck ==>
      && j > 0 && t.fate[j] != NoDial && s.status[j] != Idle
      && (t.fate[j] == Fine ==> s.status[j] == Unreachable && Gone(s.status[t.parent[j]]))
  }

  ghost predicate Broken(t: Tree, s: State, j: nat)
    requires WellSized(t, s) && j < |t.parent|
  {
    LostWell(t, s, j) && StuckWell(t, s, j)
  }

  /** No host serves two requests. */
  ghost predicate OneEach(t: Tree, s: State)
    requires WellSized(t, s)
  {
    forall i, j | 0 <= i < j < |t.parent| && t.host[i] == t.host[j] :: !(Active(s.status[i]) && Active(s.status[j]))
  }

  ghost predicate Inv(t: Tree, s: State) {
    && WellSized(t, s)
    && (forall i | 0 <= i < |t.parent| :: Balanced(t, s, i))
    && (forall j | 0 <= j < |t.parent| :: Placed(t, s, j))
    && (forall j | 0 <= j < |t.parent| :: Ended(t, s, j))
    && (forall j | 0 <= j < |t.parent| :: Broken(t, s, j))
    && OneEach(t, s)
  }

  lemma InitialInv(t: Tree)
    requires t.Valid()
    ensures Inv(t, Initial(t))
  {
    var s := Initial(t);
    forall i | 0 <= i < |t.parent| ensures Balanced(t, s, i) {
      assert TakenKids(t, s, i) == {};
      assert SentKids(t, s) == {};
    }
  }

  /** One step in the life of a node. */
  predicate Moves(x: Status, y: Status) {
    match x
    case Idle => y == Requested || y == Unreachable
    case Requested => y == Running || y == Unreachable
    case Running => y == Finished || y == Loose || y == Closed
    case Finished => y == Closed
    case Loose => y == Closed
    case Closed => y == Reaped
    case _ => false
  }

  /** Every step moves one node on, or loses one token. */
  lemma OneMoves(t: Tree, s: State, a: Act)
    requires WellSized(t, s) && Enabled(t, s, a)
    ensures var s' := Next(t, s, a);
            && s'.status == s.status[a.j := s'.status[a.j]]
            && (if a.Cut? then s'.status[a.j] == s.status[a.j] else Moves(s.status[a.j], s'.status[a.j]))
            && (a.Dial? <==> s'.status[a.j] != s.status[a.j] && s.status[a.j] == Idle)
            && (a.Reap? ==> a.j > 0 && Active(s.status[t.parent[a.j]]))
            && (s'.status[a.j] == Reaped && s.status[a.j] != Reaped ==> a.Reap?)
  {
    hide HostFree, AllTried, Torn, Waits;
    if a.Reap? { WaitsActive(t, s, a); }
    if a.Cut? { assert s.status == s.status[a.j := s.status[a.j]]; }
  }

  lemma WaitsActive(t: Tree, s: State, a: Act)
    requires WellSized(t, s) && Enabled(t, s, a) && a.Reap?
    ensures a.j > 0 && Active(s.status[t.parent[a.j]])
  {}

  /** No step goes back. */
  lemma Onward(t: Tree, s: State, a: Act, i: nat)
    requires WellSized(t, s) && Enabled(t, s, a) && i < |t.parent|
    ensures var s' := Next(t, s, a);
            && (Begun(s.status[i]) ==> Begun(s'.status[i])) && (Gone(s.status[i]) ==> Gone(s'.status[i]))
            && (s.status[i] != Idle ==> s'.status[i] != Idle)
            && (i > 0 && Gone(s.status[t.parent[i]]) && s.status[i] != Reaped ==> s'.status[i] != Reaped)
  {
    OneMoves(t, s, a);
    hide Next, Enabled;
  }

  lemma TriedStays(t: Tree, s: State, a: Act, j: nat)
    requires WellSized(t, s) && Enabled(t, s, a) && AllTried(t, s, j)
    ensures AllTried(t, Next(t, s, a), j)
  {
    forall k | k in t.Kids(j) ensures Next(t, s, a).status[k] != Idle { Onward(t, s, a, k); }
  }

  lemma PlacedKept(t: Tree, s: State, a: Act, j: nat)
    requires Inv(t, s) && Enabled(t, s, a) && j < |t.parent|
    ensures Placed(t, Next(t, s, a), j)
  {
    assert Placed(t, s, 0) && Placed(t, s, j);
    if j > 0 { Onward(t, s, a, t.parent[j]); }
    if j == a.j {
      PlacedMoved(t, s, a);
    } else {
      OneMoves(t, s, a);
    }
    hide Enabled, Next, Inv;
  }

  lemma PlacedMoved(t: Tree, s: State, a: Act)
    requires WellSized(t, s) && Enabled(t, s, a) && Placed(t, s, 0) && Placed(t, s, a.j)
    requires var s', p := Next(t, s, a), t.parent[a.j];
             a.j > 0 ==> (Begun(s.status[p]) ==> Begun(s'.status[p])) && (Gone(s.status[p]) ==> Gone(s'.status[p]))
    ensures Placed(t, Next(t, s, a), a.j)
  {
    hide HostFree, AllTried, Torn, Waits;
  }

  lemma EndedKept(t: Tree, s: State, a: Act, j: nat)
    requires Inv(t, s) && Enabled(t, s, a) && j < |t.parent|
    ensures Ended(t, Next(t, s, a), j)
  {
    assert Placed(t, s, j) && Ended(t, s, j);
    if Torn(t, s, j) { TornStays(t, s, a, j); }
    if AllTried(t, s, j) { TriedStays(t, s, a, j); }
    hide HostFree, AllTried, Inv, Torn;
  }

  lemma TornStays(t: Tree, s: State, a: Act, j: nat)
    requires WellSized(t, s) && Enabled(t, s, a) && Torn(t, s, j)
    ensures Torn(t, Next(t, s, a), j)
  {
    hide HostFree, AllTried;
    var k :| k in s.lost && k in t.Kids(j);
    assert k in Next(t, s, a).lost;
  }

  lemma BrokenKept(t: Tree, s: State, a: Act, j: nat)
    requires Inv(t, s) && Enabled(t, s, a) && j < |t.parent|
    ensures Broken(t, Next(t, s, a), j)
  {
    assert Broken(t, s, j);
    hide Enabled, Next, LostWell, StuckWell;
    LostKept(t, s, a, j);
    StuckKept(t, s, a, j);
  }

  lemma LostKept(t: Tree, s: State, a: Act, j: nat)
    requires Inv(t, s) && Enabled(t, s, a) && j < |t.parent| && LostWell(t, s, j)
    ensures LostWell(t, Next(t, s, a), j)
  {
    Onward(t, s, a, j);
    OneLost(t, s, a);
    OneMoves(t, s, a);
    if j > 0 {
      var p := t.parent[j];
      Onward(t, s, a, p);
      if p > 0 { Onward(t, s, a, t.parent[p]); }
    }
    if a == Cut(j) { CutWell(t, s, j); }
    hide Enabled, Next, Inv;
  }

  lemma CutWell(t: Tree, s: State, j: nat)
    requires WellSized(t, s) && Enabled(t, s, Cut(j))
    ensures j > 0 && Begun(s.status[j]) && s.status[j] != Reaped && t.parent[j] > 0 && Active(s.status[t.parent[j]])
    ensures Gone(s.status[t.parent[t.parent[j]]])
  {}

  lemma StuckKept(t: Tree, s: State, a: Act, j: nat)
    requires Inv(t, s) && Enabled(t, s, a) && j < |t.parent| && StuckWell(t, s, j)
    ensures StuckWell(t, Next(t, s, a), j)
  {
    Onward(t, s, a, j);
    OneMoves(t, s, a);
    OneStuck(t, s, a);
    assert Placed(t, s, j);
    if j > 0 { Onward(t, s, a, t.parent[j]); }
    hide Enabled, Next, Inv;
  }

  /** Who gets stuck. */
  lemma OneStuck(t: Tree, s: State, a: Act)
    requires WellSized(t, s) && Enabled(t, s, a)
    ensures var s', j := Next(t, s, a), a.j;
            s'.stuck == s.stuck ||
            (s'.stuck == s.stuck + {j}
             && ((a.Start? && j > 0 && s'.status[j] == Unreachable && s.status[j] == Requested
                  && (t.fate[j] == NoDialBack || !Active(s.status[t.parent[j]])))
                 || ((t.fate[j] == NoStart || t.fate[j] == BadRange) && Active(s.status[j]))))
  {
    hide HostFree, AllTried, Torn, Waits;
  }

  /** Only taking a token changes who has been reaped, and only dialing who has been sent to. */
  lemma SameKids(t: Tree, s: State, a: Act, i: nat)
    requires WellSized(t, s) && Enabled(t, s, a) && i < |t.parent|
    ensures var s' := Next(t, s, a);
            && (!((a.Reap? || a.Cut?) && i == t.parent[a.j]) ==> TakenKids(t, s', i) == TakenKids(t, s, i))
            && (!a.Dial? ==> SentKids(t, s') == SentKids(t, s))
  {
    OneMoves(t, s, a);
    OneLost(t, s, a);
    var s', kids := Next(t, s, a), t.Kids(i);
    hide Next, Enabled, WellSized;
    if !((a.Reap? || a.Cut?) && i == t.parent[a.j]) {
      forall k | k in kids ensures s'.status[k] == Reaped || k in s'.lost <==> s.status[k] == Reaped || k in s.lost {}
    }
  }

  lemma OneLost(t: Tree, s: State, a: Act)
    requires WellSized(t, s) && Enabled(t, s, a)
    ensures Next(t, s, a).lost == if a.Cut? then s.lost + {a.j} else s.lost
    ensures a.Cut? ==> a.j !in s.lost
  {
    hide HostFree, AllTried, Torn, Waits, WellSized;
  }

  lemma BalancedKept(t: Tree, s: State, a: Act, i: nat)
    requires Inv(t, s) && Enabled(t, s, a) && i < |t.parent|
    ensures Balanced(t, Next(t, s, a), i)
  {
    assert Balanced(t, s, i) && Placed(t, s, i);
    SameKids(t, s, a, i);
    match a
    case Reap(_) => TokenBalanced(t, s, a, i);
    case Cut(_) => TokenBalanced(t, s, a, i);
    case Dial(_) => DialBalanced(t, s, a, i);
    case Start(_) => StartBalanced(t, s, a, i);
    case _ => hide Inv, AllTried, HostFree, Torn, TakenKids, SentKids;
  }

  lemma TokenBalanced(t: Tree, s: State, a: Act, i: nat)
    requires WellSized(t, s) && i < |t.parent| && Balanced(t, s, i) && (a.Reap? || a.Cut?) && Enabled(t, s, a)
    ensures Balanced(t, Next(t, s, a), i)
  {
    hide AllTried, SentKids, HostFree, Torn;
    SameKids(t, s, a, i);
    if i == t.parent[a.j] { TokenTaken(t, s, a); }
    hide TakenKids;
  }

  lemma TokenTaken(t: Tree, s: State, a: Act)
    requires WellSized(t, s) && (a.Reap? || a.Cut?) && Enabled(t, s, a)
    ensures var i := t.parent[a.j];
            a.j !in TakenKids(t, s, i) && TakenKids(t, Next(t, s, a), i) == TakenKids(t, s, i) + {a.j}
  {
    OneMoves(t, s, a);
    OneLost(t, s, a);
    hide AllTried, HostFree, Torn, Waits;
  }

  lemma DialBalanced(t: Tree, s: State, a: Act, i: nat)
    requires WellSized(t, s) && i < |t.parent| && Balanced(t, s, i) && a.Dial? && Enabled(t, s, a)
    ensures Balanced(t, Next(t, s, a), i)
  {
    SameKids(t, s, a, i);
    DialSends(t, s, a);
    hide TakenKids, SentKids, AllTried, HostFree, Torn, Waits;
  }

  lemma DialSends(t: Tree, s: State, a: Act)
    requires WellSized(t, s) && a.Dial? && Enabled(t, s, a)
    ensures var sent := t.fate[a.j] != NoDial && t.parent[a.j] == 0;
            && a.j !in SentKids(t, s)
            && SentKids(t, Next(t, s, a)) == if sent then SentKids(t, s) + {a.j} else SentKids(t, s)
  {
    hide AllTried, HostFree, Torn, Waits;
  }

  lemma StartBalanced(t: Tree, s: State, a: Act, i: nat)
    requires Inv(t, s) && a.Start? && Enabled(t, s, a) && i < |t.parent|
    ensures Balanced(t, Next(t, s, a), i)
  {
    assert Balanced(t, s, i) && Placed(t, s, 0);
    SameKids(t, s, a, i);
    if i == a.j { NoneTaken(t, s, i); }
    hide Inv, AllTried, HostFree, SentKids;
  }

  /** Nothing below a node that has not begun has been touched. */
  lemma NoneTaken(t: Tree, s: State, i: nat)
    requires Inv(t, s) && i < |t.parent| && !Begun(s.status[i])
    ensures TakenKids(t, s, i) == {}
  {
    forall j | j in t.Kids(i) ensures s.status[j] != Reaped && j !in s.lost {
      assert Placed(t, s, j) && Broken(t, s, j);
    }
  }

  lemma OneEachKept(t: Tree, s: State, a: Act)
    requires Inv(t, s) && Enabled(t, s, a)
    ensures OneEach(t, Next(t, s, a))
  {
    hide Balanced, Placed, AllTried, Ended, Broken, Torn;
    var s' := Next(t, s, a);
    forall i | 0 <= i < |t.parent| && Active(s'.status[i]) ensures Active(s.status[i]) || (a.Start? && i == a.j) {}
  }

  lemma StepKeepsInv(t: Tree, s: State, a: Act)
    requires Inv(t, s) && Enabled(t, s, a)
    ensures Inv(t, Next(t, s, a))
  {
    OneEachKept(t, s, a);
    forall i | 0 <= i < |t.parent| ensures Balanced(t, Next(t, s, a), i) { BalancedKept(t, s, a, i); }
    forall i | 0 <= i < |t.parent| ensures Placed(t, Next(t, s, a), i) { PlacedKept(t, s, a, i); }
    forall i | 0 <= i < |t.parent| ensures Ended(t, Next(t, s, a), i) { EndedKept(t, s, a, i); }
    forall i | 0 <= i < |t.parent| ensures Broken(t, Next(t, s, a), i) { BrokenKept(t, s, a, i); }
    hide Next, Enabled, Balanced, Placed, Ended, Broken, OneEach;
  }

  // ----- Runs -----

  /** `acts` can be performed one after another from `s`. */
  ghost predicate Run(t: Tree, s: State, acts: seq<Act>)
    requires WellSized(t, s)
    decreases |acts|
  {
    acts != [] ==> Enabled(t, s, acts[0]) && Run(t, Next(t, s, acts[0]), acts[1..])
  }

  ghost function After(t: Tree, s: State, acts: seq<Act>): (s': State)
    requires WellSized(t, s) && Run(t, s, acts)
    ensures WellSized(t, s')
    decreases |acts|
  {
    if acts == [] then s else After(t, Next(t, s, acts[0]), acts[1..])
  }

  lemma {:induction false} RunKeepsInv(t: Tree, s: State, acts: seq<Act>)
    requires Inv(t, s) && Run(t, s, acts)
    ensures Inv(t, After(t, s, acts))
    decreases |acts|
  {
    if acts != [] {
      StepKeepsInv(t, s, acts[0]);
      RunKeepsInv(t, Next(t, s, acts[0]), acts[1..]);
    }
  }

  /** What a whole run from the start leads to. */
  lemma Reachable(t: Tree, acts: seq<Act>)
    requires t.Valid() && Run(t, Initial(t), acts)
    ensures Inv(t, After(t, Initial(t), acts))
  {
    InitialInv(t);
    RunKeepsInv(t, Initial(t), acts);
  }

  lemma {:induction false} RunMore(t: Tree, s: State, acts: seq<Act>, a: Act)
    requires WellSized(t, s) && Run(t, s, acts) && Enabled(t, After(t, s, acts), a)
    ensures Run(t, s, acts + [a]) && After(t, s, acts + [a]) == Next(t, After(t, s, acts), a)
    decreases |acts|
  {
    hide Enabled, Next;
    var more := acts + [a];
    if acts == [] {
      assert more[1..] == [];
      assert After(t, s, more) == After(t, Next(t, s, a), []);
    } else {
      assert more[0] == acts[0] && more[1..] == acts[1..] + [a];
      RunMore(t, Next(t, s, acts[0]), acts[1..], a);
    }
  }

  // ----- Runs end -----

  function Rank(x: Status): nat {
    match x
    case Idle => 0
    case Requested => 1
    case Running => 2
    case Finished => 3
    case Loose => 3
    case Closed => 4
    case Reaped => 5
    case Unreachable => 6
  }

  function Total(xs: seq<Status>): nat {
    if xs == [] then 0 else Rank(xs[0]) + Total(xs[1..])
  }

  lemma {:induction false} TotalChange(xs: seq<Status>, j: nat, x: Status)
    requires j < |xs|
    ensures Total(xs[j := x]) == Total(xs) - Rank(xs[j]) + Rank(x)
  {
    if j == 0 {
      assert xs[0 := x][1..] == xs[1..];
    } else {
      assert xs[j := x][1..] == xs[1..][j - 1 := x];
      TotalChange(xs[1..], j - 1, x);
    }
  }

  lemma {:induction false} TotalBound(xs: seq<Status>)
    ensures Total(xs) <= 6 * |xs|
  {
    if xs != [] { TotalBound(xs[1..]); }
  }

  lemma {:induction false} CardMono(a: set<nat>, b: set<nat>)
    requires a <= b
    ensures |a| <= |b|
    decreases a
  {
    if a != {} {
      var x :| x in a;
      CardMono(a - {x}, b - {x});
    }
  }

  lemma {:induction false} CardBelow(a: set<nat>, n: nat)
    requires forall k | k in a :: k < n
    ensures |a| <= n
  {
    if n == 0 { assert a == {}; } else { CardBelow(a - {n - 1}, n - 1); }
  }

  /** How far the nodes have got, all together. */
  ghost function Progress(s: State): nat {
    Total(s.status) + |s.lost|
  }

  /** Every run is finite: it has at most seven steps for each node. */
  lemma {:induction false} RunsEnd(t: Tree, s: State, acts: seq<Act>)
    requires WellSized(t, s) && Run(t, s, acts)
    ensures |acts| <= 7 * |t.parent| - Progress(s)
    decreases |acts|
  {
    if acts == [] {
      TotalBound(s.status);
      CardBelow(s.lost, |t.parent|);
    } else {
      StepProgress(t, s, acts[0]);
      RunsEnd(t, Next(t, s, acts[0]), acts[1..]);
      hide Next, Enabled, Progress;
    }
  }

  lemma StepProgress(t: Tree, s: State, a: Act)
    requires WellSized(t, s) && Enabled(t, s, a)
    ensures Progress(Next(t, s, a)) > Progress(s)
  {
    var s' := Next(t, s, a);
    OneMoves(t, s, a);
    OneLost(t, s, a);
    hide Enabled, Next, Total;
    TotalChange(s.status, a.j, s'.status[a.j]);
  }
}
