/** The table of registered slaves: by id, and from server address to id. */
module Registry {

  datatype Info = Info(id: string, server: string)

  datatype Found = Missing | Slave(info: Info)

  datatype Reg = Reg(slaves: map<string, Info>, addr2id: map<string, string>)

  const Empty := Reg(map[], map[])

  function Added(r: Reg, s: Info): Reg {
    Reg(r.slaves[s.id := s], r.addr2id[s.server := s.id])
  }

  function Removed(r: Reg, s: Info): Reg {
    Reg(r.slaves - {s.id}, r.addr2id - {s.server})
  }

  /** `Get`: an id, or else an address; a missing address reads as the empty id. */
  function Find(r: Reg, n: string): Found {
    if n in r.slaves then Slave(r.slaves[n])
    else
      var id := if n in r.addr2id then r.addr2id[n] else "";
      if id in r.slaves then Slave(r.slaves[id]) else Missing
  }

  /** The two maps are each other's inverse. */
  ghost predicate Inverse(r: Reg) {
    && (forall id | id in r.slaves ::
          && r.slaves[id].id == id
          && r.slaves[id].server in r.addr2id && r.addr2id[r.slaves[id].server] == id)
    && (forall a | a in r.addr2id :: r.addr2id[a] in r.slaves && r.slaves[r.addr2id[a]].server == a)
  }

  /** Neither the id nor the address is in use by anybody else. */
  predicate Fits(r: Reg, s: Info) {
    && (s.id in r.slaves ==> r.slaves[s.id].server == s.server)
    && (s.server in r.addr2id ==> r.addr2id[s.server] == s.id)
  }

  /** Registering keeps the maps inverse exactly when id and address are fresh, or paired already. */
  lemma AddKeepsInverse(r: Reg, s: Info)
    requires Inverse(r)
    ensures Inverse(Added(r, s)) <==> Fits(r, s)
  {
    var r' := Added(r, s);
    if s.id in r.slaves && r.slaves[s.id].server != s.server {
      var a := r.slaves[s.id].server;
      assert a in r'.addr2id && r'.addr2id[a] == s.id && r'.slaves[s.id].server != a;
    } else if s.server in r.addr2id && r.addr2id[s.server] != s.id {
      var other := r.addr2id[s.server];
      assert other in r'.slaves && r'.slaves[other].server == s.server && r'.addr2id[s.server] != other;
    }
  }

  /** Removing what is registered keeps the maps inverse. */
  lemma RemoveKeepsInverse(r: Reg, s: Info)
    requires Inverse(r) && s.id in r.slaves && r.slaves[s.id] == s
    ensures Inverse(Removed(r, s))
  {}

  /** A slave that comes back on a new address leaves its old address behind. */
  lemma StaleAddress(r: Reg, id: string, a: string, b: string)
    requires Inverse(r) && id !in r.slaves && a !in r.addr2id && b !in r.addr2id && a != b
    ensures var r' := Added(Added(r, Info(id, a)), Info(id, b));
            !Inverse(r') && r'.addr2id[a] == id && r'.slaves[id].server == b
  {
    var r' := Added(Added(r, Info(id, a)), Info(id, b));
    assert a in r'.addr2id && r'.addr2id[a] == id;
  }

  // ----- Runs -----

  datatype Event = Register(info: Info) | Drop(name: string)

  function Next(r: Reg, e: Event): Reg {
    match e
    case Register(s) => Added(r, s)
    case Drop(n) => match Find(r, n) case Missing => r case Slave(s) => Removed(r, s)
  }

  function After(r: Reg, es: seq<Event>): Reg
    decreases |es|
  {
    if es == [] then r else After(Next(r, es[0]), es[1..])
  }

  /** Every registration of the run fits when it happens. */
  predicate AllFit(r: Reg, es: seq<Event>)
    decreases |es|
  {
    es != [] ==> (es[0].Register? ==> Fits(r, es[0].info)) && AllFit(Next(r, es[0]), es[1..])
  }

  lemma FoundIsRegistered(r: Reg, n: string)
    requires Inverse(r) && Find(r, n).Slave?
    ensures var s := Find(r, n).info; s.id in r.slaves && r.slaves[s.id] == s
  {}

  /** Over every run of registrations and removals the maps stay inverse. */
  lemma {:induction false} RunKeepsInverse(r: Reg, es: seq<Event>)
    requires Inverse(r) && AllFit(r, es)
    ensures Inverse(After(r, es))
    decreases |es|
  {
    if es != [] {
      match es[0] {
        case Register(s) => AddKeepsInverse(r, s);
        case Drop(n) =>
          if Find(r, n).Slave? {
            FoundIsRegistered(r, n);
            RemoveKeepsInverse(r, Find(r, n).info);
          }
      }
      RunKeepsInverse(Next(r, es[0]), es[1..]);
    }
  }

  // ----- Sending to a set of nodes -----

  /** No id looks like an address, and no id is empty. */
  ghost predicate Distinct(r: Reg) {
    forall id, a | id in r.slaves && a in r.addr2id :: id != a && id != ""
  }

  function Failed(up: string -> bool, set_: seq<string>): set<string> {
    set s | s in set_ && !up(s)
  }

  /** What remains once the nodes at the addresses `dead` have been dropped. */
  ghost function Without(r: Reg, dead: set<string>): Reg {
    Reg(map id | id in r.slaves && r.slaves[id].server !in dead :: r.slaves[id],
        map a | a in r.addr2id && a !in dead :: r.addr2id[a])
  }

  lemma DropAddress(r: Reg, a: string)
    requires Inverse(r) && Distinct(r) && a !in r.slaves
    ensures match Find(r, a)
            case Missing => Without(r, {a}) == r
            case Slave(s) => Removed(r, s) == Without(r, {a}) && Inverse(Removed(r, s)) && Distinct(Removed(r, s))
  {
    if a in r.addr2id {
      var s := r.slaves[r.addr2id[a]];
      assert Find(r, a) == Slave(s) && s.server == a;
      RemoveKeepsInverse(r, s);
      assert Removed(r, s).slaves == Without(r, {a}).slaves;
    } else {
      NobodyEmpty(r);
    }
  }

  lemma NobodyEmpty(r: Reg)
    requires Inverse(r) && Distinct(r)
    ensures "" !in r.slaves
  {}

  lemma WithoutTwice(r: Reg, d: set<string>, e: set<string>)
    ensures Without(Without(r, d), e) == Without(r, d + e)
  {}

  // ----- The table itself -----

  class Slaves {
    var slaves: map<string, Info>
    var addr2id: map<string, string>

    constructor ()
      ensures View() == Empty
    {
      slaves, addr2id := map[], map[];
    }

    function View(): Reg
      reads this
    {
      Reg(slaves, addr2id)
    }

    method Add(id: string, server: string) returns (resp: string)
      modifies this
      ensures View() == Added(old(View()), Info(id, server)) && resp == id
      ensures id in slaves && slaves[id] == Info(id, server)
      ensures server in addr2id && addr2id[server] == id
      ensures forall other | other != id ::
                (other in slaves <==> other in old(slaves)) && (other in slaves ==> slaves[other] == old(slaves)[other])
      ensures forall a | a != server ::
                (a in addr2id <==> a in old(addr2id)) && (a in addr2id ==> addr2id[a] == old(addr2id)[a])
    {
      slaves := slaves[id := Info(id, server)];
      addr2id := addr2id[server := id];
      resp := id;
    }

    method Remove(s: Info)
      modifies this
      ensures View() == Removed(old(View()), s)
      ensures s.id !in slaves && s.server !in addr2id
      ensures forall other | other != s.id ::
                (other in slaves <==> other in old(slaves)) && (other in slaves ==> slaves[other] == old(slaves)[other])
      ensures forall a | a != s.server ::
                (a in addr2id <==> a in old(addr2id)) && (a in addr2id ==> addr2id[a] == old(addr2id)[a])
    {
      slaves := slaves - {s.id};
      addr2id := addr2id - {s.server};
    }

    method Get(n: string) returns (s: Info, ok: bool)
      ensures Find(View(), n) == if ok then Slave(s) else Missing
      ensures n in slaves ==> ok && s == slaves[n]
      ensures n !in slaves && n in addr2id ==>
                (ok <==> addr2id[n] in slaves) && (ok ==> s == slaves[addr2id[n]])
      ensures n !in slaves && n !in addr2id ==> (ok <==> "" in slaves) && (ok ==> s == slaves[""])
    {
      s, ok := Info("", ""), n in slaves;
      if ok { return slaves[n], true; }
      var id := if n in addr2id then addr2id[n] else "";
      ok := id in slaves;
      if ok { s := slaves[id]; }
    }

    /** Names of one parsed segment to addresses; "." is everybody, in no particular order. */
    method ServIntersect(set_: seq<string>) returns (i: seq<string>)
      requires |set_| > 0
      ensures set_[0] == "." ==> exists ids :: Enumerates(slaves, ids, i)
      ensures set_[0] != "." ==> i == Lookup(View(), set_) && exists at :: AllMeant(View(), set_, |set_|, i, at)
    {
      i := [];
      if set_[0] == "." {
        var todo := slaves.Keys;
        ghost var ids: seq<string> := [];
        while todo != {}
          invariant todo <= slaves.Keys && |ids| == |i|
          invariant forall k | k in slaves :: k in ids <==> k !in todo
          invariant forall k | 0 <= k < |ids| :: ids[k] in slaves && i[k] == slaves[ids[k]].server
          invariant forall j, k | 0 <= j < k < |ids| :: ids[j] != ids[k]
          decreases todo
        {
          var n :| n in todo;
          todo := todo - {n};
          i := i + [slaves[n].server];
          ids := ids + [n];
        }
        assert Enumerates(slaves, ids, i);
      } else {
        ghost var at: seq<nat> := [];
        for k := 0 to |set_|
          invariant i + Lookup(View(), set_[k..]) == Lookup(View(), set_)
          invariant AllMeant(View(), set_, k, i, at)
        {
          assert set_[k..][0] == set_[k] && set_[k..][1..] == set_[k + 1..];
          var s, ok := Get(set_[k]);
          FoundMore(View(), set_, k, i, at);
          hide AllMeant;
          if !ok { continue; }
          ghost var rest := Lookup(View(), set_[k + 1..]);
          assert i + ([s.server] + rest) == (i + [s.server]) + rest;
          i, at := i + [s.server], at + [k];
        }
        assert i + [] == i;
      }
    }

    /** `sendCommandsToANodeSet`, with the outcome of dialing each address given by `up`. */
    method SendCommandsToANodeSet(up: string -> bool, nodeSet: seq<string>) returns (numnodes: nat, failures: nat)
      requires Inverse(View()) && Distinct(View())
      requires forall s | s in nodeSet :: s !in slaves
      modifies this
      ensures numnodes == |Where(nodeSet, |nodeSet|, up)| && numnodes + failures == |nodeSet|
      ensures View() == Without(old(View()), Failed(up, nodeSet))
      ensures forall id :: id in slaves <==>
                id in old(slaves) && !(old(slaves)[id].server in nodeSet && !up(old(slaves)[id].server))
      ensures forall a :: a in addr2id <==> a in old(addr2id) && !(a in nodeSet && !up(a))
      ensures forall id | id in slaves :: slaves[id] == old(slaves)[id]
      ensures forall a | a in addr2id :: addr2id[a] == old(addr2id)[a]
      ensures Inverse(View()) && Distinct(View())
    {
      numnodes, failures := 0, 0;
      assert Where(nodeSet, 0, up) == {};
      assert Without(View(), {}) == View();
      for k := 0 to |nodeSet|
        invariant numnodes == |Where(nodeSet, k, up)| && numnodes + failures == k
        invariant Inverse(View()) && Distinct(View())
        invariant View() == Without(old(View()), Failed(up, nodeSet[..k]))
      {
        var s := nodeSet[k];
        OneMore(up, nodeSet, k);
        hide Failed, Without, Where;
        if up(s) {
          numnodes := numnodes + 1;
        } else {
          failures := failures + 1;
          WithoutTwice(old(View()), Failed(up, nodeSet[..k]), {s});
          DropAddress(View(), s);
          var si, ok := Get(s);
          if ok { Remove(si); }
        }
      }
      assert nodeSet[..|nodeSet|] == nodeSet;
    }
  }

  lemma OneMore(up: string -> bool, nodeSet: seq<string>, k: nat)
    requires k < |nodeSet|
    ensures var s := nodeSet[k];
            && Failed(up, nodeSet[..k + 1]) == Failed(up, nodeSet[..k]) + (if up(s) then {} else {s})
            && |Where(nodeSet, k + 1, up)| == |Where(nodeSet, k, up)| + if up(s) then 1 else 0
  {
    assert nodeSet[..k + 1] == nodeSet[..k] + [nodeSet[k]];
    assert Where(nodeSet, k + 1, up) == if up(nodeSet[k]) then Where(nodeSet, k, up) + {k} else Where(nodeSet, k, up);
  }

  /** The places among the first `n` whose node could be reached. */
  ghost function Where(nodeSet: seq<string>, n: nat, up: string -> bool): set<nat>
    requires n <= |nodeSet|
  {
    set k: nat | k < n && up(nodeSet[k])
  }

  /** `n` stands for a slave at the address `a`: it is its id, or else its address. */
  ghost predicate Means(r: Reg, n: string, a: string) {
    if n in r.slaves then a == r.slaves[n].server
    else
      var id := if n in r.addr2id then r.addr2id[n] else "";
      id in r.slaves && a == r.slaves[id].server
  }

  /** `i` has, in order, the addresses that the first `n` names stand for; `at` says of which name each is. */
  ghost predicate AllMeant(r: Reg, names: seq<string>, n: nat, i: seq<string>, at: seq<nat>) {
    && n <= |names| && |at| == |i|
    && (forall k | 0 <= k < |at| :: at[k] < n && Means(r, names[at[k]], i[k]))
    && (forall j, k | 0 <= j < k < |at| :: at[j] < at[k])
    && (forall k | 0 <= k < n && k !in at :: forall a :: !Means(r, names[k], a))
  }

  lemma FoundMore(r: Reg, names: seq<string>, n: nat, i: seq<string>, at: seq<nat>)
    requires n < |names| && AllMeant(r, names, n, i, at)
    ensures match Find(r, names[n])
            case Missing => AllMeant(r, names, n + 1, i, at)
            case Slave(s) => AllMeant(r, names, n + 1, i + [s.server], at + [n])
  {
    if Find(r, names[n]).Slave? {
      assert (at + [n])[|at|] == n && forall k | k in at :: k in at + [n];
    }
  }

  /** `i` lists the servers of all registered slaves, each once. */
  ghost predicate Enumerates(slaves: map<string, Info>, ids: seq<string>, i: seq<string>) {
    && |ids| == |i|
    && (forall k | k in slaves :: k in ids)
    && (forall k | 0 <= k < |ids| :: ids[k] in slaves && i[k] == slaves[ids[k]].server)
    && (forall j, k | 0 <= j < k < |ids| :: ids[j] != ids[k])
  }

  function Lookup(r: Reg, set_: seq<string>): seq<string> {
    if set_ == [] then []
    else match Find(r, set_[0])
      case Missing => Lookup(r, set_[1..])
      case Slave(s) => [s.server] + Lookup(r, set_[1..])
  }
}
