/** The members that a walk must find, by the ways that lead to them: every way of taking publicly accessible
    parts that ends at the first value of the target type, in the order of the ways. */
module AccessPaths {
  import opened TypeGraph
  import opened Traversal

  datatype Option = None | Some(value: Value)

  /** The k-th publicly accessible part of a value: what it points to or holds, its fields, its items, and its
      keys and elements in turn. */
  function Part(g: Graph, v: Value, k: nat): (r: Option)
    requires Typed(g, v)
    ensures r.Some? ==> Typed(g, r.value)
  {
    match g[v.ty]
    case Ptr(_) => if k == 0 && v.body.Pointee? then Some(v.body.to) else None
    case Iface => if k == 0 && v.body.Dynamic? then Some(v.body.held) else None
    case Struct(fs) => if k < |fs| && fs[k].exported then Some(v.body.vs[k]) else None
    case List(_) => if k < |v.body.vs| then Some(v.body.vs[k]) else None
    case Map(_, _) =>
      if k / 2 >= |v.body.kvs| then None
      else if k % 2 == 0 then Some(v.body.kvs[k / 2].key) else Some(v.body.kvs[k / 2].val)
    case Leaf => None
  }

  /** What is found at the end of a way, if it is of the target type and nothing before it is. */
  function At(g: Graph, t: Ty, v: Value, way: seq<nat>): Option
    requires Typed(g, v)
    decreases |way|
  {
    if v.ty == t then (if way == [] then Some(v) else None)
    else if way == [] then None
    else match Part(g, v, way[0])
      case None => None
      case Some(w) => At(g, t, w, way[1..])
  }

  predicate Less(p: seq<nat>, q: seq<nat>)
    decreases |p|
  {
    p != [] && q != [] && (p[0] < q[0] || (p[0] == q[0] && Less(p[1..], q[1..])))
  }

  /** The ways lead to the values one by one, in order, and they are all there are that start with a part from
      the `lo`-th on; `lo` is 0 for all ways, the empty one included. */
  ghost predicate Listing(g: Graph, t: Ty, v: Value, lo: nat, ways: seq<seq<nat>>, found: seq<Value>)
    requires Typed(g, v)
  {
    && |ways| == |found|
    && (forall i | 0 <= i < |ways| :: From(ways[i], lo) && At(g, t, v, ways[i]) == Some(found[i]))
    && (forall i, j | 0 <= i < j < |ways| :: Less(ways[i], ways[j]))
    && (forall way | From(way, lo) && At(g, t, v, way).Some? :: way in ways)
  }

  predicate From(way: seq<nat>, lo: nat) {
    lo > 0 ==> way != [] && way[0] >= lo
  }

  function Behind(k: nat, ways: seq<seq<nat>>): (r: seq<seq<nat>>)
    ensures |r| == |ways|
  {
    seq(|ways|, i requires 0 <= i < |ways| => [k] + ways[i])
  }

  /** The k-th part before the later ones. */
  lemma PartFirst(g: Graph, t: Ty, v: Value, k: nat, w: Value, ways: seq<seq<nat>>, found: seq<Value>,
                  later: seq<seq<nat>>, rest: seq<Value>)
    requires Typed(g, v) && v.ty != t && Part(g, v, k) == Some(w) && Typed(g, w)
    requires Listing(g, t, w, 0, ways, found) && Listing(g, t, v, k + 1, later, rest)
    ensures Listing(g, t, v, k, Behind(k, ways) + later, found + rest)
  {
    hide At, Less, Part;
    var all := Behind(k, ways) + later;
    forall i | 0 <= i < |all| ensures From(all[i], k) && At(g, t, v, all[i]) == Some((found + rest)[i]) {
      if i < |ways| { AtBehind(g, t, v, k, w, ways[i]); } else { assert all[i] == later[i - |ways|]; }
    }
    forall i, j | 0 <= i < j < |all| ensures Less(all[i], all[j]) { LessBehind(k, ways, later, i, j); }
    forall way | From(way, k) && At(g, t, v, way).Some? ensures way in all {
      NotEmpty(g, t, v, way);
      if way[0] == k {
        AtBehind(g, t, v, k, w, way[1..]);
        assert [k] + way[1..] == way && way[1..] in ways;
        var i :| 0 <= i < |ways| && ways[i] == way[1..];
        assert all[i] == way;
      } else {
        assert way in later;
      }
    }
  }

  lemma AtBehind(g: Graph, t: Ty, v: Value, k: nat, w: Value, way: seq<nat>)
    requires Typed(g, v) && v.ty != t && Part(g, v, k) == Some(w) && Typed(g, w)
    ensures At(g, t, v, [k] + way) == At(g, t, w, way)
  {
    assert ([k] + way)[1..] == way;
  }

  lemma NotEmpty(g: Graph, t: Ty, v: Value, way: seq<nat>)
    requires Typed(g, v) && v.ty != t && At(g, t, v, way).Some?
    ensures way != []
  {}

  lemma LessBehind(k: nat, ways: seq<seq<nat>>, later: seq<seq<nat>>, i: nat, j: nat)
    requires i < j < |ways| + |later|
    requires forall a, b | 0 <= a < b < |ways| :: Less(ways[a], ways[b])
    requires forall a, b | 0 <= a < b < |later| :: Less(later[a], later[b])
    requires forall a | 0 <= a < |later| :: later[a] != [] && later[a][0] > k
    ensures var all := Behind(k, ways) + later; Less(all[i], all[j])
  {
    var all := Behind(k, ways) + later;
    if j < |ways| {
      assert all[i] == [k] + ways[i] && all[j] == [k] + ways[j];
      assert all[i][1..] == ways[i] && all[j][1..] == ways[j];
    } else if i < |ways| {
      assert all[i] == [k] + ways[i] && all[j] == later[j - |ways|];
    } else {
      assert all[i] == later[i - |ways|] && all[j] == later[j - |ways|];
    }
  }

  /** A part that is not accessible adds nothing. */
  lemma PartSkipped(g: Graph, t: Ty, v: Value, k: nat, later: seq<seq<nat>>, rest: seq<Value>)
    requires Typed(g, v) && v.ty != t && Part(g, v, k) == None && Listing(g, t, v, k + 1, later, rest)
    ensures Listing(g, t, v, k, later, rest)
  {
    forall way | From(way, k) && At(g, t, v, way).Some? ensures way in later { assert way[0] != k; }
  }

  /** Beyond the last part there is nothing. */
  lemma NoParts(g: Graph, t: Ty, v: Value, k: nat)
    requires Typed(g, v) && v.ty != t && forall j: nat | j >= k :: Part(g, v, j) == None
    ensures Listing(g, t, v, k, [], [])
  {
    forall way | From(way, k) ensures At(g, t, v, way).None? {}
  }

  /** The members of a value are what is found at the ends of the ways, each way once, in their order. */
  lemma {:induction false} MembersByWays(g: Graph, t: Ty, v: Value) returns (ways: seq<seq<nat>>)
    requires Typed(g, v)
    ensures Listing(g, t, v, 0, ways, Members(g, t, v))
    decreases v, 1, 0
  {
    if v.ty == t {
      ways := [[]];
      return;
    }
    match g[v.ty]
    case Ptr(_) =>
      NoParts(g, t, v, if v.body.Pointee? then 1 else 0);
      ways := [];
      if v.body.Pointee? { ways := OnePart(g, t, v, v.body.to); }
    case Iface =>
      NoParts(g, t, v, if v.body.Dynamic? then 1 else 0);
      ways := [];
      if v.body.Dynamic? { ways := OnePart(g, t, v, v.body.held); }
    case Struct(_) => ways := FieldsByWays(g, t, v, 0);
    case Map(_, _) => ways := EntriesByWays(g, t, v, 0);
    case List(_) => ways := ItemsByWays(g, t, v, 0);
    case Leaf =>
      NoParts(g, t, v, 0);
      ways := [];
  }

  lemma {:induction false} OnePart(g: Graph, t: Ty, v: Value, w: Value) returns (ways: seq<seq<nat>>)
    requires Typed(g, v) && v.ty != t && Part(g, v, 0) == Some(w) && Listing(g, t, v, 1, [], [])
    requires v.body == Pointee(w) || v.body == Dynamic(w)
    ensures Listing(g, t, v, 0, ways, Members(g, t, w))
    decreases v, 0, 0
  {
    var inner := MembersByWays(g, t, w);
    PartFirst(g, t, v, 0, w, inner, Members(g, t, w), [], []);
    ways := Behind(0, inner) + [];
    assert Members(g, t, w) + [] == Members(g, t, w);
  }

  lemma {:induction false} FieldsByWays(g: Graph, t: Ty, v: Value, i: nat) returns (ways: seq<seq<nat>>)
    requires Typed(g, v) && v.ty != t && g[v.ty].Struct? && i <= |v.body.vs|
    ensures Listing(g, t, v, i, ways, FieldMembers(g, t, v, i))
    decreases v, 0, |v.body.vs| - i
  {
    hide Listing, Members;
    if i == |v.body.vs| {
      NoParts(g, t, v, i);
      ways := [];
    } else {
      var later := FieldsByWays(g, t, v, i + 1);
      var rest := FieldMembers(g, t, v, i + 1);
      if g[v.ty].fields[i].exported {
        var inner := MembersByWays(g, t, v.body.vs[i]);
        PartFirst(g, t, v, i, v.body.vs[i], inner, Members(g, t, v.body.vs[i]), later, rest);
        ways := Behind(i, inner) + later;
      } else {
        PartSkipped(g, t, v, i, later, rest);
        ways := later;
        assert [] + rest == rest;
      }
    }
  }

  lemma {:induction false} ItemsByWays(g: Graph, t: Ty, v: Value, i: nat) returns (ways: seq<seq<nat>>)
    requires Typed(g, v) && v.ty != t && g[v.ty].List? && i <= |v.body.vs|
    ensures Listing(g, t, v, i, ways, ItemMembers(g, t, v, i))
    decreases v, 0, |v.body.vs| - i
  {
    hide Listing, Members;
    if i == |v.body.vs| {
      NoParts(g, t, v, i);
      ways := [];
    } else {
      var later := ItemsByWays(g, t, v, i + 1);
      var inner := MembersByWays(g, t, v.body.vs[i]);
      PartFirst(g, t, v, i, v.body.vs[i], inner, Members(g, t, v.body.vs[i]), later, ItemMembers(g, t, v, i + 1));
      ways := Behind(i, inner) + later;
    }
  }

  lemma {:induction false} EntriesByWays(g: Graph, t: Ty, v: Value, i: nat) returns (ways: seq<seq<nat>>)
    requires Typed(g, v) && v.ty != t && g[v.ty].Map? && i <= |v.body.kvs|
    ensures Listing(g, t, v, 2 * i, ways, EntryMembers(g, t, v, i))
    decreases v, 0, |v.body.kvs| - i
  {
    hide Listing, Members;
    if i == |v.body.kvs| {
      NoParts(g, t, v, 2 * i);
      ways := [];
    } else {
      var later := EntriesByWays(g, t, v, i + 1);
      var rest := EntryMembers(g, t, v, i + 1);
      var key, val := v.body.kvs[i].key, v.body.kvs[i].val;
      var vals := MembersByWays(g, t, val);
      PartFirst(g, t, v, 2 * i + 1, val, vals, Members(g, t, val), later, rest);
      var keys := MembersByWays(g, t, key);
      later := Behind(2 * i + 1, vals) + later;
      PartFirst(g, t, v, 2 * i, key, keys, Members(g, t, key), later, Members(g, t, val) + rest);
      ways := Behind(2 * i, keys) + later;
      assert Members(g, t, key) + (Members(g, t, val) + rest) == Members(g, t, key) + Members(g, t, val) + rest;
    }
  }
}
