/** MapKeys promises no order.  Reordering map entries anywhere in a value changes the order in which
    f is called, and nothing else. */
module MapOrder {
  import opened TypeGraph
  import opened Traversal

  /** `w` is `v` with two neighbouring entries of one map, at any depth above the targets, exchanged. */
  predicate Swapped(g: Graph, t: Ty, v: Value, w: Value)
    requires Typed(g, v) && Typed(g, w)
    decreases v
  {
    && v.ty == w.ty && v.ty != t
    && match g[v.ty]
       case Ptr(_) => v.body.Pointee? && w.body.Pointee? && Swapped(g, t, v.body.to, w.body.to)
       case Struct(_) =>
         exists i | 0 <= i < |v.body.vs| ::
           Swapped(g, t, v.body.vs[i], w.body.vs[i]) && w.body.vs == v.body.vs[i := w.body.vs[i]]
       case Map(_, _) =>
         && |v.body.kvs| == |w.body.kvs|
         && ((exists i | 0 <= i < |v.body.kvs| - 1 ::
                w.body.kvs == v.body.kvs[i := v.body.kvs[i + 1]][i + 1 := v.body.kvs[i]])
             || (exists i | 0 <= i < |v.body.kvs| ::
                   && w.body.kvs == v.body.kvs[i := w.body.kvs[i]]
                   && ((w.body.kvs[i].val == v.body.kvs[i].val && Swapped(g, t, v.body.kvs[i].key, w.body.kvs[i].key))
                       || (w.body.kvs[i].key == v.body.kvs[i].key
                           && Swapped(g, t, v.body.kvs[i].val, w.body.kvs[i].val)))))
       case List(_) =>
         && |v.body.vs| == |w.body.vs|
         && exists i | 0 <= i < |v.body.vs| ::
              Swapped(g, t, v.body.vs[i], w.body.vs[i]) && w.body.vs == v.body.vs[i := w.body.vs[i]]
       case Iface => v.body.Dynamic? && w.body.Dynamic? && Swapped(g, t, v.body.held, w.body.held)
       case Leaf => false
  }

  ghost predicate Same(a: seq<Value>, b: seq<Value>) {
    multiset(a) == multiset(b)
  }

  lemma SameConcat(a: seq<Value>, b: seq<Value>, c: seq<Value>, d: seq<Value>)
    requires Same(a, b) && Same(c, d)
    ensures Same(a + c, b + d)
  {}

  lemma {:induction false} SwapKeepsMembers(g: Graph, t: Ty, v: Value, w: Value)
    requires Typed(g, v) && Typed(g, w) && Swapped(g, t, v, w)
    ensures Same(Members(g, t, v), Members(g, t, w))
    decreases v
  {
    match g[v.ty]
    case Ptr(_) => SwapKeepsMembers(g, t, v.body.to, w.body.to);
    case Iface => SwapKeepsMembers(g, t, v.body.held, w.body.held);
    case Struct(_) =>
      var i :| 0 <= i < |v.body.vs| && Swapped(g, t, v.body.vs[i], w.body.vs[i]) &&
               w.body.vs == v.body.vs[i := w.body.vs[i]];
      SwapKeepsMembers(g, t, v.body.vs[i], w.body.vs[i]);
      FieldChanged(g, t, v, w, i);
    case List(_) =>
      var i :| 0 <= i < |v.body.vs| && Swapped(g, t, v.body.vs[i], w.body.vs[i]) &&
               w.body.vs == v.body.vs[i := w.body.vs[i]];
      SwapKeepsMembers(g, t, v.body.vs[i], w.body.vs[i]);
      ItemChanged(g, t, v, w, i);
    case Map(_, _) =>
      if i :| 0 <= i < |v.body.kvs| - 1 &&
              w.body.kvs == v.body.kvs[i := v.body.kvs[i + 1]][i + 1 := v.body.kvs[i]] {
        EntriesExchanged(g, t, v, w, i);
      } else {
        var i :| 0 <= i < |v.body.kvs| && w.body.kvs == v.body.kvs[i := w.body.kvs[i]]
                 && ((w.body.kvs[i].val == v.body.kvs[i].val && Swapped(g, t, v.body.kvs[i].key, w.body.kvs[i].key))
                     || (w.body.kvs[i].key == v.body.kvs[i].key &&
                         Swapped(g, t, v.body.kvs[i].val, w.body.kvs[i].val)));
        if Swapped(g, t, v.body.kvs[i].key, w.body.kvs[i].key) && w.body.kvs[i].val == v.body.kvs[i].val {
          SwapKeepsMembers(g, t, v.body.kvs[i].key, w.body.kvs[i].key);
        } else {
          SwapKeepsMembers(g, t, v.body.kvs[i].val, w.body.kvs[i].val);
        }
        EntryChanged(g, t, v, w, i);
      }
  }

  lemma FieldChanged(g: Graph, t: Ty, v: Value, w: Value, i: nat)
    requires Typed(g, v) && Typed(g, w) && v.ty == w.ty && g[v.ty].Struct? && i < |v.body.vs| == |w.body.vs|
    requires w.body.vs == v.body.vs[i := w.body.vs[i]]
    requires Same(Members(g, t, v.body.vs[i]), Members(g, t, w.body.vs[i]))
    ensures Same(FieldMembers(g, t, v, 0), FieldMembers(g, t, w, 0))
  {
    hide Members;
    for j := |v.body.vs| downto 0
      invariant Same(FieldMembers(g, t, v, j), FieldMembers(g, t, w, j))
    {
      if g[v.ty].fields[j].exported {
        SameConcat(Members(g, t, v.body.vs[j]), Members(g, t, w.body.vs[j]),
                   FieldMembers(g, t, v, j + 1), FieldMembers(g, t, w, j + 1));
      }
    }
  }

  lemma ItemChanged(g: Graph, t: Ty, v: Value, w: Value, i: nat)
    requires Typed(g, v) && Typed(g, w) && v.ty == w.ty && g[v.ty].List? && i < |v.body.vs| == |w.body.vs|
    requires w.body.vs == v.body.vs[i := w.body.vs[i]]
    requires Same(Members(g, t, v.body.vs[i]), Members(g, t, w.body.vs[i]))
    ensures Same(ItemMembers(g, t, v, 0), ItemMembers(g, t, w, 0))
  {
    hide Members;
    for j := |v.body.vs| downto 0
      invariant Same(ItemMembers(g, t, v, j), ItemMembers(g, t, w, j))
    {
      SameConcat(Members(g, t, v.body.vs[j]), Members(g, t, w.body.vs[j]),
                 ItemMembers(g, t, v, j + 1), ItemMembers(g, t, w, j + 1));
    }
  }

  function OfEntry(g: Graph, t: Ty, e: Entry): seq<Value>
    requires Typed(g, e.key) && Typed(g, e.val)
  {
    Members(g, t, e.key) + Members(g, t, e.val)
  }

  lemma EntryChanged(g: Graph, t: Ty, v: Value, w: Value, i: nat)
    requires Typed(g, v) && Typed(g, w) && v.ty == w.ty && g[v.ty].Map? && i < |v.body.kvs| == |w.body.kvs|
    requires w.body.kvs == v.body.kvs[i := w.body.kvs[i]]
    requires Same(Members(g, t, v.body.kvs[i].key), Members(g, t, w.body.kvs[i].key))
    requires Same(Members(g, t, v.body.kvs[i].val), Members(g, t, w.body.kvs[i].val))
    ensures Same(EntryMembers(g, t, v, 0), EntryMembers(g, t, w, 0))
  {
    for j := |v.body.kvs| downto 0
      invariant Same(EntryMembers(g, t, v, j), EntryMembers(g, t, w, j))
    {
      var a, b := v.body.kvs[j], w.body.kvs[j];
      SameConcat(Members(g, t, a.key), Members(g, t, b.key), Members(g, t, a.val), Members(g, t, b.val));
      SameConcat(OfEntry(g, t, a), OfEntry(g, t, b), EntryMembers(g, t, v, j + 1), EntryMembers(g, t, w, j + 1));
    }
  }

  lemma EntriesExchanged(g: Graph, t: Ty, v: Value, w: Value, i: nat)
    requires Typed(g, v) && Typed(g, w) && v.ty == w.ty && g[v.ty].Map? && i + 1 < |v.body.kvs| == |w.body.kvs|
    requires w.body.kvs == v.body.kvs[i := v.body.kvs[i + 1]][i + 1 := v.body.kvs[i]]
    ensures Same(EntryMembers(g, t, v, 0), EntryMembers(g, t, w, 0))
  {
    for j := |v.body.kvs| downto i + 2
      invariant EntryMembers(g, t, v, j) == EntryMembers(g, t, w, j)
    {}
    PairExchanged(g, t, v, w, i);
    for j := i downto 0
      invariant Same(EntryMembers(g, t, v, j), EntryMembers(g, t, w, j))
    {
      SameConcat(OfEntry(g, t, v.body.kvs[j]), OfEntry(g, t, w.body.kvs[j]),
                 EntryMembers(g, t, v, j + 1), EntryMembers(g, t, w, j + 1));
    }
  }

  lemma PairExchanged(g: Graph, t: Ty, v: Value, w: Value, i: nat)
    requires Typed(g, v) && Typed(g, w) && v.ty == w.ty && g[v.ty].Map? && i + 1 < |v.body.kvs| == |w.body.kvs|
    requires v.body.kvs[i] == w.body.kvs[i + 1] && v.body.kvs[i + 1] == w.body.kvs[i]
    requires EntryMembers(g, t, v, i + 2) == EntryMembers(g, t, w, i + 2)
    ensures Same(EntryMembers(g, t, v, i), EntryMembers(g, t, w, i))
  {
    var a, b := OfEntry(g, t, v.body.kvs[i]), OfEntry(g, t, v.body.kvs[i + 1]);
    var rest := EntryMembers(g, t, v, i + 2);
    assert EntryMembers(g, t, v, i) == a + EntryMembers(g, t, v, i + 1) == a + (b + rest);
    assert EntryMembers(g, t, w, i) == b + EntryMembers(g, t, w, i + 1) == b + (a + rest);
    assert multiset(a + (b + rest)) == multiset(a) + multiset(b) + multiset(rest);
    assert multiset(b + (a + rest)) == multiset(a) + multiset(b) + multiset(rest);
  }

  /** Any number of exchanges. */
  ghost predicate Reordered(g: Graph, t: Ty, vs: seq<Value>) {
    && (forall i | 0 <= i < |vs| :: Typed(g, vs[i]))
    && forall i | 0 < i < |vs| :: Swapped(g, t, vs[i - 1], vs[i])
  }

  lemma {:induction false} ReorderedSameMembers(g: Graph, t: Ty, vs: seq<Value>)
    requires Reordered(g, t, vs) && |vs| > 0
    ensures multiset(Members(g, t, vs[0])) == multiset(Members(g, t, vs[|vs| - 1]))
  {
    for i := 1 to |vs|
      invariant Same(Members(g, t, vs[0]), Members(g, t, vs[i - 1]))
    {
      SwapKeepsMembers(g, t, vs[i - 1], vs[i]);
    }
  }
}
