/** A file system as a map from absolute paths, and the operations that placing files performs. */
module Disk {

  newtype byte = x: int | 0 <= x < 256

  type Bytes = seq<byte>

  datatype Entry = Dir | Regular(data: Bytes) | Link(target: string)

  type Files = map<string, Entry>

  /** `q` is a directory on the way to `p`. */
  predicate Above(q: string, p: string) {
    && 0 < |q| < |p| && p[|q|] == '/' && q == p[..|q|] && q[|q| - 1] != '/'
  }

  function Ancestors(p: string): set<string> {
    set i | 0 < i < |p| && p[i] == '/' && p[i - 1] != '/' :: p[..i]
  }

  lemma AncestorsAbove(p: string, q: string)
    ensures q in Ancestors(p) <==> Above(q, p)
  {
    if Above(q, p) { assert p[..|q|] in Ancestors(p); }
  }

  /** `MkdirAll` on a set of directories that together lead down to one: nothing happens if one of them
      is taken by something that is no directory. */
  function MakeDirs(d: Files, dirs: set<string>): Files {
    if exists q | q in dirs :: q in d && d[q] != Dir then d
    else d + map q | q in dirs && q !in d :: Dir
  }

  /** Writing from the start of a file that is not truncated. */
  function Overwrite(was: Bytes, data: Bytes): Bytes {
    if |data| >= |was| then data else data + was[|data|..]
  }

  /** Byte by byte: what was written, and beyond it what was there before. */
  lemma OverwriteBytes(was: Bytes, data: Bytes)
    ensures |Overwrite(was, data)| == if |data| < |was| then |was| else |data|
    ensures forall i | 0 <= i < |data| :: Overwrite(was, data)[i] == data[i]
    ensures forall i | |data| <= i < |was| :: Overwrite(was, data)[i] == was[i]
  {}

  /** The missing truncation shows exactly when the old file was longer. */
  lemma OverwriteExact(was: Bytes, data: Bytes)
    ensures Overwrite(was, data) == data <==> |was| <= |data|
  {}

  /** What is in place before a regular file is written. */
  function OldData(d: Files, p: string): Bytes {
    if p in d && d[p].Regular? then d[p].data else []
  }

  predicate CanOpen(d: Files, p: string) {
    (forall q | q in Ancestors(p) :: q in d && d[q] == Dir) && (p in d ==> d[p].Regular?)
  }

  /** One thing to be put at a path. */
  datatype Item = DirItem(dest: string) | LinkItem(dest: string, target: string)
                | FileItem(dest: string, data: Bytes) | NoItem(dest: string)

  datatype Placed = Done(disk: Files) | Failed(disk: Files)

  function Place(d: Files, it: Item): Placed {
    match it
    case DirItem(p) => Done(MakeDirs(d, Ancestors(p) + {p}))
    case LinkItem(p, t) =>
      var d1 := MakeDirs(d, Ancestors(p));
      Done(if p !in d1 && (forall q | q in Ancestors(p) :: q in d1 && d1[q] == Dir) then d1[p := Link(t)] else d1)
    case FileItem(p, data) =>
      var d1 := MakeDirs(d, Ancestors(p));
      if CanOpen(d1, p) then Done(d1[p := Regular(Overwrite(OldData(d1, p), data))]) else Failed(d1)
    case NoItem(_) => Done(d)
  }

  function PlaceAll(d: Files, items: seq<Item>): Placed
    decreases |items|
  {
    if items == [] then Done(d)
    else match Place(d, items[0])
      case Failed(d1) => Failed(d1)
      case Done(d1) => PlaceAll(d1, items[1..])
  }

  // ----- What becomes of every path -----

  /** Only directories lie on the way to `p`. */
  ghost predicate Free(d: Files, p: string) {
    forall q | q in d && Above(q, p) :: d[q] == Dir
  }

  /** The item itself can be made: nothing else is in its place. */
  ghost predicate Fresh(d: Files, it: Item) {
    Free(d, it.dest) &&
    match it
    case DirItem(p) => p in d ==> d[p] == Dir
    case LinkItem(p, _) => p !in d
    case FileItem(p, _) => p in d ==> d[p].Regular?
    case NoItem(_) => false
  }

  /** What an item leaves at its own path: a file keeps the bytes beyond what was written. */
  ghost predicate Made(d: Files, it: Item, x: Entry) {
    match it
    case DirItem(_) => x == Dir
    case LinkItem(_, t) => x == Link(t)
    case FileItem(p, data) =>
      && x.Regular? && |data| <= |x.data|
      && (forall i | 0 <= i < |data| :: x.data[i] == data[i])
      && (if p in d && d[p].Regular? && |data| < |d[p].data| then
            |x.data| == |d[p].data| && forall i | |data| <= i < |x.data| :: x.data[i] == d[p].data[i]
          else |x.data| == |data|)
    case NoItem(_) => false
  }

  /** After an item was placed, each path holds what the item made, or else what it held before, or else a
      directory that was missing on the way; placing fails only for files. */
  lemma PlaceExact(d: Files, it: Item, q: string)
    ensures var r, p := Place(d, it), it.dest;
            && (r.Failed? <==> it.FileItem? && !Fresh(d, it))
            && (q == p && Fresh(d, it) ==> q in r.disk && Made(d, it, r.disk[q]))
            && (q in d && !(q == p && Fresh(d, it)) ==> q in r.disk && r.disk[q] == d[q])
            && (q !in d && q != p ==>
                  (q in r.disk <==> Above(q, p) && Free(d, p) && !it.NoItem? && (it.DirItem? ==> Fresh(d, it))))
            && (q !in d && q != p && q in r.disk ==> r.disk[q] == Dir)
            && (q !in d && q == p && !Fresh(d, it) ==> q !in r.disk)
  {
    var p := it.dest;
    assert !Above(p, p);
    forall x ensures x in Ancestors(p) <==> Above(x, p) { AncestorsAbove(p, x); }
    hide Above, Ancestors;
    match it
    case DirItem(_) =>
    case LinkItem(_, _) =>
    case FileItem(_, data) => OverwriteBytes(OldData(d, p), data);
    case NoItem(_) =>
  }

  /** Whatever was there still is: directories and links as they were, and files as files. */
  ghost predicate Survives(d: Files, d': Files) {
    forall q | q in d :: q in d' && if d[q].Regular? then d'[q].Regular? else d'[q] == d[q]
  }

  lemma PlaceSurvives(d: Files, it: Item)
    ensures Survives(d, Place(d, it).disk)
  {
    forall q | q in d
      ensures var d' := Place(d, it).disk; q in d' && if d[q].Regular? then d'[q].Regular? else d'[q] == d[q]
    {
      PlaceExact(d, it, q);
    }
  }

  lemma SurvivesOn(d: Files, d1: Files, d2: Files)
    requires Survives(d, d1) && Survives(d1, d2)
    ensures Survives(d, d2)
  {}

  // ----- Items that do not get into each other's way -----

  /** The way to each item is free, and no file or link is in the way of another item. */
  ghost predicate Compatible(d: Files, items: seq<Item>) {
    && (forall i, j | 0 <= i < j < |items| :: items[i].dest != items[j].dest)
    && (forall i, q | 0 <= i < |items| && q in d && Above(q, items[i].dest) :: d[q] == Dir)
    && (forall i | 0 <= i < |items| && items[i].dest in d ::
          (items[i].DirItem? ==> d[items[i].dest] == Dir)
          && (items[i].FileItem? ==> d[items[i].dest].Regular?)
          && !items[i].LinkItem?)
    && (forall i, j | 0 <= i < |items| && 0 <= j < |items| && !items[i].DirItem? ::
          !Above(items[i].dest, items[j].dest))
  }

  /** What is found at an item's path once it is in place. */
  ghost predicate InPlace(d0: Files, d: Files, it: Item) {
    match it
    case DirItem(p) => p in d && d[p] == Dir
    case LinkItem(p, t) => p in d && d[p] == Link(t)
    case FileItem(p, data) => p in d && d[p] == Regular(Overwrite(OldData(d0, p), data))
    case NoItem(p) => true
  }

  /** `d'` differs from `d` by the item at `p` and by directories above it. */
  ghost predicate Only(d: Files, d': Files, p: string) {
    && (forall q | q in d && q != p :: q in d' && d'[q] == d[q])
    && (forall q | q in d' && q !in d && q != p :: Above(q, p) && d'[q] == Dir)
  }

  lemma MakeWay(d: Files, p: string)
    requires forall q | q in d && Above(q, p) :: d[q] == Dir
    ensures var d1 := MakeDirs(d, Ancestors(p));
            && Only(d, d1, p) && (p in d1 <==> p in d) && (p in d ==> d1[p] == d[p])
            && forall q | q in Ancestors(p) :: q in d1 && d1[q] == Dir
  {
    forall q ensures q in Ancestors(p) <==> Above(q, p) { AncestorsAbove(p, q); }
    assert !Above(p, p);
  }

  lemma PlaceOne(d: Files, items: seq<Item>)
    requires items != [] && Compatible(d, items)
    ensures var it := items[0];
            && Place(d, it).Done?
            && var d' := Place(d, it).disk;
               Only(d, d', it.dest) && InPlace(d, d', it) && Compatible(d', items[1..])
  {
    var it := items[0];
    var p := it.dest;
    MakeWay(d, p);
    forall q ensures q in Ancestors(p) <==> Above(q, p) { AncestorsAbove(p, q); }
    var d' := Place(d, it).disk;
    assert Only(d, d', p);
    StillCompatible(d, d', items);
  }

  lemma StillCompatible(d: Files, d': Files, items: seq<Item>)
    requires items != [] && Compatible(d, items) && Only(d, d', items[0].dest)
    requires items[0].DirItem? ==> items[0].dest in d' && d'[items[0].dest] == Dir
    ensures Compatible(d', items[1..])
  {
    var rest := items[1..];
    forall i, q | 0 <= i < |rest| && q in d' && Above(q, rest[i].dest) ensures d'[q] == Dir {
      assert rest[i] == items[i + 1];
    }
    forall i | 0 <= i < |rest| && rest[i].dest in d'
      ensures (rest[i].DirItem? ==> d'[rest[i].dest] == Dir)
              && (rest[i].FileItem? ==> d'[rest[i].dest].Regular?) && !rest[i].LinkItem?
    {
      assert rest[i] == items[i + 1];
    }
  }

  /** Compatible items all end up in place, whatever their order; nothing else is disturbed, and nothing
      but directories appears beside them. */
  lemma {:induction false} AllInPlace(d: Files, items: seq<Item>)
    requires Compatible(d, items)
    ensures PlaceAll(d, items).Done?
    ensures var d' := PlaceAll(d, items).disk;
            && (forall i | 0 <= i < |items| :: InPlace(d, d', items[i]))
            && (forall q | q in d && (forall i | 0 <= i < |items| :: items[i].dest != q) :: q in d' && d'[q] == d[q])
            && (forall q | q in d' && q !in d && (forall i | 0 <= i < |items| :: items[i].dest != q) :: d'[q] == Dir)
    decreases |items|
  {
    if items != [] {
      PlaceOne(d, items);
      var d1 := Place(d, items[0]).disk;
      AllInPlace(d1, items[1..]);
      var d' := PlaceAll(d, items).disk;
      assert forall j | 0 <= j < |items[1..]| :: items[1..][j] == items[j + 1];
      forall i | 0 <= i < |items| ensures InPlace(d, d', items[i]) {
        if i > 0 {
          assert items[1..][i - 1] == items[i];
          SameOld(d, d1, items[0].dest, items[i].dest);
        }
      }
      hide PlaceAll, Place, Compatible, Above, InPlace;
    }
  }

  lemma SameOld(d: Files, d1: Files, p: string, q: string)
    requires Only(d, d1, p) && q != p
    ensures OldData(d1, q) == OldData(d, q)
  {}
}
