/** The decoder as it runs: it reads messages, writes files, and rewrites the value it received. */
module FileDecoder {
  import opened Disk
  import opened FileMarshal

  datatype Outcome<V> = Value(doc: Doc<V>) | Error

  /** Writing into a file at an offset no greater than its length. */
  function WriteAt(was: Bytes, off: nat, data: Bytes): Bytes
    requires off <= |was|
  {
    was[..off] + Overwrite(was[off..], data)
  }

  /** Writing in pieces, each where the last ended, amounts to writing everything from the start. */
  lemma WriteOn(was: Bytes, done: Bytes, data: Bytes)
    ensures |done| <= |Overwrite(was, done)|
    ensures WriteAt(Overwrite(was, done), |done|, data) == Overwrite(was, done + data)
  {
    var now := Overwrite(was, done);
    assert now[..|done|] == done;
    if |done| < |was| { assert now[|done|..] == was[|done|..]; } else { assert now[|done|..] == []; }
  }

  // ----- The index of files by name -----

  /** Where a name is found among the first k files. */
  function Places(files: seq<File>, k: nat, name: string): (r: seq<nat>)
    requires k <= |files|
    ensures forall i | 0 <= i < |r| :: r[i] < k
    ensures forall j :: j in r <==> 0 <= j < k && files[j].currentName == name
    ensures if First(files, name) < k then r != [] && r[0] == First(files, name) else r == []
  {
    if k == 0 then []
    else Places(files, k - 1, name) + if files[k - 1].currentName == name then [k - 1] else []
  }

  ghost predicate Indexed(files: seq<File>, k: nat, table: map<string, seq<nat>>)
    requires k <= |files|
  {
    forall n: string :: (n in table <==> n != "" && First(files, n) < k)
                        && (n in table ==> table[n] == Places(files, k, n))
  }

  lemma IndexNone(files: seq<File>)
    ensures Indexed(files, 0, map[])
  {}

  method IndexFiles(files: seq<File>) returns (table: map<string, seq<nat>>)
    ensures Indexed(files, |files|, table)
  {
    hide *;
    table := map[];
    IndexNone(files);
    for k := 0 to |files|
      invariant Indexed(files, k, table)
    {
      var n := files[k].currentName;
      IndexOne(files, k, table, if n in table then table[n] else []);
      if n != "" {
        var same := if n in table then table[n] else [];
        table := table[n := same + [k]];
      }
    }
  }

  lemma IndexOne(files: seq<File>, k: nat, table: map<string, seq<nat>>, same: seq<nat>)
    requires k < |files| && Indexed(files, k, table)
    requires var n := files[k].currentName; same == if n in table then table[n] else []
    ensures var n := files[k].currentName;
            Indexed(files, k + 1, if n == "" then table else table[n := same + [k]])
  {
    hide First, Places;
    var n := files[k].currentName;
    var table' := if n == "" then table else table[n := same + [k]];
    forall m: string ensures (m in table' <==> m != "" && First(files, m) < k + 1)
                             && (m in table' ==> table'[m] == Places(files, k + 1, m))
    {
      PlacesStep(files, k, m);
      assert (m in table <==> m != "" && First(files, m) < k) && (m in table ==> table[m] == Places(files, k, m));
    }
  }

  lemma PlacesStep(files: seq<File>, k: nat, m: string)
    requires k < |files|
    ensures var n := files[k].currentName;
            && Places(files, k + 1, m) == (if n == m then Places(files, k, m) + [k] else Places(files, k, m))
            && (First(files, m) < k + 1 <==> First(files, m) < k || n == m)
            && (First(files, m) >= k ==> Places(files, k, m) == [])
  {}

  lemma {:induction false} SamePlaces(files: seq<File>, files': seq<File>, k: nat, name: string)
    requires |files'| == |files| && k <= |files|
    requires forall i | 0 <= i < |files| :: files'[i].currentName == files[i].currentName
    ensures Places(files', k, name) == Places(files, k, name) && First(files', name) == First(files, name)
  {
    assert !(First(files', name) < First(files, name)) && !(First(files, name) < First(files', name));
    if k > 0 { SamePlaces(files, files', k - 1, name); }
  }

  lemma StillIndexed(files: seq<File>, files': seq<File>, table: map<string, seq<nat>>)
    requires Indexed(files, |files|, table) && |files'| == |files|
    requires forall i | 0 <= i < |files| :: files'[i].currentName == files[i].currentName
    ensures Indexed(files', |files'|, table)
  {
    forall n: string
      ensures Places(files', |files|, n) == Places(files, |files|, n) && First(files', n) == First(files, n)
    {
      SamePlaces(files, files', |files|, n);
    }
  }

  /** The first file, perhaps changed, is copied over the later ones of its name. */
  method CopyOver(files: seq<File>, name: string, same: seq<nat>, f: File) returns (r: seq<File>)
    requires same == Places(files, |files|, name) && same != []
    ensures r == Alias(files, name, f)
  {
    r := files[same[0] := f];
    for k := 1 to |same|
      invariant |r| == |files|
      invariant forall j | 0 <= j < |files| :: r[j] == if j in same[..k] then f else files[j]
    {
      r := r[same[k] := f];
      assert same[..k + 1] == same[..k] + [same[k]];
    }
    assert same[..|same|] == same;
  }

  lemma IndexedAt(files: seq<File>, table: map<string, seq<nat>>, name: string)
    requires Indexed(files, |files|, table)
    ensures name in table <==> name != "" && First(files, name) < |files|
    ensures name in table ==> table[name] == Places(files, |files|, name)
                              && table[name] != [] && table[name][0] == First(files, name) < |files|
  {}

  lemma AliasNames(files: seq<File>, name: string, f: File)
    requires f.currentName == name
    ensures var r := Alias(files, name, f);
            |r| == |files| && forall i | 0 <= i < |files| :: r[i].currentName == files[i].currentName
  {}

  /** What reading yields in the end if `done` has been read before `inp`. */
  ghost function After<V>(done: Bytes, inp: seq<Msg<V>>): Taken<V> {
    Take(inp).(data := done + Take(inp).data)
  }

  lemma TakeStep<V>(done: Bytes, inp: seq<Msg<V>>)
    ensures After(done, inp) ==
            if inp == [] then Taken(false, done, [])
            else if !inp[0].Chunk? then Taken(false, done, inp[1..])
            else if inp[0].data == [] then Taken(true, done, inp[1..])
            else After(done + inp[0].data, inp[1..])
  {
    assert done + [] == done;
    if inp != [] && inp[0].Chunk? {
      var rest := Take(inp[1..]).data;
      assert done + (inp[0].data + rest) == (done + inp[0].data) + rest;
    }
  }

  class Decoder<V> {
    const root: string
    var inp: seq<Msg<V>>
    var disk: Files

    constructor (root: string, inp: seq<Msg<V>>, disk: Files)
      ensures this.root == root && this.inp == inp && this.disk == disk
    {
      this.root, this.inp, this.disk := root, inp, disk;
    }

    /** Reading chunks into an opened file until an empty one comes, or the stream breaks off. */
    method ReadInto(dest: string) returns (ok: bool)
      requires dest in disk ==> disk[dest].Regular?
      modifies this
      ensures var t := Take(old(inp));
              && ok == t.whole && inp == t.rest
              && disk == old(disk)[dest := Regular(Overwrite(OldData(old(disk), dest), t.data))]
      ensures Survives(old(disk), disk)
    {
      ghost var was := OldData(disk, dest);
      ghost var done: Bytes := [];
      if dest !in disk { disk := disk[dest := Regular([])]; }
      assert Overwrite(was, []) == was by { assert was[0..] == was; }
      var off := 0;
      assert [] + Take(inp).data == Take(inp).data;
      hide Overwrite, WriteAt, Take;
      while true
        invariant off == |done| && dest in disk && disk[dest] == Regular(Overwrite(was, done))
        invariant disk == old(disk)[dest := disk[dest]]
        invariant Take(old(inp)) == After(done, inp)
        decreases |inp|
      {
        TakeStep(done, inp);
        if inp == [] { return false; }
        var m := inp[0];
        inp := inp[1..];
        if !m.Chunk? { return false; }
        if m.data == [] { return true; }
        WriteOn(was, done, m.data);
        disk := disk[dest := Regular(WriteAt(disk[dest].data, off, m.data))];
        off := off + |m.data|;
        done := done + m.data;
      }
    }

    method PlaceFile(file: File) returns (ok: bool, f: File)
      modifies this
      ensures One(ok, f, disk, inp) == ReceiveFile(root, old(disk), file, old(inp)) && f.currentName == file.currentName
      ensures Survives(old(disk), disk)
    {
      ReceiveOneSurvives(root, disk, file, inp);
      f := file;
      var dest := root + f.destName;
      if f.ftype == 1 {
        disk := Place(disk, DirItem(dest)).disk;
      } else if f.ftype == 2 {
        if f.symlinkTarget == "" { return false, f; }
        f := f.(symlinkTarget := Rooted(root, f.symlinkTarget));
        disk := Place(disk, LinkItem(dest, f.symlinkTarget)).disk;
      } else if f.ftype == 0 {
        disk := MakeDirs(disk, Ancestors(dest));
        if !CanOpen(disk, dest) { return false, f; }
        ok := ReadInto(dest);
        return ok, f;
      }
      ok := true;
    }

    method Decode() returns (r: Outcome<V>)
      modifies this
      ensures match DecodeSpec(root, old(disk), old(inp))
              case Received(doc, d, rest) => r == Value(doc) && disk == d && inp == rest
              case Refused(d, rest) => r == Error && disk == d && inp == rest
      ensures forall q | q in old(disk) ::
                q in disk && if old(disk)[q].Regular? then disk[q].Regular? else disk[q] == old(disk)[q]
    {
      DecodeSurvives(root, disk, inp);
      if inp == [] { return Error; }
      var m := inp[0];
      inp := inp[1..];
      if !m.ValueMsg? { return Error; }
      if inp == [] { return Error; }
      var l := inp[0];
      inp := inp[1..];
      if !l.NamesMsg? { return Error; }
      assert inp == old(inp)[2..];
      var ok, files := PlaceFiles(m.doc.files, l.names);
      r := if ok then Value(Doc(m.doc.body, files)) else Error;
    }

    method PlaceFiles(sent: seq<File>, names: seq<string>) returns (ok: bool, files: seq<File>)
      modifies this
      ensures match ReceiveFiles(root, old(disk), sent, names, old(inp))
              case Accepted(fs, d, rest) => ok && files == fs && disk == d && inp == rest
              case Rejected(d, rest) => !ok && disk == d && inp == rest
    {
      files := sent;
      var table := IndexFiles(files);
      ghost var goal := ReceiveFiles(root, disk, files, names, inp);
      assert names[0..] == names;
      hide *;
      for k := 0 to |names|
        invariant Indexed(files, |files|, table)
        invariant goal == ReceiveFiles(root, disk, files, names[k..], inp)
      {
        ReceiveStep(root, disk, files, names, k, inp);
        var name := names[k];
        IndexedAt(files, table, name);
        if name in table {
          var same := table[name];
          var one, f := PlaceFile(files[same[0]]);
          if !one { return false, files; }
          ghost var was := files;
          files := CopyOver(files, name, same, f);
          AliasNames(was, name, f);
          StillIndexed(was, files, table);
        }
      }
      ReceiveEnd(root, disk, files, names, inp);
      ok := true;
    }
  }
}
