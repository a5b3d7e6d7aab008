/** The self-delimiting stream: a value, the names of the files in it, and the files' contents. */
module FileMarshal {
  import opened Disk

  datatype File = File(currentName: string, destName: string, symlinkTarget: string, ftype: int)

  /** A value that is sent, with the files that walking it finds, in walking order. */
  datatype Doc<V> = Doc(body: V, files: seq<File>)

  datatype Msg<V> = ValueMsg(doc: Doc<V>) | NamesMsg(names: seq<string>) | Chunk(data: Bytes)

  const BUFFER := 8192

  // ----- The names in a value -----

  function NamesOf(files: seq<File>, seen: set<string>): seq<string> {
    if files == [] then []
    else
      var n := files[0].currentName;
      if n != "" && n !in seen then [n] + NamesOf(files[1..], seen + {n}) else NamesOf(files[1..], seen)
  }

  /** The place of the first file of that name, or the number of files if there is none. */
  function First(files: seq<File>, name: string): (i: nat)
    ensures i <= |files| && (i < |files| ==> files[i].currentName == name)
    ensures forall j | 0 <= j < i :: files[j].currentName != name
  {
    if files == [] then 0 else if files[0].currentName == name then 0 else 1 + First(files[1..], name)
  }

  lemma {:induction false} NamesOfHas(files: seq<File>, seen: set<string>, n: string)
    ensures multiset(NamesOf(files, seen))[n] ==
            if n != "" && n !in seen && (exists i :: 0 <= i < |files| && files[i].currentName == n) then 1 else 0
  {
    if files != [] {
      var m := files[0].currentName;
      if m != "" && m !in seen { NamesOfHas(files[1..], seen + {m}, n); } else { NamesOfHas(files[1..], seen, n); }
      if exists i :: 0 <= i < |files| && files[i].currentName == n {
        var i :| 0 <= i < |files| && files[i].currentName == n;
        assert i == 0 || files[1..][i - 1].currentName == n;
      }
      if i :| 0 <= i < |files[1..]| && files[1..][i].currentName == n { assert files[i + 1].currentName == n; }
    }
  }

  lemma NamesStep(files: seq<File>, k: nat, seen: set<string>)
    requires k < |files|
    ensures var n := files[k].currentName;
            NamesOf(files[k..], seen) ==
            if n != "" && n !in seen then [n] + NamesOf(files[k + 1..], seen + {n}) else NamesOf(files[k + 1..], seen)
  {
    assert files[k..][0] == files[k] && files[k..][1..] == files[k + 1..];
  }

  /** `names` are the names among the first k files; the rest completes them. */
  ghost predicate Collected(files: seq<File>, k: nat, names: seq<string>)
    requires k <= |files|
  {
    && NamesOf(files, {}) == names + NamesOf(files[k..], set n | n in names)
    && forall j | 0 <= j < k && files[j].currentName != "" :: files[j].currentName in names
  }

  lemma StartNames(files: seq<File>)
    ensures Collected(files, 0, [])
  {
    var names: seq<string> := [];
    var none := set n | n in names;
    assert none == {} && files[0..] == files && names + NamesOf(files, {}) == NamesOf(files, {});
  }

  lemma StepNames(files: seq<File>, k: nat, names: seq<string>)
    requires k < |files| && Collected(files, k, names)
    ensures var n := files[k].currentName;
            if n != "" && n !in names then Collected(files, k + 1, names + [n]) && First(files, n) == k
            else Collected(files, k + 1, names)
  {
    hide NamesOf, First;
    var n := files[k].currentName;
    var was := set m | m in names;
    NamesStep(files, k, was);
    if n != "" && n !in names {
      var more := names + [n];
      var now := set m | m in more;
      assert now == was + {n};
      var rest := NamesOf(files[k + 1..], now);
      assert names + ([n] + rest) == more + rest;
    }
  }

  /** The encoder collects the names, and the first file of each, in a map and a list. */
  method CollectNames(files: seq<File>) returns (names: seq<string>, table: map<string, File>)
    ensures names == NamesOf(files, {})
    ensures forall n :: n in table <==> n in names
    ensures forall n | n in table :: First(files, n) < |files| && table[n] == files[First(files, n)]
  {
    names, table := [], map[];
    StartNames(files);
    for k := 0 to |files|
      invariant Collected(files, k, names)
      invariant forall n :: n in table <==> n in names
      invariant forall n | n in table :: First(files, n) < k && table[n] == files[First(files, n)]
    {
      hide NamesOf, Collected, First;
      StepNames(files, k, names);
      var f := files[k];
      if f.currentName != "" && f.currentName !in table {
        names := names + [f.currentName];
        table := table[f.currentName := f];
      }
    }
    assert names + [] == names;
  }

  // ----- Chunks -----

  function Min(a: int, b: int): int {
    if a < b then a else b
  }

  function Chunks(data: Bytes): seq<Bytes> {
    if data == [] then [] else [data[..Min(BUFFER, |data|)]] + Chunks(data[Min(BUFFER, |data|)..])
  }

  function Flatten(chunks: seq<Bytes>): Bytes {
    if chunks == [] then [] else chunks[0] + Flatten(chunks[1..])
  }

  /** Chunks make up the file; all but the last have 8192 bytes, and that one has some. */
  lemma {:induction false} ChunksFit(data: Bytes)
    ensures Flatten(Chunks(data)) == data
    ensures forall i | 0 <= i < |Chunks(data)| ::
              0 < |Chunks(data)[i]| <= 8192 && (i < |Chunks(data)| - 1 ==> |Chunks(data)[i]| == 8192)
  {
    if data != [] {
      var n := Min(BUFFER, |data|);
      ChunksFit(data[n..]);
      assert data[..n] + data[n..] == data;
    }
  }

  function ChunkMsgs<V>(chunks: seq<Bytes>): seq<Msg<V>> {
    if chunks == [] then [] else [Chunk(chunks[0])] + ChunkMsgs(chunks[1..])
  }

  /** The contents of one file on the stream, closed by an empty chunk. */
  function FileMsgs<V>(data: Bytes): seq<Msg<V>> {
    ChunkMsgs(Chunks(data)) + [Chunk([])]
  }

  /** What reading one file's chunks yields; `whole` if its empty chunk was reached. */
  datatype Taken<V> = Taken(whole: bool, data: Bytes, rest: seq<Msg<V>>)

  /** Reading chunks up to the first empty one. */
  function Take<V>(inp: seq<Msg<V>>): Taken<V> {
    if inp == [] then Taken(false, [], [])
    else if !inp[0].Chunk? then Taken(false, [], inp[1..])
    else if inp[0].data == [] then Taken(true, [], inp[1..])
    else var t := Take(inp[1..]); t.(data := inp[0].data + t.data)
  }

  lemma {:induction false} TakeChunks<V>(chunks: seq<Bytes>, tail: seq<Msg<V>>)
    requires forall i | 0 <= i < |chunks| :: chunks[i] != []
    ensures Take(ChunkMsgs(chunks) + [Chunk([])] + tail) == Taken(true, Flatten(chunks), tail)
  {
    var inp := ChunkMsgs<V>(chunks) + [Chunk([])] + tail;
    if chunks == [] {
      assert inp[1..] == tail;
    } else {
      TakeChunks(chunks[1..], tail);
      assert inp[1..] == ChunkMsgs<V>(chunks[1..]) + [Chunk([])] + tail;
    }
  }

  /** The terminator is unambiguous: a file's chunks are read back whole, and nothing after them. */
  lemma TakeFile<V>(data: Bytes, tail: seq<Msg<V>>)
    ensures Take(FileMsgs(data) + tail) == Taken(true, data, tail)
  {
    ChunksFit(data);
    TakeChunks(Chunks(data), tail);
  }

  /** The stream holds the contents of a file first, and the empty chunk after it is the k-th message. */
  ghost predicate Terminated<V>(inp: seq<Msg<V>>, k: nat) {
    k < |inp| && inp[k] == Chunk([]) && forall j | 0 <= j < k :: inp[j].Chunk? && inp[j].data != []
  }

  /** A file is read whole exactly if its empty chunk comes before anything else, and then up to that chunk. */
  lemma {:induction false} TakeExact<V>(inp: seq<Msg<V>>)
    ensures Take(inp).whole <==> exists k: nat :: Terminated(inp, k)
    ensures forall k: nat | Terminated(inp, k) :: Take(inp).rest == inp[k + 1..]
    ensures |Take(inp).rest| <= |inp| && Take(inp).rest == inp[|inp| - |Take(inp).rest|..]
  {
    if inp != [] && inp[0].Chunk? && inp[0].data != [] {
      var more := inp[1..];
      TakeExact(more);
      forall k: nat | Terminated(inp, k) ensures k > 0 && Terminated(more, k - 1) && inp[k + 1..] == more[k..] {}
      forall k: nat | Terminated(more, k) ensures Terminated(inp, k + 1) {
        assert forall j | 0 < j <= k :: inp[j] == more[j - 1];
      }
    } else if inp != [] && inp[0] == Chunk([]) {
      assert Terminated(inp, 0);
    }
  }

  // ----- Encoding -----

  datatype Content = NoFile | Content(data: Bytes)

  /** Opening a file and reading it to the end; a directory opens but yields nothing. */
  function Read(d: Files, p: string): Content {
    if p !in d then NoFile
    else match d[p] case Regular(b) => Content(b) case Dir => Content([]) case Link(_) => NoFile
  }

  datatype Sent<V> = Sent(ok: bool, msgs: seq<Msg<V>>)

  function SendFiles<V>(d: Files, files: seq<File>, names: seq<string>): Sent<V> {
    if names == [] then Sent(true, [])
    else
      var i := First(files, names[0]);
      if i < |files| && files[i].ftype == 0 then
        match Read(d, files[i].currentName)
        case NoFile => Sent(false, [])
        case Content(b) =>
          var more := SendFiles(d, files, names[1..]);
          Sent(more.ok, FileMsgs(b) + more.msgs)
      else SendFiles(d, files, names[1..])
  }

  function EncodeSpec<V>(d: Files, doc: Doc<V>): Sent<V> {
    var names := NamesOf(doc.files, {});
    var s := SendFiles(d, doc.files, names);
    Sent(s.ok, [ValueMsg(doc), NamesMsg(names)] + s.msgs)
  }

  /** What is sent under the name `n` can be read. */
  predicate CanSend(d: Files, files: seq<File>, n: string) {
    var i := First(files, n);
    i < |files| && files[i].ftype == 0 ==> files[i].currentName in d && !d[files[i].currentName].Link?
  }

  lemma {:induction false} SendsIff<V>(d: Files, files: seq<File>, names: seq<string>)
    ensures SendFiles<V>(d, files, names).ok <==> forall n | n in names :: CanSend(d, files, n)
  {
    if names != [] {
      SendsIff<V>(d, files, names[1..]);
      assert names == [names[0]] + names[1..];
      assert CanSend(d, files, names[0]) || names[0] in names;
      hide First;
    }
  }

  /** A file that no earlier file shares its name with. */
  predicate NamedFirst(files: seq<File>, i: nat)
    requires i < |files|
  {
    files[i].currentName != "" && forall j | 0 <= j < i :: files[j].currentName != files[i].currentName
  }

  /** Encoding succeeds exactly if every regular file that is the first of its name can be read. */
  lemma EncodesIff<V>(d: Files, doc: Doc<V>)
    ensures EncodeSpec(d, doc).ok <==>
            forall i | 0 <= i < |doc.files| && NamedFirst(doc.files, i) && doc.files[i].ftype == 0 ::
              doc.files[i].currentName in d && !d[doc.files[i].currentName].Link?
  {
    var files, names := doc.files, NamesOf(doc.files, {});
    SendsIff<V>(d, files, names);
    forall i | 0 <= i < |files| && NamedFirst(files, i)
      ensures files[i].currentName in names && First(files, files[i].currentName) == i
    {
      NamesOfHas(files, {}, files[i].currentName);
      var k := First(files, files[i].currentName);
      assert !(k < i) && !(i < k);
    }
    forall n | n in names ensures First(files, n) < |files| && NamedFirst(files, First(files, n)) {
      NamesOfHas(files, {}, n);
    }
    hide NamesOf, SendFiles, First, NamedFirst;
  }

  /** The names come in the order in which they first occur. */
  lemma {:induction false} NamesOrder(files: seq<File>, seen: set<string>, i: nat, j: nat)
    requires i < j < |NamesOf(files, seen)|
    ensures First(files, NamesOf(files, seen)[i]) < First(files, NamesOf(files, seen)[j])
  {
    var n := files[0].currentName;
    var names := NamesOf(files, seen);
    if n != "" && n !in seen {
      NamesOfHas(files[1..], seen + {n}, names[j]);
      assert names[j] in NamesOf(files[1..], seen + {n});
      if i > 0 {
        NamesOfHas(files[1..], seen + {n}, names[i]);
        assert names[i] in NamesOf(files[1..], seen + {n});
        NamesOrder(files[1..], seen + {n}, i - 1, j - 1);
      }
    } else {
      NamesOfHas(files[1..], seen, names[i]);
      NamesOfHas(files[1..], seen, names[j]);
      assert names[i] in names && names[j] in names;
      NamesOrder(files[1..], seen, i, j);
    }
  }

  /** The encoder, writing to the message stream under it. */
  class Encoder<V> {
    var out: seq<Msg<V>>

    constructor ()
      ensures out == []
    {
      out := [];
    }

    /** The read loop: a read at the end of the file yields nothing and ends it. */
    method SendFile(data: Bytes)
      modifies this
      ensures out == old(out) + FileMsgs(data)
    {
      var off := 0;
      while true
        invariant 0 <= off <= |data|
        invariant out + ChunkMsgs(Chunks(data[off..])) == old(out) + ChunkMsgs(Chunks(data))
        decreases |data| - off
      {
        var n := Min(BUFFER, |data| - off);
        ghost var rest := data[off..];
        if n > 0 {
          assert rest[..Min(BUFFER, |rest|)] == data[off..off + n];
          assert rest[Min(BUFFER, |rest|)..] == data[off + n..];
          assert out + ([Chunk(data[off..off + n])] + ChunkMsgs<V>(Chunks(data[off + n..])))
              == (out + [Chunk(data[off..off + n])]) + ChunkMsgs<V>(Chunks(data[off + n..]));
          out := out + [Chunk(data[off..off + n])];
        }
        if n == 0 {
          assert rest == [] && out + [] == out;
          break;
        }
        off := off + n;
      }
      out := out + [Chunk([])];
    }

    method Encode(d: Files, x: Doc<V>) returns (ok: bool)
      modifies this
      ensures ok == EncodeSpec(d, x).ok && out == old(out) + EncodeSpec(d, x).msgs
      ensures old(out) + [ValueMsg(x), NamesMsg(NamesOf(x.files, {}))] <= out
    {
      out := out + [ValueMsg(x)];
      var names, table := CollectNames(x.files);
      out := out + [NamesMsg(names)];
      ghost var start := out;
      StartSend(d, x.files, names, out);
      hide *;
      for k := 0 to |names|
        invariant Progress(d, x.files, names, k, start, out)
      {
        StepSend(d, x.files, names, k, start, out);
        assert names[k] in names;
        var f := table[names[k]];
        if f.ftype != 0 { continue; }
        var c := Read(d, f.currentName);
        if c.NoFile? {
          Sums(d, x, old(out), start, out);
          return false;
        }
        SendFile(c.data);
      }
      EndSend(d, x.files, names, start, out);
      Sums(d, x, old(out), start, out);
      ok := true;
    }
  }

  /** What is still to be sent from the k-th name on completes what has been sent since `start`. */
  ghost predicate Progress<V>(d: Files, files: seq<File>, names: seq<string>, k: nat,
                              start: seq<Msg<V>>, out: seq<Msg<V>>)
    requires k <= |names|
  {
    var all, rest := SendFiles<V>(d, files, names), SendFiles<V>(d, files, names[k..]);
    start + all.msgs == out + rest.msgs && all.ok == rest.ok
  }

  lemma Sums<V>(d: Files, x: Doc<V>, before: seq<Msg<V>>, start: seq<Msg<V>>, out: seq<Msg<V>>)
    requires start == before + [ValueMsg(x)] + [NamesMsg(NamesOf(x.files, {}))]
    requires out == start + SendFiles<V>(d, x.files, NamesOf(x.files, {})).msgs
    ensures out == before + EncodeSpec(d, x).msgs
    ensures EncodeSpec(d, x).ok == SendFiles<V>(d, x.files, NamesOf(x.files, {})).ok
  {}

  lemma StartSend<V>(d: Files, files: seq<File>, names: seq<string>, out: seq<Msg<V>>)
    ensures Progress(d, files, names, 0, out, out)
  {
    assert names[0..] == names;
  }

  lemma StepSend<V>(d: Files, files: seq<File>, names: seq<string>, k: nat, start: seq<Msg<V>>, out: seq<Msg<V>>)
    requires k < |names| && Progress(d, files, names, k, start, out)
    ensures First(files, names[k]) < |files| ==>
              var f := files[First(files, names[k])];
              var c := Read(d, f.currentName);
              if f.ftype != 0 then Progress(d, files, names, k + 1, start, out)
              else match c
                   case NoFile => !SendFiles<V>(d, files, names).ok && out == start + SendFiles<V>(d, files, names).msgs
                   case Content(b) => Progress(d, files, names, k + 1, start, out + FileMsgs(b))
  {
    assert names[k..][0] == names[k] && names[k..][1..] == names[k + 1..];
    var i := First(files, names[k]);
    if i < |files| && files[i].ftype == 0 {
      var c := Read(d, files[i].currentName);
      if c.Content? {
        var more := SendFiles<V>(d, files, names[k + 1..]);
        assert out + (FileMsgs(c.data) + more.msgs) == (out + FileMsgs(c.data)) + more.msgs;
      } else {
        assert out + [] == out;
      }
    }
  }

  lemma EndSend<V>(d: Files, files: seq<File>, names: seq<string>, start: seq<Msg<V>>, out: seq<Msg<V>>)
    requires Progress(d, files, names, |names|, start, out)
    ensures SendFiles<V>(d, files, names).ok && out == start + SendFiles<V>(d, files, names).msgs
  {
    assert out + [] == out;
  }

  // ----- Decoding -----

  /** An absolute link target is moved under the destination root. */
  function Rooted(root: string, target: string): string {
    if target != "" && target[0] == '/' then root + target else target
  }

  /** Overwriting every later file of the same name with the first. */
  function Alias(files: seq<File>, name: string, f: File): (r: seq<File>)
    ensures |r| == |files|
  {
    seq(|files|, j requires 0 <= j < |files| => if files[j].currentName == name then f else files[j])
  }

  datatype Got<V> = Accepted(files: seq<File>, disk: Files, rest: seq<Msg<V>>)
                  | Rejected(disk: Files, rest: seq<Msg<V>>)

  datatype One<V> = One(ok: bool, file: File, disk: Files, rest: seq<Msg<V>>)

  /** Putting one file in place, with its chunks if it is regular. */
  function ReceiveFile<V>(root: string, d: Files, f: File, inp: seq<Msg<V>>): One<V> {
    var dest := root + f.destName;
    if f.ftype == 1 then One(true, f, Place(d, DirItem(dest)).disk, inp)
    else if f.ftype == 2 then
      if f.symlinkTarget == "" then One(false, f, d, inp)
      else
        var g := f.(symlinkTarget := Rooted(root, f.symlinkTarget));
        One(true, g, Place(d, LinkItem(dest, g.symlinkTarget)).disk, inp)
    else if f.ftype == 0 then
      if !CanOpen(MakeDirs(d, Ancestors(dest)), dest) then One(false, f, MakeDirs(d, Ancestors(dest)), inp)
      else
        var t := Take(inp);
        One(t.whole, f, Place(d, FileItem(dest, t.data)).disk, t.rest)
    else One(true, f, d, inp)
  }

  function ReceiveFiles<V>(root: string, d: Files, files: seq<File>, names: seq<string>, inp: seq<Msg<V>>): Got<V>
    decreases |names|
  {
    if names == [] then Accepted(files, d, inp)
    else
      var i := First(files, names[0]);
      if names[0] == "" || i == |files| then ReceiveFiles(root, d, files, names[1..], inp)
      else
        var o := ReceiveFile(root, d, files[i], inp);
        if o.ok then ReceiveFiles(root, o.disk, Alias(files, names[0], o.file), names[1..], o.rest)
        else Rejected(o.disk, o.rest)
  }

  lemma ReceiveStep<V>(root: string, d: Files, files: seq<File>, names: seq<string>, k: nat, inp: seq<Msg<V>>)
    requires k < |names|
    ensures var i := First(files, names[k]);
            ReceiveFiles(root, d, files, names[k..], inp) ==
            if names[k] == "" || i == |files| then ReceiveFiles(root, d, files, names[k + 1..], inp)
            else
              var o := ReceiveFile(root, d, files[i], inp);
              if o.ok then ReceiveFiles(root, o.disk, Alias(files, names[k], o.file), names[k + 1..], o.rest)
              else Rejected(o.disk, o.rest)
  {
    assert names[k..][0] == names[k] && names[k..][1..] == names[k + 1..];
  }

  lemma ReceiveEnd<V>(root: string, d: Files, files: seq<File>, names: seq<string>, inp: seq<Msg<V>>)
    ensures ReceiveFiles(root, d, files, names[|names|..], inp) == Accepted(files, d, inp)
  {}

  datatype Received<V> = Received(doc: Doc<V>, disk: Files, rest: seq<Msg<V>>)
                       | Refused(disk: Files, rest: seq<Msg<V>>)

  function DecodeSpec<V>(root: string, d: Files, inp: seq<Msg<V>>): Received<V> {
    if inp == [] || !inp[0].ValueMsg? then Refused(d, if inp == [] then [] else inp[1..])
    else if |inp| == 1 || !inp[1].NamesMsg? then Refused(d, if |inp| == 1 then [] else inp[2..])
    else match ReceiveFiles(root, d, inp[0].doc.files, inp[1].names, inp[2..])
      case Rejected(d', r) => Refused(d', r)
      case Accepted(fs, d', r) => Received(Doc(inp[0].doc.body, fs), d', r)
  }

  // ----- What decoding does to a disk -----

  lemma ReceiveOneSurvives<V>(root: string, d: Files, f: File, inp: seq<Msg<V>>)
    ensures Survives(d, ReceiveFile(root, d, f, inp).disk)
  {
    var dest := root + f.destName;
    hide Place, Take;
    PlaceSurvives(d, DirItem(dest));
    PlaceSurvives(d, LinkItem(dest, Rooted(root, f.symlinkTarget)));
    PlaceSurvives(d, FileItem(dest, Take(inp).data));
    hide Ancestors;
  }

  lemma {:induction false} ReceiveSurvives<V>(root: string, d: Files, files: seq<File>, names: seq<string>,
                                             inp: seq<Msg<V>>)
    ensures Survives(d, ReceiveFiles(root, d, files, names, inp).disk)
    decreases |names|
  {
    hide ReceiveFile, Survives;
    SurvivesStill(d);
    if names != [] {
      var i := First(files, names[0]);
      if names[0] == "" || i == |files| {
        ReceiveSurvives(root, d, files, names[1..], inp);
      } else {
        var o := ReceiveFile(root, d, files[i], inp);
        ReceiveOneSurvives(root, d, files[i], inp);
        if o.ok {
          ReceiveSurvives(root, o.disk, Alias(files, names[0], o.file), names[1..], o.rest);
          SurvivesOn(d, o.disk, ReceiveFiles(root, d, files, names, inp).disk);
        }
      }
    }
  }

  lemma SurvivesStill(d: Files)
    ensures Survives(d, d)
  {}

  /** Whatever is sent, and whether it is accepted or refused: every directory and every link that was there
      is there as it was, and every file is still a file. */
  lemma DecodeSurvives<V>(root: string, d: Files, inp: seq<Msg<V>>)
    ensures forall q | q in d ::
              var d' := DecodeSpec(root, d, inp).disk;
              q in d' && if d[q].Regular? then d'[q].Regular? else d'[q] == d[q]
  {
    SurvivesStill(d);
    if |inp| > 1 && inp[0].ValueMsg? && inp[1].NamesMsg? {
      ReceiveSurvives(root, d, inp[0].doc.files, inp[1].names, inp[2..]);
    }
    hide ReceiveFiles;
  }

  /** A value is only accepted if each of its named regular files could be opened, and was read up to its end;
      and if each of its named links has a target. */
  lemma {:induction false} AcceptedHas<V>(root: string, d: Files, files: seq<File>, names: seq<string>,
                                         inp: seq<Msg<V>>, k: nat)
    requires k < |names| && names[k] != "" && names[k] !in names[..k] && First(files, names[k]) < |files|
    requires ReceiveFiles(root, d, files, names, inp).Accepted?
    ensures var f, d' := files[First(files, names[k])], ReceiveFiles(root, d, files, names, inp).disk;
            && (f.ftype == 0 ==> root + f.destName in d' && d'[root + f.destName].Regular?)
            && (f.ftype == 2 ==> f.symlinkTarget != "")
    decreases k
  {
    hide Place, Take;
    var i := First(files, names[0]);
    if k == 0 {
      var o := ReceiveFile(root, d, files[i], inp);
      if files[i].ftype == 0 {
        PlaceExact(d, FileItem(root + files[i].destName, Take(inp).data), root + files[i].destName);
        CanOpenFresh(d, root + files[i].destName, Take(inp).data);
      }
      ReceiveSurvives(root, o.disk, Alias(files, names[0], o.file), names[1..], o.rest);
      hide ReceiveFile;
    } else {
      assert names[1..][k - 1] == names[k] && names[0] == names[..k][0];
      assert forall x | x in names[1..][..k - 1] :: x in names[..k];
      if names[0] == "" || i == |files| {
        AcceptedHas(root, d, files, names[1..], inp, k - 1);
      } else {
        var o := ReceiveFile(root, d, files[i], inp);
        AliasFirst(files, names[0], o.file, names[k]);
        AcceptedHas(root, o.disk, Alias(files, names[0], o.file), names[1..], o.rest, k - 1);
      }
    }
  }

  lemma CanOpenFresh(d: Files, p: string, data: Bytes)
    ensures CanOpen(MakeDirs(d, Ancestors(p)), p) <==> Fresh(d, FileItem(p, data))
  {
    forall x ensures x in Ancestors(p) <==> Above(x, p) { AncestorsAbove(p, x); }
    assert !Above(p, p);
    hide Above, Ancestors;
  }

  /** What one listed file does, by its type. */
  lemma ReceivesExactly<V>(root: string, d: Files, f: File, inp: seq<Msg<V>>)
    ensures var o, p := ReceiveFile(root, d, f, inp), root + f.destName;
            && (o.ok <==> (f.ftype == 2 ==> f.symlinkTarget != "") &&
                          (f.ftype == 0 ==> Fresh(d, FileItem(p, [])) && exists k: nat :: Terminated(inp, k)))
            && (f.ftype != 0 || !Fresh(d, FileItem(p, [])) ==> o.rest == inp)
            && (f.ftype == 2 && o.ok ==>
                  o.file == f.(symlinkTarget := if f.symlinkTarget[0] == '/' then root + f.symlinkTarget
                                                else f.symlinkTarget))
            && (f.ftype != 2 ==> o.file == f)
  {
    hide Place, Take, MakeDirs;
    CanOpenFresh(d, root + f.destName, []);
    TakeExact(inp);
  }

  // ----- Decoding what was encoded -----

  /** What the first file of a name puts on the receiver's disk. */
  function ItemOf(src: Files, root: string, f: File): Item {
    var dest := root + f.destName;
    if f.ftype == 0 then FileItem(dest, match Read(src, f.currentName) case NoFile => [] case Content(b) => b)
    else if f.ftype == 1 then DirItem(dest)
    else if f.ftype == 2 then LinkItem(dest, Rooted(root, f.symlinkTarget))
    else NoItem(dest)
  }

  function ItemsOf(src: Files, root: string, files: seq<File>, names: seq<string>): seq<Item> {
    if names == [] then []
    else
      var i := First(files, names[0]);
      (if i < |files| then [ItemOf(src, root, files[i])] else []) + ItemsOf(src, root, files, names[1..])
  }

  /** How decoding rewrites a file in memory. */
  function Rewritten(root: string, f: File): File {
    if f.ftype == 2 then f.(symlinkTarget := Rooted(root, f.symlinkTarget)) else f
  }

  /** Every file of a listed name becomes the rewritten first file of that name. */
  function RewriteAll(root: string, files: seq<File>, names: seq<string>): seq<File>
    decreases |names|
  {
    if names == [] then files
    else
      var i := First(files, names[0]);
      RewriteAll(root, if i < |files| then Alias(files, names[0], Rewritten(root, files[i])) else files, names[1..])
  }

  lemma AliasFirst(files: seq<File>, name: string, g: File, other: string)
    requires other != name && g.currentName == name
    ensures var fs := Alias(files, name, g);
            First(fs, other) == First(files, other) &&
            (First(files, other) < |files| ==> fs[First(files, other)] == files[First(files, other)])
  {
    var fs := Alias(files, name, g);
    var i, j := First(files, other), First(fs, other);
    assert forall k | 0 <= k < |files| :: fs[k].currentName == files[k].currentName;
    assert !(i < j) && !(j < i);
  }

  lemma {:induction false} AliasSame<V>(src: Files, root: string, files: seq<File>, name: string, g: File,
                                       names: seq<string>)
    requires name !in names && g.currentName == name
    ensures SendFiles<V>(src, Alias(files, name, g), names) == SendFiles<V>(src, files, names)
    ensures ItemsOf(src, root, Alias(files, name, g), names) == ItemsOf(src, root, files, names)
  {
    if names != [] {
      AliasFirst(files, name, g, names[0]);
      AliasSame<V>(src, root, files, name, g, names[1..]);
    }
  }

  predicate LinksNamed(files: seq<File>) {
    forall i | 0 <= i < |files| && files[i].ftype == 2 :: files[i].symlinkTarget != ""
  }

  predicate NoRepeats(names: seq<string>) {
    forall i, j | 0 <= i < j < |names| :: names[i] != names[j]
  }

  /** The receiver, fed by the sender's stream, does exactly what placing the files directly would do,
      and stops at the end of what was sent. */
  lemma {:induction false} ReceiveSent<V>(src: Files, root: string, d: Files, files: seq<File>, names: seq<string>,
                                         tail: seq<Msg<V>>)
    requires SendFiles<V>(src, files, names).ok && NoRepeats(names) && LinksNamed(files) && "" !in names
    requires PlaceAll(d, ItemsOf(src, root, files, names)).Done?
    ensures ReceiveFiles(root, d, files, names, SendFiles<V>(src, files, names).msgs + tail) ==
            Accepted(RewriteAll(root, files, names), PlaceAll(d, ItemsOf(src, root, files, names)).disk, tail)
    decreases |names|
  {
    if names == [] {
      assert SendFiles<V>(src, files, names).msgs + tail == tail;
    } else {
      assert names[0] !in names[1..];
      var i := First(files, names[0]);
      if i == |files| {
        assert [] + ItemsOf(src, root, files, names[1..]) == ItemsOf(src, root, files, names[1..]);
        ReceiveSent(src, root, d, files, names[1..], tail);
      } else {
        var g := Rewritten(root, files[i]);
        var it := ItemOf(src, root, files[i]);
        assert ([it] + ItemsOf(src, root, files, names[1..]))[1..] == ItemsOf(src, root, files, names[1..]);
        AliasSame<V>(src, root, files, names[0], g, names[1..]);
        ReceiveOne(src, root, d, files, names, tail);
        ReceiveSent(src, root, Place(d, it).disk, Alias(files, names[0], g), names[1..], tail);
      }
    }
  }

  /** One matched name: its chunks, if it has any, are consumed, and its item is placed. */
  lemma ReceiveOne<V>(src: Files, root: string, d: Files, files: seq<File>, names: seq<string>, tail: seq<Msg<V>>)
    requires names != [] && names[0] != "" && First(files, names[0]) < |files| && LinksNamed(files)
    requires SendFiles<V>(src, files, names).ok
    requires Place(d, ItemOf(src, root, files[First(files, names[0])])).Done?
    ensures SendFiles<V>(src, files, names[1..]).ok
    ensures var f := files[First(files, names[0])];
            ReceiveFiles(root, d, files, names, SendFiles<V>(src, files, names).msgs + tail) ==
            ReceiveFiles(root, Place(d, ItemOf(src, root, f)).disk, Alias(files, names[0], Rewritten(root, f)),
                         names[1..], SendFiles<V>(src, files, names[1..]).msgs + tail)
  {
    hide First, Take, FileMsgs, MakeDirs, Ancestors, Alias;
    var f := files[First(files, names[0])];
    if f.ftype == 0 {
      var b := Read(src, f.currentName).data;
      var rest := SendFiles<V>(src, files, names[1..]).msgs;
      TakeFile(b, rest + tail);
      assert (FileMsgs(b) + rest) + tail == FileMsgs(b) + (rest + tail);
    }
  }

  lemma NamesDistinct(files: seq<File>)
    ensures NoRepeats(NamesOf(files, {}))
  {
    var names := NamesOf(files, {});
    forall i, j | 0 <= i < j < |names| ensures names[i] != names[j] {
      NamesOfHas(files, {}, names[i]);
      assert names == names[..j] + ([names[j]] + names[j + 1..]);
      assert names[i] == names[..j][i];
    }
  }

  /** Decoding an encoded value consumes exactly its messages, gives back its body, and puts the first
      file of every name in place; the files in the value are those, with link targets moved. */
  lemma DecodeEncode<V>(src: Files, root: string, d: Files, doc: Doc<V>, tail: seq<Msg<V>>)
    requires EncodeSpec(src, doc).ok && LinksNamed(doc.files)
    requires PlaceAll(d, ItemsOf(src, root, doc.files, NamesOf(doc.files, {}))).Done?
    ensures DecodeSpec(root, d, EncodeSpec(src, doc).msgs + tail) ==
            Received(Doc(doc.body, RewriteAll(root, doc.files, NamesOf(doc.files, {}))),
                     PlaceAll(d, ItemsOf(src, root, doc.files, NamesOf(doc.files, {}))).disk, tail)
  {
    var names := NamesOf(doc.files, {});
    NamesDistinct(doc.files);
    NamesOfHas(doc.files, {}, "");
    hide NamesOf, SendFiles, ReceiveFiles, PlaceAll, ItemsOf, RewriteAll, NoRepeats, LinksNamed;
    ReceiveSent(src, root, d, doc.files, names, tail);
    var inp := EncodeSpec(src, doc).msgs + tail;
    assert inp[0] == ValueMsg(doc) && inp[1] == NamesMsg(names);
    assert inp[2..] == SendFiles<V>(src, doc.files, names).msgs + tail;
  }
}
