/** What a round trip through the stream gives: for one value, for a run of values, and for a receiver
    whose type lacks some of the files. */
module MarshalLaws {
  import opened Disk
  import opened FileMarshal

  // ----- Names sharing a file -----

  lemma AliasKeepsNames(files: seq<File>, name: string, f: File, other: string)
    requires f.currentName == name
    ensures First(Alias(files, name, f), other) == First(files, other)
  {
    var fs := Alias(files, name, f);
    var i, j := First(files, other), First(fs, other);
    assert forall k | 0 <= k < |files| :: fs[k].currentName == files[k].currentName;
    assert !(i < j) && !(j < i);
  }

  lemma {:induction false} Untouched(root: string, files: seq<File>, names: seq<string>, i: nat)
    requires i < |files| && files[i].currentName !in names
    ensures |RewriteAll(root, files, names)| == |files| && RewriteAll(root, files, names)[i] == files[i]
    decreases |names|
  {
    if names != [] {
      var j := First(files, names[0]);
      if j < |files| {
        assert files[i].currentName != names[0];
        Untouched(root, Alias(files, names[0], Rewritten(root, files[j])), names[1..], i);
      } else {
        Untouched(root, files, names[1..], i);
      }
    }
  }

  lemma {:induction false} RewrittenAt(root: string, files: seq<File>, names: seq<string>, i: nat)
    requires i < |files| && NoRepeats(names) && files[i].currentName in names
    ensures |RewriteAll(root, files, names)| == |files|
    ensures RewriteAll(root, files, names)[i] == Rewritten(root, files[First(files, files[i].currentName)])
    decreases |names|
  {
    var n := names[0];
    var j := First(files, n);
    assert j < |files| ==> files[j].currentName == n;
    if files[i].currentName == n {
      assert n !in names[1..];
      Untouched(root, Alias(files, n, Rewritten(root, files[j])), names[1..], i);
    } else if j < |files| {
      var g := Rewritten(root, files[j]);
      AliasFirst(files, n, g, files[i].currentName);
      RewrittenAt(root, Alias(files, n, g), names[1..], i);
    } else {
      RewrittenAt(root, files, names[1..], i);
    }
  }

  /** After a round trip every named file is the first file of its name, with an absolute link target
      moved under the receiver's root; a file without a name is left as it was. */
  lemma RoundTripFiles(root: string, files: seq<File>, i: nat)
    requires i < |files|
    ensures var fs := RewriteAll(root, files, NamesOf(files, {}));
            |fs| == |files| &&
            fs[i] == if files[i].currentName == "" then files[i]
                     else Rewritten(root, files[First(files, files[i].currentName)])
  {
    var names := NamesOf(files, {});
    NamesDistinct(files);
    NamesOfHas(files, {}, files[i].currentName);
    if files[i].currentName == "" { Untouched(root, files, names, i); } else { RewrittenAt(root, files, names, i); }
  }

  predicate Stays(root: string, f: File) {
    f.ftype == 2 && f.symlinkTarget != "" && f.symlinkTarget[0] == '/' ==> root == ""
  }

  lemma StaysExact(root: string, f: File)
    ensures Stays(root, f) <==> Rewritten(root, f) == f
  {
    if root != "" && f.symlinkTarget != "" { assert |root + f.symlinkTarget| > |f.symlinkTarget|; }
  }

  /** The value comes back as it was sent exactly if files that share a name are the same file, and no
      link is moved. A link moves if its target is absolute and the receiver has a root. */
  lemma RoundTripIsIdentity(root: string, files: seq<File>)
    ensures RewriteAll(root, files, NamesOf(files, {})) == files <==>
            forall i | 0 <= i < |files| && files[i].currentName != "" ::
              files[i] == files[First(files, files[i].currentName)] && Stays(root, files[i])
  {
    hide NamesOf, RewriteAll, Stays, Rewritten;
    var fs := RewriteAll(root, files, NamesOf(files, {}));
    SameLength(root, files, NamesOf(files, {}));
    if fs == files {
      forall i | 0 <= i < |files| && files[i].currentName != ""
        ensures files[i] == files[First(files, files[i].currentName)] && Stays(root, files[i])
      {
        var j := First(files, files[i].currentName);
        RoundTripFiles(root, files, i);
        RoundTripFiles(root, files, j);
        StaysExact(root, files[j]);
      }
    }
    if forall i | 0 <= i < |files| && files[i].currentName != "" ::
         files[i] == files[First(files, files[i].currentName)] && Stays(root, files[i])
    {
      forall i | 0 <= i < |files| ensures fs[i] == files[i] {
        RoundTripFiles(root, files, i);
        StaysExact(root, files[i]);
      }
    }
  }

  lemma {:induction false} SameLength(root: string, files: seq<File>, names: seq<string>)
    ensures |RewriteAll(root, files, names)| == |files|
    decreases |names|
  {
    if names != [] {
      var j := First(files, names[0]);
      SameLength(root, if j < |files| then Alias(files, names[0], Rewritten(root, files[j])) else files, names[1..]);
    }
  }

  // ----- A run of values on one stream -----

  datatype SentAll<V> = SentAll(ok: bool, msgs: seq<Msg<V>>)

  function EncodeMany<V>(src: Files, docs: seq<Doc<V>>): SentAll<V> {
    if docs == [] then SentAll(true, [])
    else
      var s := EncodeSpec(src, docs[0]);
      if !s.ok then SentAll(false, s.msgs)
      else var more := EncodeMany(src, docs[1..]); SentAll(more.ok, s.msgs + more.msgs)
  }

  datatype Results<V> = Results(ok: bool, docs: seq<Doc<V>>, disk: Files, rest: seq<Msg<V>>)

  function DecodeMany<V>(root: string, d: Files, inp: seq<Msg<V>>, n: nat): Results<V>
    decreases n
  {
    if n == 0 then Results(true, [], d, inp)
    else match DecodeSpec(root, d, inp)
      case Refused(d', r) => Results(false, [], d', r)
      case Received(doc, d', r) =>
        var more := DecodeMany(root, d', r, n - 1);
        more.(docs := [doc] + more.docs)
  }

  function Items<V>(src: Files, root: string, doc: Doc<V>): seq<Item> {
    ItemsOf(src, root, doc.files, NamesOf(doc.files, {}))
  }

  function AllItems<V>(src: Files, root: string, docs: seq<Doc<V>>): seq<Item> {
    if docs == [] then [] else Items(src, root, docs[0]) + AllItems(src, root, docs[1..])
  }

  function OneReceived<V>(root: string, doc: Doc<V>): Doc<V> {
    Doc(doc.body, RewriteAll(root, doc.files, NamesOf(doc.files, {})))
  }

  function AsReceived<V>(root: string, docs: seq<Doc<V>>): seq<Doc<V>> {
    if docs == [] then []
    else [OneReceived(root, docs[0])] + AsReceived(root, docs[1..])
  }

  lemma {:induction false} PlaceBoth(d: Files, a: seq<Item>, b: seq<Item>)
    ensures PlaceAll(d, a + b) ==
            match PlaceAll(d, a) case Failed(d1) => Placed.Failed(d1) case Done(d1) => PlaceAll(d1, b)
    decreases |a|
  {
    if a == [] {
      assert a + b == b;
    } else {
      assert (a + b)[1..] == a[1..] + b;
      match Place(d, a[0]) { case Failed(_) => case Done(d1) => PlaceBoth(d1, a[1..], b); }
    }
  }

  /** Any number of values sent down one stream come out one by one, each complete and in order, with
      nothing left over; the disk is what placing all their files in order makes it. */
  lemma {:induction false} StreamRoundTrip<V>(src: Files, root: string, d: Files, docs: seq<Doc<V>>, tail: seq<Msg<V>>)
    requires EncodeMany(src, docs).ok
    requires forall i | 0 <= i < |docs| :: LinksNamed(docs[i].files)
    requires PlaceAll(d, AllItems(src, root, docs)).Done?
    ensures DecodeMany(root, d, EncodeMany(src, docs).msgs + tail, |docs|) ==
            Results(true, AsReceived(root, docs), PlaceAll(d, AllItems(src, root, docs)).disk, tail)
    decreases |docs|
  {
    hide *;
    if docs == [] {
      NothingSent(src, root, d, tail);
    } else {
      FirstAndRest(src, root, docs);
      var s, more := EncodeSpec(src, docs[0]).msgs, EncodeMany(src, docs[1..]).msgs;
      Assoc(s, more, tail);
      PlaceFirst(d, Items(src, root, docs[0]), AllItems(src, root, docs[1..]));
      var d1 := PlaceAll(d, Items(src, root, docs[0])).disk;
      OneOf(src, root, d, docs[0], more + tail);
      StreamRoundTrip(src, root, d1, docs[1..], tail);
      DecodeOneMore(root, d, s + (more + tail), |docs|);
    }
  }

  lemma NothingSent<V>(src: Files, root: string, d: Files, tail: seq<Msg<V>>)
    ensures var docs: seq<Doc<V>> := [];
            DecodeMany(root, d, EncodeMany(src, docs).msgs + tail, 0) ==
            Results(true, AsReceived(root, docs), PlaceAll(d, AllItems(src, root, docs)).disk, tail)
  {
    assert [] + tail == tail;
  }

  lemma Assoc<T>(a: seq<T>, b: seq<T>, c: seq<T>)
    ensures (a + b) + c == a + (b + c)
  {}

  lemma PlaceFirst(d: Files, a: seq<Item>, b: seq<Item>)
    requires PlaceAll(d, a + b).Done?
    ensures PlaceAll(d, a).Done? && PlaceAll(PlaceAll(d, a).disk, b) == PlaceAll(d, a + b)
  {
    PlaceBoth(d, a, b);
  }

  lemma FirstAndRest<V>(src: Files, root: string, docs: seq<Doc<V>>)
    requires docs != [] && EncodeMany(src, docs).ok
    ensures EncodeSpec(src, docs[0]).ok && EncodeMany(src, docs[1..]).ok
    ensures EncodeMany(src, docs).msgs == EncodeSpec(src, docs[0]).msgs + EncodeMany(src, docs[1..]).msgs
    ensures AllItems(src, root, docs) == Items(src, root, docs[0]) + AllItems(src, root, docs[1..])
    ensures AsReceived(root, docs) == [OneReceived(root, docs[0])] + AsReceived(root, docs[1..])
    ensures forall i | 0 <= i < |docs[1..]| :: docs[1..][i] == docs[i + 1]
  {
    hide EncodeSpec, OneReceived, Items;
  }

  lemma DecodeOneMore<V>(root: string, d: Files, inp: seq<Msg<V>>, n: nat)
    requires n > 0 && DecodeSpec(root, d, inp).Received?
    ensures var one := DecodeSpec(root, d, inp);
            var more := DecodeMany(root, one.disk, one.rest, n - 1);
            DecodeMany(root, d, inp, n) == Results(more.ok, [one.doc] + more.docs, more.disk, more.rest)
  {
    hide DecodeSpec;
  }

  lemma OneOf<V>(src: Files, root: string, d: Files, doc: Doc<V>, tail: seq<Msg<V>>)
    requires EncodeSpec(src, doc).ok && LinksNamed(doc.files) && PlaceAll(d, Items(src, root, doc)).Done?
    ensures DecodeSpec(root, d, EncodeSpec(src, doc).msgs + tail) ==
            Received(OneReceived(root, doc), PlaceAll(d, Items(src, root, doc)).disk, tail)
  {
    hide EncodeSpec, DecodeSpec, PlaceAll, RewriteAll, NamesOf, LinksNamed, ItemsOf;
    DecodeEncode(src, root, d, doc, tail);
  }

  // ----- A receiver whose type lacks some of the files -----

  /** The contents that are sent, in order. */
  function Contents(d: Files, files: seq<File>, names: seq<string>): seq<Bytes> {
    if names == [] then []
    else
      var i := First(files, names[0]);
      (if i < |files| && files[i].ftype == 0 && Read(d, files[i].currentName).Content?
       then [Read(d, files[i].currentName).data] else []) + Contents(d, files, names[1..])
  }

  function Groups<V>(contents: seq<Bytes>): seq<Msg<V>> {
    if contents == [] then [] else FileMsgs(contents[0]) + Groups(contents[1..])
  }

  lemma {:induction false} SentAsGroups<V>(d: Files, files: seq<File>, names: seq<string>)
    requires SendFiles<V>(d, files, names).ok
    ensures SendFiles<V>(d, files, names).msgs == Groups(Contents(d, files, names))
  {
    if names != [] {
      SentAsGroups<V>(d, files, names[1..]);
      var i := First(files, names[0]);
      if i < |files| && files[i].ftype == 0 {
        var b := Read(d, files[i].currentName).data;
        assert ([b] + Contents(d, files, names[1..]))[1..] == Contents(d, files, names[1..]);
      } else {
        assert [] + Contents(d, files, names[1..]) == Contents(d, files, names[1..]);
      }
    }
  }

  lemma {:induction false} GroupsGrow<V>(contents: seq<Bytes>, tail: seq<Msg<V>>)
    ensures |Groups(contents) + tail| >= |tail| + |contents|
  {
    if contents != [] {
      GroupsGrow(contents[1..], tail);
      assert |FileMsgs<V>(contents[0])| >= 1;
    }
  }

  /** How many regular files the receiver recognises among the names, and so reads chunks for. */
  function Wanted(files: seq<File>, names: seq<string>): nat {
    if names == [] then 0
    else
      var i := First(files, names[0]);
      (if names[0] != "" && i < |files| && files[i].ftype == 0 then 1 else 0) + Wanted(files, names[1..])
  }

  lemma {:induction false} AliasWanted(files: seq<File>, name: string, f: File, names: seq<string>)
    requires f.currentName == name && First(files, name) < |files| && f.ftype == files[First(files, name)].ftype
    ensures Wanted(Alias(files, name, f), names) == Wanted(files, names)
  {
    if names != [] {
      AliasKeepsNames(files, name, f, names[0]);
      AliasWanted(files, name, f, names[1..]);
    }
  }

  /** How many groups of chunks a receiver takes: one for each regular file it recognises, whoever's group
      it is, up to the file it gives up at. */
  lemma {:induction false} TakesGroups<V>(root: string, d: Files, files: seq<File>, names: seq<string>,
                                          contents: seq<Bytes>, tail: seq<Msg<V>>) returns (k: nat)
    requires Wanted(files, names) <= |contents|
    ensures k <= Wanted(files, names)
    ensures var got := ReceiveFiles(root, d, files, names, Groups(contents) + tail);
            got.rest == Groups(contents[k..]) + tail && (got.Accepted? ==> k == Wanted(files, names))
    decreases |names|
  {
    var inp := Groups<V>(contents) + tail;
    assert contents[0..] == contents;
    if names == [] {
      k := 0;
    } else {
      var i := First(files, names[0]);
      if names[0] == "" || i == |files| {
        k := TakesGroups(root, d, files, names[1..], contents, tail);
      } else {
        TakesOne(root, d, files[i], contents, tail);
        var o := ReceiveFile(root, d, files[i], inp);
        if o.ok {
          AliasWanted(files, names[0], o.file, names[1..]);
          var left := if files[i].ftype == 0 then contents[1..] else contents;
          k := TakesGroups(root, o.disk, Alias(files, names[0], o.file), names[1..], left, tail);
          if files[i].ftype == 0 {
            assert contents[1..][k..] == contents[k + 1..];
            k := k + 1;
          }
        } else {
          k := 0;
        }
      }
    }
  }

  lemma TakesOne<V>(root: string, d: Files, f: File, contents: seq<Bytes>, tail: seq<Msg<V>>)
    requires f.ftype == 0 ==> contents != []
    ensures var o := ReceiveFile(root, d, f, Groups(contents) + tail);
            && o.file.currentName == f.currentName && o.file.ftype == f.ftype
            && o.rest == Groups(if o.ok && f.ftype == 0 then contents[1..] else contents) + tail
  {
    if f.ftype == 0 {
      TakeFile(contents[0], Groups<V>(contents[1..]) + tail);
      assert (FileMsgs<V>(contents[0]) + Groups<V>(contents[1..])) + tail
          == FileMsgs<V>(contents[0]) + (Groups<V>(contents[1..]) + tail);
    }
  }

  /** The receiver's value has no file of that name. */
  predicate Unknown(theirs: seq<File>, name: string) {
    First(theirs, name) == |theirs|
  }

  /** A file both sides know is of the same kind on both. */
  ghost predicate SameKinds(files: seq<File>, theirs: seq<File>) {
    forall i, j | 0 <= i < |files| && 0 <= j < |theirs| && files[i].currentName == theirs[j].currentName != "" ::
      files[i].ftype == theirs[j].ftype
  }

  /** The receiver's value has every regular file that is sent. */
  predicate KnowsRegular(files: seq<File>, theirs: seq<File>, names: seq<string>) {
    forall n | n in names && First(files, n) < |files| && files[First(files, n)].ftype == 0 :: !Unknown(theirs, n)
  }

  lemma {:induction false} CountsCompare(d: Files, files: seq<File>, theirs: seq<File>, names: seq<string>)
    requires SendFiles<int>(d, files, names).ok && SameKinds(files, theirs) && "" !in names
    requires forall n | n in names :: First(files, n) < |files|
    ensures Wanted(theirs, names) <= |Contents(d, files, names)|
    ensures Wanted(theirs, names) == |Contents(d, files, names)| <==> KnowsRegular(files, theirs, names)
  {
    if names != [] {
      assert forall n :: n in names <==> n == names[0] || n in names[1..];
      CountsCompare(d, files, theirs, names[1..]);
      var i, j := First(files, names[0]), First(theirs, names[0]);
      assert j < |theirs| ==> files[i].ftype == theirs[j].ftype;
      assert KnowsRegular(files, theirs, names) <==>
        KnowsRegular(files, theirs, names[1..]) && (files[i].ftype == 0 ==> !Unknown(theirs, names[0]));
    }
  }

  /** The stream was meant to serve receivers whose type lacks some of the sender's fields. It does so
      exactly if no regular file is among what is lacking: otherwise the receiver, whether it accepts the
      value or gives up on it, stops short of its end, and the next value on the stream cannot be read. */
  lemma LackingInSync<V>(src: Files, root: string, d: Files, files: seq<File>, theirs: seq<File>, tail: seq<Msg<V>>)
    requires SendFiles<V>(src, files, NamesOf(files, {})).ok && SameKinds(files, theirs)
    ensures var names := NamesOf(files, {});
            var got := ReceiveFiles(root, d, theirs, names, SendFiles<V>(src, files, names).msgs + tail);
            && (got.rest == tail ==> KnowsRegular(files, theirs, names))
            && (got.Accepted? ==> (got.rest == tail <==> KnowsRegular(files, theirs, names)))
  {
    var names := NamesOf(files, {});
    forall n | n in names ensures n != "" && First(files, n) < |files| {
      NamesOfHas(files, {}, n);
    }
    hide NamesOf, SameKinds, KnowsRegular, ReceiveFiles;
    SentEither<V>(src, files, names);
    CountsCompare(src, files, theirs, names);
    SentAsGroups<V>(src, files, names);
    var contents := Contents(src, files, names);
    var k := TakesGroups(root, d, theirs, names, contents, tail);
    GroupsGrow(contents[k..], tail);
    if k == |contents| { assert Groups<V>(contents[k..]) + tail == tail; }
  }

  lemma {:induction false} SentEither<V>(d: Files, files: seq<File>, names: seq<string>)
    ensures SendFiles<V>(d, files, names).ok == SendFiles<int>(d, files, names).ok
  {
    if names != [] { SentEither<V>(d, files, names[1..]); }
  }

  /** A receiver lacking the first of two files writes its contents into the second. */
  lemma LackingMixesUp<V>(root: string, d: Files, f: File, other: string, a: Bytes, b: Bytes, tail: seq<Msg<V>>)
    requires f.ftype == 0 && f.currentName != "" && other != f.currentName
    requires Place(d, FileItem(root + f.destName, a)).Done?
    ensures ReceiveFiles(root, d, [f], [other, f.currentName], Groups([a, b]) + tail) ==
            Accepted([f], Place(d, FileItem(root + f.destName, a)).disk, Groups([b]) + tail)
  {
    var names := [other, f.currentName];
    var inp := Groups<V>([a, b]) + tail;
    assert First([f], other) == 1 && First([f], f.currentName) == 0;
    assert names[0..] == names && names[2..] == [];
    hide ReceiveFiles, First, ReceiveFile;
    ReceiveStep(root, d, [f], names, 0, inp);
    ReceiveStep(root, d, [f], names, 1, inp);
    TakesA(root, d, f, a, b, tail);
    assert Alias([f], f.currentName, f) == [f];
    ReceiveEnd(root, Place(d, FileItem(root + f.destName, a)).disk, [f], names, Groups<V>([b]) + tail);
  }

  lemma TakesA<V>(root: string, d: Files, f: File, a: Bytes, b: Bytes, tail: seq<Msg<V>>)
    requires f.ftype == 0 && Place(d, FileItem(root + f.destName, a)).Done?
    ensures ReceiveFile(root, d, f, Groups([a, b]) + tail) ==
            One(true, f, Place(d, FileItem(root + f.destName, a)).disk, Groups([b]) + tail)
  {
    assert [a, b][1..] == [b];
    TakeFile(a, Groups<V>([b]) + tail);
    assert (FileMsgs<V>(a) + Groups<V>([b])) + tail == FileMsgs<V>(a) + (Groups<V>([b]) + tail);
  }
}
