/** The pieces of Go's path package that the walk relies on. */
module Paths {
  import opened Text

  /** One more segment: "." and empty ones are dropped, and ".." takes back the one before it. */
  function Enter(rooted: bool, st: seq<string>, x: string): seq<string> {
    if x == "" || x == "." then st
    else if x == ".." then
      if st != [] && st[|st| - 1] != ".." then st[..|st| - 1] else if rooted then st else st + [x]
    else st + [x]
  }

  function Resolve(rooted: bool, st: seq<string>, segs: seq<string>): seq<string>
    decreases |segs|
  {
    if segs == [] then st else Resolve(rooted, Enter(rooted, st, segs[0]), segs[1..])
  }

  predicate Rooted(p: string) {
    p != "" && p[0] == '/'
  }

  function Render(rooted: bool, st: seq<string>): string {
    if rooted then "/" + Join(st, '/') else if st == [] then "." else Join(st, '/')
  }

  /** `path.Clean`. */
  function Clean(p: string): string {
    if p == "" then "." else Render(Rooted(p), Resolve(Rooted(p), [], Split(p, '/')))
  }

  /** `path.Join` of two elements: empty ones are left out. */
  function Join2(a: string, b: string): string {
    if a == "" && b == "" then ""
    else if a == "" then Clean(b)
    else if b == "" then Clean(a)
    else Clean(a + "/" + b)
  }

  lemma {:induction false} ResolveMore(rooted: bool, st: seq<string>, a: seq<string>, b: seq<string>)
    ensures Resolve(rooted, st, a + b) == Resolve(rooted, Resolve(rooted, st, a), b)
    decreases |a|
  {
    if a == [] {
      assert a + b == b;
    } else {
      assert (a + b)[0] == a[0] && (a + b)[1..] == a[1..] + b;
      ResolveMore(rooted, Enter(rooted, st, a[0]), a[1..], b);
    }
  }

  /** What resolving can yield. */
  predicate Resolved(rooted: bool, st: seq<string>) {
    && (forall i | 0 <= i < |st| :: st[i] != "" && st[i] != "." && '/' !in st[i])
    && (forall i | 0 <= i < |st| && st[i] == ".." :: !rooted && (i > 0 ==> st[i - 1] == ".."))
  }

  lemma {:induction false} ResolveResolved(rooted: bool, st: seq<string>, segs: seq<string>)
    requires Resolved(rooted, st) && forall i | 0 <= i < |segs| :: '/' !in segs[i]
    ensures Resolved(rooted, Resolve(rooted, st, segs))
    decreases |segs|
  {
    if segs != [] {
      ResolveResolved(rooted, Enter(rooted, st, segs[0]), segs[1..]);
    }
  }

  /** Resolving what is resolved changes nothing. */
  lemma {:induction false} ResolveAgain(rooted: bool, st: seq<string>)
    requires Resolved(rooted, st)
    ensures Resolve(rooted, [], st) == st
    decreases |st|
  {
    if st != [] {
      var init, x := st[..|st| - 1], st[|st| - 1];
      assert Resolved(rooted, init);
      ResolveAgain(rooted, init);
      ResolveMore(rooted, [], init, [x]);
      assert init + [x] == st && [x][1..] == [];
    }
  }

  lemma {:induction false} SplitConcat(a: string, c: char, b: string)
    ensures Split(a + [c] + b, c) == Split(a, c) + Split(b, c)
  {
    var t := a + [c] + b;
    if a == "" {
      SplitHead("", c, b);
      assert t == [c] + b;
    } else {
      SplitConcat(a[1..], c, b);
      var u := a[1..] + [c] + b;
      assert t == [a[0]] + u && a == [a[0]] + a[1..];
      SplitHead([a[0]], c, u);
      SplitHead([a[0]], c, a[1..]);
      hide Split;
      Regroup(Split(a[1..], c), Split(b, c), a[0], c);
    }
  }

  lemma SplitHead(h: string, c: char, rest: string)
    requires |h| <= 1
    ensures h == "" ==> Split([c] + rest, c) == [""] + Split(rest, c) && Split("", c) == [""]
    ensures h != "" ==>
              Split(h + rest, c) == var r := Split(rest, c); if h[0] == c then [""] + r else [[h[0]] + r[0]] + r[1..]
  {
    assert ([c] + rest)[1..] == rest;
    if h != "" { assert (h + rest)[1..] == rest && (h + rest)[0] == h[0]; }
  }

  lemma Regroup(r: seq<string>, q: seq<string>, h: char, c: char)
    requires |r| > 0
    ensures (if h == c then [""] + (r + q) else [[h] + (r + q)[0]] + (r + q)[1..]) ==
            (if h == c then [""] + r else [[h] + r[0]] + r[1..]) + q
  {}

  /** What a path resolves to. */
  function Stack(p: string): seq<string> {
    Resolve(Rooted(p), [], Split(p, '/'))
  }

  lemma StackResolved(p: string)
    ensures Resolved(Rooted(p), Stack(p))
  {
    SplitClean(p, '/', '/');
    ResolveResolved(Rooted(p), [], Split(p, '/'));
  }

  /** A slash joins: the stack of the whole comes from that of the front. */
  lemma StackConcat(a: string, b: string)
    requires a != ""
    ensures Rooted(a + "/" + b) == Rooted(a)
    ensures Stack(a + "/" + b) == Resolve(Rooted(a), Stack(a), Split(b, '/'))
  {
    SplitConcat(a, '/', b);
    ResolveMore(Rooted(a), [], Split(a, '/'), Split(b, '/'));
    assert (a + "/" + b)[0] == a[0];
  }

  /** A second slash in a row changes nothing. */
  lemma DoubleSlash(a: string, b: string)
    requires a != "" && a[|a| - 1] == '/'
    ensures Rooted(a + "/" + b) == Rooted(a) == Rooted(a + b) && Stack(a + "/" + b) == Stack(a + b)
    ensures Clean(a + "/" + b) == Clean(a + b)
  {
    var z := a[..|a| - 1];
    assert z + "/" == a && z + "/" + b == a + b && z + "/" + "" == a;
    SplitConcat(a, '/', b);
    SplitConcat(z, '/', "");
    SplitConcat(z, '/', b);
    assert Split("", '/') == [""];
    var r := Rooted(a);
    ResolveMore(r, [], Split(a, '/'), Split(b, '/'));
    ResolveMore(r, [], Split(z, '/'), [""]);
    ResolveMore(r, [], Split(z, '/'), Split(b, '/'));
    assert [""][1..] == [];
    assert (a + "/" + b)[0] == a[0] && (a + b)[0] == a[0];
  }

  /** Cleaning keeps what a path resolves to. */
  lemma CleanStack(p: string)
    requires p != ""
    ensures Clean(p) != "" && Rooted(Clean(p)) == Rooted(p) && Stack(Clean(p)) == Stack(p)
  {
    hide Split, Join, Resolve, Resolved;
    StackResolved(p);
    RenderStack(Rooted(p), Stack(p));
  }

  lemma RenderStack(rooted: bool, st: seq<string>)
    requires Resolved(rooted, st)
    ensures var p := Render(rooted, st); p != "" && Rooted(p) == rooted && Stack(p) == st
  {
    ResolveAgain(rooted, st);
    hide Resolved;
    if st == [] {
      SplitConcat("", '/', "");
      SplitOne(".", '/');
      assert "" + "/" + "" == "/" && Split("/", '/') == ["", ""] && Split(".", '/') == ["."];
      assert ["", ""][1..] == [""] && [""][1..] == [] && ["."][1..] == [];
    } else {
      SplitJoin(st, '/');
      if rooted {
        SplitConcat("", '/', Join(st, '/'));
        assert "" + "/" + Join(st, '/') == "/" + Join(st, '/') && Split("", '/') == [""];
        ResolveMore(rooted, [], [""], st);
        assert [""][1..] == [];
      } else {
        JoinStart(st);
      }
    }
  }

  lemma JoinStart(st: seq<string>)
    requires st != [] && Resolved(false, st)
    ensures Join(st, '/') != "" && Join(st, '/')[0] != '/'
  {
    assert st[0] != "" && '/' !in st[0];
    assert st[0][0] in st[0];
  }

  /** Cleaning a front that ends in a slash first makes no difference. */
  lemma CleanFront(a: string, b: string)
    requires a != "" && a[|a| - 1] == '/'
    ensures Clean(Clean(a) + "/" + b) == Clean(a + b) && Clean(Clean(a)) == Clean(a)
  {
    CleanStack(a);
    StackConcat(Clean(a), b);
    StackConcat(a, b);
    DoubleSlash(a, b);
  }

  // ----- Segment by segment -----

  /** A segment that is neither empty nor a dot nor two, and no separator. */
  predicate Plain(x: string) {
    x != "" && x != "." && x != ".." && '/' !in x
  }

  lemma {:induction false} JoinSnoc(st: seq<string>, x: string)
    ensures Join(st + [x], '/') == if st == [] then x else Join(st, '/') + "/" + x
  {
    if |st| > 1 {
      assert (st + [x])[1..] == st[1..] + [x];
      JoinSnoc(st[1..], x);
      assert Join(st, '/') == st[0] + ['/'] + Join(st[1..], '/');
    } else if |st| == 1 {
      assert (st + [x])[1..] == [x];
    }
  }

  lemma CleanIsStack(p: string)
    requires p != ""
    ensures Clean(p) == Render(Rooted(p), Stack(p))
  {}

  lemma OneSegment(p: string, x: string)
    requires p != "" && '/' !in x
    ensures Rooted(p + "/" + x) == Rooted(p) && Stack(p + "/" + x) == Enter(Rooted(p), Stack(p), x)
  {
    StackConcat(p, x);
    SplitOne(x, '/');
    assert [x][1..] == [];
  }

  /** Empty segments and single dots change nothing, and two dots take a plain segment back. */
  lemma CleanSame(p: string, x: string)
    requires p != "" && Plain(x)
    ensures Clean(p + "/" + "") == Clean(p) && Clean(p + "/" + ".") == Clean(p)
    ensures Clean(p + "/" + x + "/" + "..") == Clean(p)
  {
    hide Clean, Join, Split, Resolve, Render;
    OneSegment(p, "");
    OneSegment(p, ".");
    OneSegment(p, x);
    OneSegment(p + "/" + x, "..");
    CleanIsStack(p);
    CleanIsStack(p + "/" + "");
    CleanIsStack(p + "/" + ".");
    CleanIsStack(p + "/" + x + "/" + "..");
    assert (Stack(p) + [x])[..|Stack(p)|] == Stack(p);
  }

  /** A plain segment is added to the cleaned path. */
  lemma CleanDown(p: string, x: string)
    requires p != "" && Plain(x)
    ensures Clean(p + "/" + x) ==
            if Clean(p) == "." then x else if Clean(p) == "/" then "/" + x else Clean(p) + "/" + x
  {
    hide Clean, Join, Split, Resolve, Stack;
    StackResolved(p);
    OneSegment(p, x);
    CleanIsStack(p);
    CleanIsStack(p + "/" + x);
    JoinSnoc(Stack(p), x);
    Rendered(Rooted(p), Stack(p));
    if Rooted(p) && Stack(p) != [] {
      assert "/" + (Join(Stack(p), '/') + "/" + x) == "/" + Join(Stack(p), '/') + "/" + x;
    }
  }

  /** How a rendered stack looks. */
  lemma Rendered(rooted: bool, st: seq<string>)
    requires Resolved(rooted, st)
    ensures Render(rooted, st) == "." <==> !rooted && st == []
    ensures Render(rooted, st) == "/" <==> rooted && st == []
  {
    assert ("/" + Join(st, '/'))[0] == '/';
    if st == [] {
      assert Join(st, '/') == "";
    } else {
      assert st[0] != "" && st[0] != ".";
      if |st| > 1 { assert Join(st, '/') == st[0] + ['/'] + Join(st[1..], '/'); }
      assert Join(st, '/') != "" && Join(st, '/') != ".";
      assert '/' !in st[0] && st[0][0] in st[0] && Join(st, '/')[0] == st[0][0];
    }
  }

  /** Two dots with nothing to take back: dropped at the root, and kept anywhere else. */
  lemma CleanUp(p: string)
    requires p != "" && (Stack(p) != [] ==> Stack(p)[|Stack(p)| - 1] == "..")
    ensures Clean(p + "/" + "..") ==
            if Clean(p) == "/" then "/" else if Clean(p) == "." then ".." else Clean(p) + "/" + ".."
  {
    hide Clean, Join, Split, Resolve;
    StackResolved(p);
    OneSegment(p, "..");
    CleanIsStack(p);
    CleanIsStack(p + "/" + "..");
    JoinSnoc(Stack(p), "..");
    Rendered(Rooted(p), Stack(p));
  }

  /** A single segment, and nothing at all. */
  lemma CleanFirst(x: string)
    requires '/' !in x
    ensures Clean(x) == if x == "" then "." else x
    ensures Clean("/" + x) == if x == "" || x == "." || x == ".." then "/" else "/" + x
  {
    SplitOne(x, '/');
    SplitConcat("", '/', x);
    assert "" + ['/'] + x == "/" + x && Split("", '/') == [""];
    ResolveOne(false, x);
    ResolveOne(true, x);
    ResolveMore(true, [], [""], [x]);
    assert [""][1..] == [] && Resolve(true, [], [""]) == [];
    hide Split, Resolve;
    if x != "" { assert x[0] in x; }
  }

  lemma ResolveOne(rooted: bool, x: string)
    ensures Resolve(rooted, [], [x]) == if x == "" || x == "." || (x == ".." && rooted) then [] else [x]
  {
    assert [x][1..] == [];
  }
}
