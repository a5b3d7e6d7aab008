/** The node specification language: commas separate terms, slashes the levels of a term, and a dash
    makes a range. */
module NodeList {
  import opened Text

  datatype NodeExec = NodeExec(nodes: seq<string>, subnodes: string)

  datatype Parse = BadRange | Good(list: seq<NodeExec>)

  /** The value of Atoi when its error is ignored. */
  function AtoiOr0(s: string): int {
    match Atoi(s)
    case Number(n) => n
    case Syntax => 0
    case Range(n) => n
  }

  /** Where a range starts or ends: a number that does not fit counts as the nearest one that does, and what is
      no number at all counts as zero. */
  lemma EndOfRange(zeros: string, n: int, s: string)
    requires n >= 0 && forall i | 0 <= i < |zeros| :: zeros[i] == '0'
    ensures AtoiOr0(zeros + Itoa(n)) == if n <= MAX_INT then n else MAX_INT
    ensures AtoiOr0("-" + (zeros + Itoa(n))) == if -n >= MIN_INT then -n else MIN_INT
    ensures AtoiOr0(s) != 0 ==>
              exists z: string, m: nat ::
                (forall i | 0 <= i < |z| :: z[i] == '0') &&
                (s == z + Itoa(m) || s == "+" + (z + Itoa(m)) || s == "-" + (z + Itoa(m)))
  {
    AtoiReads(zeros, n);
    AtoiSyntax(s);
    hide Atoi, Itoa;
  }

  function Ids(beg: int, end: int): seq<string>
    decreases end - beg
  {
    if end < beg then [] else [Itoa(beg)] + Ids(beg + 1, end)
  }

  predicate BadSegment(seg: string) {
    match CutAt(seg, '-')
    case Whole(_) => false
    case Pair(b, e) => AtoiOr0(e) < AtoiOr0(b)
  }

  /** The node names of one segment; those of a range follow an empty name. */
  function SegmentNodes(seg: string): (r: seq<string>)
    ensures |r| > 0
  {
    match CutAt(seg, '-')
    case Whole(h) => [h]
    case Pair(b, e) => [""] + Ids(AtoiOr0(b), AtoiOr0(e))
  }

  function Head(term: string): string {
    match CutAt(term, '/') case Whole(h) => h case Pair(h, _) => h
  }

  function Rest(term: string): string {
    match CutAt(term, '/') case Whole(_) => "" case Pair(_, r) => r
  }

  function ParseTerms(terms: seq<string>): (p: Parse)
    ensures p.Good? ==> |p.list| == |terms|
  {
    if terms == [] then Good([])
    else if BadSegment(Head(terms[0])) then BadRange
    else match ParseTerms(terms[1..])
      case BadRange => BadRange
      case Good(l) => Good([NodeExec(SegmentNodes(Head(terms[0])), Rest(terms[0]))] + l)
  }

  function ParseList(l: string): (p: Parse)
    ensures p.Good? ==> |p.list| > 0
  {
    ParseTerms(Split(l, ','))
  }

  /** `parseNodeList`. */
  method ParseNodeList(l: string) returns (ok: bool, rl: seq<NodeExec>)
    ensures ParseList(l) == if ok then Good(rl) else BadRange
  {
    rl := [];
    var ranges := Split(l, ',');
    for i := 0 to |ranges|
      invariant ParseTerms(ranges) == Behind(rl, ParseTerms(ranges[i..]))
    {
      hide Head, Rest, BadSegment, SegmentNodes;
      assert ranges[i..][0] == ranges[i] && ranges[i..][1..] == ranges[i + 1..];
      var ne;
      ok, ne := ParseRange(ranges[i]);
      if !ok { return; }
      BehindStep(rl, ne, ParseTerms(ranges[i + 1..]));
      rl := rl + [ne];
    }
    assert rl + [] == rl;
    ok := true;
  }

  /** The parse of a list whose first entries are already known. */
  ghost function Behind(rl: seq<NodeExec>, p: Parse): Parse {
    match p case BadRange => BadRange case Good(l) => Good(rl + l)
  }

  lemma BehindStep(rl: seq<NodeExec>, ne: NodeExec, p: Parse)
    ensures Behind(rl, Behind([ne], p)) == Behind(rl + [ne], p)
  {
    if p.Good? { assert rl + ([ne] + p.list) == (rl + [ne]) + p.list; }
  }

  /** One comma term: its node names, and what follows its first slash. */
  method ParseRange(n: string) returns (ok: bool, ne: NodeExec)
    ensures ok == !BadSegment(Head(n))
    ensures ok ==> ne == NodeExec(SegmentNodes(Head(n)), Rest(n))
  {
    ne := NodeExec([""], Rest(n));
    ok := true;
    match CutAt(Head(n), '-')
    case Whole(h) => ne := NodeExec([h], Rest(n));
    case Pair(b, e) =>
      var beg, end := AtoiOr0(b), AtoiOr0(e);
      if end < beg {
        ok := false;
      } else {
        var nodes := AppendIds([""], beg, end);
        ne := NodeExec(nodes, Rest(n));
      }
  }

  method AppendIds(nodes: seq<string>, beg: int, end: int) returns (r: seq<string>)
    requires beg <= end
    ensures r == nodes + Ids(beg, end)
  {
    r := nodes;
    var i := beg;
    while i <= end
      invariant beg <= i <= end + 1
      invariant r + Ids(i, end) == nodes + Ids(beg, end)
      decreases end - i
    {
      assert r + ([Itoa(i)] + Ids(i + 1, end)) == (r + [Itoa(i)]) + Ids(i + 1, end);
      r := r + [Itoa(i)];
      i := i + 1;
    }
  }

  lemma MoreOf(x: string, xs: seq<string>, s: string)
    ensures multiset([x] + xs)[s] == (if x == s then 1 else 0) + multiset(xs)[s]
  {}

  lemma {:induction false} IdsHas(beg: int, end: int, s: string)
    ensures multiset(Ids(beg, end))[s] == if exists i :: beg <= i <= end && Itoa(i) == s then 1 else 0
    decreases end - beg
  {
    hide Itoa;
    if beg <= end {
      IdsHas(beg + 1, end, s);
      MoreOf(Itoa(beg), Ids(beg + 1, end), s);
      if Itoa(beg) == s && exists i :: beg + 1 <= i <= end && Itoa(i) == s {
        var i :| beg + 1 <= i <= end && Itoa(i) == s;
        ItoaInjective(i, beg);
      }
    }
  }

  /** They come in ascending order, one for each number. */
  lemma {:induction false} IdsAre(beg: int, end: int)
    ensures |Ids(beg, end)| == if beg <= end then end - beg + 1 else 0
    ensures forall k | 0 <= k < |Ids(beg, end)| :: Ids(beg, end)[k] == Itoa(beg + k)
    decreases end - beg
  {
    hide Itoa;
    if beg <= end { IdsAre(beg + 1, end); }
  }

  // ----- What is passed down holds a single term -----

  lemma {:induction false} SingleTerms(terms: seq<string>)
    requires forall i | 0 <= i < |terms| :: ',' !in terms[i]
    ensures match ParseTerms(terms)
            case BadRange => exists i :: 0 <= i < |terms| && BadSegment(Head(terms[i]))
            case Good(l) =>
              && |l| == |terms| && (forall i | 0 <= i < |terms| :: !BadSegment(Head(terms[i])))
              && forall i | 0 <= i < |l| ::
                   && l[i] == NodeExec(SegmentNodes(Head(terms[i])), Rest(terms[i]))
                   && ',' !in l[i].subnodes
  {
    if terms != [] {
      SingleTerms(terms[1..]);
      CutClean(terms[0], '/', ',');
      if ParseTerms(terms[1..]) == BadRange && !BadSegment(Head(terms[0])) {
        var i :| 0 <= i < |terms[1..]| && BadSegment(Head(terms[1..][i]));
        assert BadSegment(Head(terms[i + 1]));
      }
    }
  }

  /** No Subnodes holds a comma, so parsing it again yields one entry, the only one a slave looks at. */
  lemma SubnodesAreSingle(l: string)
    ensures match ParseList(l)
            case BadRange => true
            case Good(list) =>
              |list| > 0 && forall i | 0 <= i < |list| ::
                match ParseList(list[i].subnodes) case BadRange => true case Good(sub) => |sub| == 1
  {
    SplitClean(l, ',', ',');
    SingleTerms(Split(l, ','));
    match ParseList(l)
    case BadRange =>
    case Good(list) =>
      forall i | 0 <= i < |list|
        ensures match ParseList(list[i].subnodes) case BadRange => true case Good(sub) => |sub| == 1
      {
        SplitOne(list[i].subnodes, ',');
        SingleTerms([list[i].subnodes]);
      }
  }

  // ----- Printing and parsing -----

  datatype Segment = Any | One(name: string) | Span(first: nat, last: nat)

  predicate Printable(seg: Segment) {
    match seg
    case Any => true
    case One(n) => ',' !in n && '/' !in n && '-' !in n
    case Span(a, b) => a <= b <= MAX_INT
  }

  function ShowSegment(seg: Segment): string {
    match seg
    case Any => "."
    case One(n) => n
    case Span(a, b) => Itoa(a) + "-" + Itoa(b)
  }

  function ShowSegments(segs: seq<Segment>): seq<string> {
    seq(|segs|, i requires 0 <= i < |segs| => ShowSegment(segs[i]))
  }

  function ShowTerm(segs: seq<Segment>): string {
    Join(ShowSegments(segs), '/')
  }

  function ShowTerms(terms: seq<seq<Segment>>): seq<string> {
    seq(|terms|, i requires 0 <= i < |terms| => ShowTerm(terms[i]))
  }

  function ShowList(terms: seq<seq<Segment>>): string {
    Join(ShowTerms(terms), ',')
  }

  /** The names a segment stands for. */
  function Names(seg: Segment): seq<string> {
    match seg
    case Any => ["."]
    case One(n) => [n]
    case Span(a, b) => [""] + Ids(a, b)
  }

  predicate PrintableTerm(segs: seq<Segment>) {
    segs != [] && forall i | 0 <= i < |segs| :: Printable(segs[i])
  }

  lemma DigitsPlain(n: nat)
    ensures ',' !in Itoa(n) && '/' !in Itoa(n) && '-' !in Itoa(n)
  {
    var s := DigitsOf(n);
    forall c | c in s ensures IsDigit(c) {}
  }

  lemma ShownSegment(seg: Segment)
    requires Printable(seg)
    ensures ',' !in ShowSegment(seg) && '/' !in ShowSegment(seg)
    ensures !BadSegment(ShowSegment(seg)) && SegmentNodes(ShowSegment(seg)) == Names(seg)
  {
    match seg
    case Any => CutNone(".", '-');
    case One(n) => CutNone(n, '-');
    case Span(a, b) =>
      DigitsPlain(a);
      DigitsPlain(b);
      CutFirst(Itoa(a), '-', Itoa(b));
      AtoiItoa(a);
      AtoiItoa(b);
  }

  lemma {:induction false} JoinLacks(parts: seq<string>, c: char, d: char)
    requires c != d && forall i | 0 <= i < |parts| :: d !in parts[i]
    ensures d !in Join(parts, c)
  {
    if |parts| > 1 { JoinLacks(parts[1..], c, d); }
  }

  /** Cutting a printed term separates its first segment from the printed rest. */
  lemma ShownTerm(segs: seq<Segment>)
    requires PrintableTerm(segs)
    ensures ',' !in ShowTerm(segs)
    ensures Head(ShowTerm(segs)) == ShowSegment(segs[0])
    ensures Rest(ShowTerm(segs)) == ShowTerm(segs[1..])
  {
    var parts := ShowSegments(segs);
    forall i | 0 <= i < |segs| ensures ',' !in parts[i] && '/' !in parts[i] {
      ShownSegment(segs[i]);
    }
    JoinLacks(parts, '/', ',');
    if |segs| == 1 {
      CutNone(parts[0], '/');
    } else {
      assert parts[1..] == ShowSegments(segs[1..]);
      CutFirst(parts[0], '/', Join(parts[1..], '/'));
    }
  }

  function FirstLevel(segs: seq<Segment>): NodeExec {
    if segs == [] then NodeExec([""], "") else NodeExec(Names(segs[0]), ShowTerm(segs[1..]))
  }

  /** Parsing a printed list recovers, term by term, the names of the first segment and the printed
      remainder. */
  lemma ParseShown(terms: seq<seq<Segment>>)
    requires terms != [] && forall i | 0 <= i < |terms| :: PrintableTerm(terms[i])
    ensures ParseList(ShowList(terms)) ==
            Good(seq(|terms|, i requires 0 <= i < |terms| => FirstLevel(terms[i])))
  {
    var shown := ShowTerms(terms);
    forall i | 0 <= i < |terms|
      ensures ',' !in shown[i] && !BadSegment(Head(shown[i]))
      ensures NodeExec(SegmentNodes(Head(shown[i])), Rest(shown[i])) == FirstLevel(terms[i])
    {
      ShownTerm(terms[i]);
      ShownSegment(terms[i][0]);
    }
    SplitJoin(shown, ',');
    SingleTerms(shown);
  }

  /** What remains of `term` after `k` levels have each parsed what their parent handed down. */
  function Handed(term: string, k: nat): string {
    if k == 0 then term else Rest(Handed(term, k - 1))
  }

  /** Level by level, every segment of a printed term is recovered by the slave it is meant for. */
  lemma {:induction false} EveryLevelParses(segs: seq<Segment>, k: nat)
    requires PrintableTerm(segs) && k < |segs|
    ensures ParseList(Handed(ShowTerm(segs), k)) == Good([NodeExec(Names(segs[k]), Handed(ShowTerm(segs), k + 1))])
  {
    HandedDown(segs, k);
    var rest := segs[k..];
    ShownTerm(rest);
    ShownSegment(rest[0]);
    SplitOne(ShowTerm(rest), ',');
    SingleTerms([ShowTerm(rest)]);
  }

  lemma {:induction false} HandedDown(segs: seq<Segment>, k: nat)
    requires PrintableTerm(segs) && k < |segs|
    ensures Handed(ShowTerm(segs), k) == ShowTerm(segs[k..])
  {
    if k == 0 {
      assert segs[0..] == segs;
    } else {
      HandedDown(segs, k - 1);
      ShownTerm(segs[k - 1..]);
      assert segs[k - 1..][1..] == segs[k..];
    }
  }
}
