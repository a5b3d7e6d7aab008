/** The pieces of Go's strings and strconv packages that the programs rely on. */
module Text {

  /** Go's int. */
  const MAX_INT := 0x7fff_ffff_ffff_ffff
  const MIN_INT := -0x8000_0000_0000_0000

  predicate InRange(n: int) {
    MIN_INT <= n <= MAX_INT
  }

  // ----- strings.Split, strings.SplitN(_, _, 2), strings.Join -----

  function Split(s: string, c: char): (r: seq<string>)
    ensures |r| > 0
  {
    if s == "" then [""]
    else
      var r := Split(s[1..], c);
      if s[0] == c then [""] + r else [[s[0]] + r[0]] + r[1..]
  }

  function Join(parts: seq<string>, c: char): string {
    if parts == [] then ""
    else if |parts| == 1 then parts[0]
    else parts[0] + [c] + Join(parts[1..], c)
  }

  /** The text before the first `c`, and the text after it if there is one. */
  datatype Cut = Whole(all: string) | Pair(before: string, after: string)

  function CutAt(s: string, c: char): Cut {
    if s == "" then Whole("")
    else if s[0] == c then Pair("", s[1..])
    else match CutAt(s[1..], c)
      case Whole(a) => Whole([s[0]] + a)
      case Pair(b, a) => Pair([s[0]] + b, a)
  }

  lemma {:induction false} SplitCons(p: string, c: char, rest: string)
    requires c !in p
    ensures Split(p + [c] + rest, c) == [p] + Split(rest, c)
  {
    var s := p + [c] + rest;
    if p == "" {
      assert s[1..] == rest;
    } else {
      SplitCons(p[1..], c, rest);
      assert s[1..] == p[1..] + [c] + rest;
      assert [p[0]] + p[1..] == p;
    }
  }

  lemma {:induction false} SplitOne(p: string, c: char)
    requires c !in p
    ensures Split(p, c) == [p]
  {
    if p != "" {
      SplitOne(p[1..], c);
      assert [p[0]] + p[1..] == p;
    }
  }

  lemma {:induction false} SplitJoin(parts: seq<string>, c: char)
    requires parts != [] && forall i | 0 <= i < |parts| :: c !in parts[i]
    ensures Split(Join(parts, c), c) == parts
  {
    if |parts| == 1 {
      SplitOne(parts[0], c);
    } else {
      SplitJoin(parts[1..], c);
      SplitCons(parts[0], c, Join(parts[1..], c));
    }
  }

  /** Splitting leaves no separator behind. */
  lemma {:induction false} SplitClean(s: string, c: char, d: char)
    ensures forall i | 0 <= i < |Split(s, c)| :: c !in Split(s, c)[i] && (d !in s ==> d !in Split(s, c)[i])
  {
    if s != "" { SplitClean(s[1..], c, d); }
  }

  lemma {:induction false} CutClean(s: string, c: char, d: char)
    ensures match CutAt(s, c)
            case Whole(a) => a == s && c !in s
            case Pair(b, a) => s == b + [c] + a && c !in b && (d !in s ==> d !in b && d !in a)
  {
    if s != "" && s[0] != c {
      CutClean(s[1..], c, d);
      match CutAt(s[1..], c)
      case Whole(a) =>
      case Pair(b, a) => assert s == [s[0]] + s[1..];
    } else if s != "" {
      assert s == "" + [c] + s[1..];
    }
  }

  lemma {:induction false} CutFirst(b: string, c: char, a: string)
    requires c !in b
    ensures CutAt(b + [c] + a, c) == Pair(b, a)
  {
    var s := b + [c] + a;
    if b == "" {
      assert s[1..] == a;
    } else {
      CutFirst(b[1..], c, a);
      assert s[1..] == b[1..] + [c] + a;
      assert [b[0]] + b[1..] == b;
    }
  }

  lemma {:induction false} CutNone(s: string, c: char)
    requires c !in s
    ensures CutAt(s, c) == Whole(s)
  {
    if s != "" {
      CutNone(s[1..], c);
      assert [s[0]] + s[1..] == s;
    }
  }

  /** Cutting at the first separator is splitting off the first part. */
  lemma {:induction false} CutIsSplit(s: string, c: char)
    ensures match CutAt(s, c)
            case Whole(a) => Split(s, c) == [a]
            case Pair(b, a) => Split(s, c) == [b] + Split(a, c)
  {
    CutClean(s, c, c);
    match CutAt(s, c)
    case Whole(a) => SplitOne(s, c);
    case Pair(b, a) => SplitCons(b, c, a);
  }

  // ----- strconv.Itoa and strconv.Atoi -----

  predicate IsDigit(c: char) {
    '0' <= c <= '9'
  }

  predicate AllDigits(s: string) {
    forall i | 0 <= i < |s| :: IsDigit(s[i])
  }

  function DigitsOf(n: nat): (s: string)
    ensures s != "" && AllDigits(s)
  {
    if n < 10 then ['0' + n as char] else DigitsOf(n / 10) + ['0' + (n % 10) as char]
  }

  function Itoa(n: int): string {
    if n < 0 then "-" + DigitsOf(-n) else DigitsOf(n)
  }

  function ValueOf(s: string): nat
    requires AllDigits(s)
  {
    if s == "" then 0 else ValueOf(s[..|s| - 1]) * 10 + (s[|s| - 1] - '0') as int
  }

  datatype Parsed = Number(n: int) | Syntax | Range(n: int)

  /** An optional sign and at least one decimal digit; a number out of range is clamped and reported. */
  function Atoi(s: string): Parsed {
    var signed := s != "" && (s[0] == '-' || s[0] == '+');
    var digits := if signed then s[1..] else s;
    if digits == "" || !AllDigits(digits) then Syntax
    else
      var v: int := ValueOf(digits);
      var n := if signed && s[0] == '-' then -v else v;
      if n > MAX_INT then Range(MAX_INT) else if n < MIN_INT then Range(MIN_INT) else Number(n)
  }

  lemma {:induction false} ValueOfDigits(n: nat)
    ensures ValueOf(DigitsOf(n)) == n
  {
    if n < 10 {
      assert DigitsOf(n)[..0] == "";
    } else {
      ValueOfDigits(n / 10);
      var s := DigitsOf(n);
      assert s[..|s| - 1] == DigitsOf(n / 10);
    }
  }

  /** Decimal printing and parsing are inverse on the machine's integers. */
  lemma AtoiItoa(n: int)
    requires InRange(n)
    ensures Atoi(Itoa(n)) == Number(n)
  {
    hide DigitsOf, ValueOf;
    if n < 0 {
      ValueOfDigits(-n);
      assert ("-" + DigitsOf(-n))[1..] == DigitsOf(-n);
    } else {
      ValueOfDigits(n);
      assert IsDigit(DigitsOf(n)[0]);
    }
  }

  lemma ItoaSign(n: int)
    ensures Itoa(n) != "" && (Itoa(n)[0] == '-' <==> n < 0)
  {
    var s := DigitsOf(if n < 0 then -n else n);
    assert IsDigit(s[0]);
  }

  lemma ItoaInjective(a: int, b: int)
    requires Itoa(a) == Itoa(b)
    ensures a == b
  {
    ItoaSign(a);
    ItoaSign(b);
    if a < 0 {
      assert Itoa(a)[1..] == DigitsOf(-a) && Itoa(b)[1..] == DigitsOf(-b);
      ValueOfDigits(-a);
      ValueOfDigits(-b);
    } else {
      ValueOfDigits(a);
      ValueOfDigits(b);
    }
  }

  // ----- Splitting and joining, both ways -----

  lemma {:induction false} JoinSplit(s: string, c: char)
    ensures Join(Split(s, c), c) == s
  {
    if s != "" {
      JoinSplit(s[1..], c);
      var r := Split(s[1..], c);
      if s[0] == c {
        assert ([""] + r)[1..] == r;
        assert Join([""] + r, c) == "" + [c] + Join(r, c);
      } else {
        var t := [[s[0]] + r[0]] + r[1..];
        assert t[1..] == r[1..];
        if |r| == 1 {
          assert Join(t, c) == [s[0]] + r[0];
        } else {
          assert Join(t, c) == [s[0]] + r[0] + [c] + Join(r[1..], c) == [s[0]] + (r[0] + [c] + Join(r[1..], c));
        }
      }
    }
  }

  // ----- Decimal notation -----

  function Pow10(k: nat): (p: nat)
    ensures p > 0
  {
    if k == 0 then 1 else 10 * Pow10(k - 1)
  }

  /** The k-th digit from the right counts the k-th power of ten, and there is no leading zero. */
  lemma {:induction false} DigitAt(n: nat, k: nat)
    requires k < |DigitsOf(n)|
    ensures var s := DigitsOf(n);
            && s[|s| - 1 - k] as int - '0' as int == n / Pow10(k) % 10
            && (|s| > 1 ==> s[0] != '0')
  {
    if n >= 10 {
      var less := DigitsOf(n / 10);
      DigitAt(n / 10, if k > 0 then k - 1 else 0);
      if k > 0 {
        DivTwice(n, Pow10(k - 1));
      }
      if |less| == 1 { assert n / 10 < 10; }
    }
  }

  lemma DivTwice(n: nat, m: nat)
    requires m > 0
    ensures n / (10 * m) == n / 10 / m
  {
    var q, r := n / 10 / m, n / 10 % m;
    assert n / 10 == m * q + r;
    assert n == (10 * m) * q + (10 * r + n % 10);
    assert 10 * r + n % 10 < 10 * m;
    Quotient(n, 10 * m, q, 10 * r + n % 10);
  }

  lemma Quotient(n: nat, m: nat, q: nat, r: nat)
    requires m > 0 && n == m * q + r && r < m
    ensures n / m == q
  {
    var a, b := n / m, n % m;
    assert n == m * a + b;
    assert !(a > q) by { if a > q { Times(m, q + 1, a); } }
    assert !(a < q) by { if a < q { Times(m, a + 1, q); } }
  }

  lemma Times(m: nat, a: nat, b: nat)
    requires a <= b
    ensures m * a <= m * b
  {}

  lemma {:induction false} ZerosFirst(zeros: string, s: string)
    requires (forall i | 0 <= i < |zeros| :: zeros[i] == '0') && AllDigits(s)
    ensures AllDigits(zeros + s) && ValueOf(zeros + s) == ValueOf(s)
  {
    if s == "" {
      assert zeros + s == zeros;
      if zeros != "" { ZerosFirst(zeros[..|zeros| - 1], ""); assert zeros[..|zeros| - 1] + "" == zeros[..|zeros| - 1]; }
    } else {
      ZerosFirst(zeros, s[..|s| - 1]);
      assert (zeros + s)[..|zeros + s| - 1] == zeros + s[..|s| - 1];
    }
  }

  /** What is read: an optional sign, leading zeros, and a number in decimal notation; a number that does not
      fit is clamped, and reported as such. */
  lemma AtoiReads(zeros: string, n: int)
    requires n >= 0 && forall i | 0 <= i < |zeros| :: zeros[i] == '0'
    ensures var s := zeros + Itoa(n);
            && Atoi(s) == Atoi("+" + s) == (if n <= MAX_INT then Number(n) else Range(MAX_INT))
            && Atoi("-" + s) == if -n >= MIN_INT then Number(-n) else Range(MIN_INT)
  {
    hide DigitsOf, ValueOf, Atoi;
    var s := zeros + Itoa(n);
    ValueOfDigits(n);
    ZerosFirst(zeros, DigitsOf(n));
    AtoiDigits(s);
  }

  lemma AtoiDigits(s: string)
    requires s != "" && AllDigits(s)
    ensures var n: int := ValueOf(s);
            && Atoi(s) == Atoi("+" + s) == (if n <= MAX_INT then Number(n) else Range(MAX_INT))
            && Atoi("-" + s) == if -n >= MIN_INT then Number(-n) else Range(MIN_INT)
  {
    hide ValueOf;
    assert IsDigit(s[0]) && ("+" + s)[1..] == s && ("-" + s)[1..] == s;
  }

  /** And nothing else is read. */
  lemma AtoiSyntax(s: string)
    ensures Atoi(s) != Syntax ==>
              exists zeros: string, n: nat ::
                (forall i | 0 <= i < |zeros| :: zeros[i] == '0') &&
                (s == zeros + Itoa(n) || s == "+" + (zeros + Itoa(n)) || s == "-" + (zeros + Itoa(n)))
  {
    if Atoi(s) != Syntax {
      var signed := s[0] == '-' || s[0] == '+';
      var digits := if signed then s[1..] else s;
      var zeros, n := Decimal(digits);
      assert signed ==> s == [s[0]] + (zeros + Itoa(n));
    }
  }

  lemma {:induction false} Decimal(s: string) returns (zeros: string, n: nat)
    requires s != "" && AllDigits(s)
    ensures (forall i | 0 <= i < |zeros| :: zeros[i] == '0') && s == zeros + Itoa(n)
  {
    var d := (s[|s| - 1] - '0') as int;
    assert s == s[..|s| - 1] + [s[|s| - 1]];
    if |s| == 1 {
      zeros, n := "", d;
    } else {
      var z, m := Decimal(s[..|s| - 1]);
      if m == 0 {
        zeros, n := z + "0", d;
        assert z + "0" + Itoa(d) == z + Itoa(0) + [s[|s| - 1]];
      } else {
        zeros, n := z, m * 10 + d;
        assert n / 10 == m && n % 10 == d;
        assert DigitsOf(n) == DigitsOf(m) + [s[|s| - 1]];
      }
    }
  }
}
