/** What each operator does to a stack, stated on the stacks alone, and the expression that the package is
    introduced with. */
module ForthOperators {
  import opened Text
  import opened Forth
  import opened ForthLaws

  /** The built-in operators have not been redefined. */
  ghost predicate HasBuiltIns(dict: Dict) {
    forall w | w in BuiltIns :: w in dict && dict[w] == BuiltIns[w]
  }

  // ----- Arithmetic -----

  /** Wrapping around changes a number by a multiple of two to the 64th. */
  lemma WrapExact(z: int)
    ensures MIN_INT <= Wrap(z) <= MAX_INT && (Wrap(z) - z) % 0x1_0000_0000_0000_0000 == 0
  {}

  /** Division truncates: the remainder is smaller than the divisor and has the sign of the dividend. */
  lemma QuotExact(y: int, x: int)
    requires x != 0
    ensures y == x * Quot(y, x) + Rem(y, x)
    ensures -(if x < 0 then -x else x) < Rem(y, x) < (if x < 0 then -x else x)
    ensures Rem(y, x) != 0 ==> (Rem(y, x) < 0 <==> y < 0)
  {
    var a, b := if y < 0 then -y else y, if x < 0 then -x else x;
    var q := a / b;
    assert a == b * q + a % b;
    assert Quot(y, x) == if (y < 0) == (x < 0) then q else -q;
    assert x * Quot(y, x) == if y < 0 then -(b * q) else b * q by {
      if x < 0 { assert x * q == -(b * q) && x * -q == b * q; } else { assert x * -q == -(b * q); }
    }
  }

  /** Rounding up gives the least multiple that is not smaller, as long as the sum does not wrap around. */
  lemma RoundupExact(y: int, x: int)
    requires 0 < x <= MAX_INT && 0 <= y && y + x <= MAX_INT
    ensures Arith(Roundup, y, x).Got?
    ensures var z := Arith(Roundup, y, x).val; z % x == 0 && y <= z < y + x
  {
    var s := y + x - 1;
    var q := s / x;
    assert s == x * q + s % x && q >= 0;
    assert Quot(s, x) == q && q * x == x * q;
    assert Wrap(y + x) == y + x && Wrap(s) == s && Wrap(q * x) == q * x;
    assert (q * x) % x == 0 by { Multiple(q, x); }
  }

  lemma Multiple(q: int, x: int)
    requires x > 0
    ensures (q * x) % x == 0
  {
    var r, k := (q * x) % x, (q * x) / x;
    assert (q - k) * x == r;
    assert q - k < 1 by { if q - k >= 1 { MoreThan(q - k - 1, x); } }
    assert q - k > -1 by { if q - k <= -1 { MoreThan(-1 - (q - k), x); } }
  }

  lemma MoreThan(n: nat, x: int)
    requires x > 0
    ensures (n + 1) * x >= x && (-1 - n) * x <= -x
  {}

  // ----- One operator on a stack -----

  lemma TopOf(base: Stack, rest: Stack, x: string)
    ensures Pop(base + rest + [x]) == Got(x, base + rest)
  {
    assert (base + rest + [x])[..|base + rest|] == base + rest;
  }

  lemma Swaps(host: Host, dict: Dict, n: nat, base: Stack, x: string, y: string)
    requires HasBuiltIns(dict)
    ensures Exec(host, dict, n, ["swap"], base + [x, y]) == Ok(base + [y, x])
    ensures Exec(host, dict, n, ["swap"], [x]) == Stop(EmptyStack, []) == Exec(host, dict, n, ["swap"], [])
  {
    assert "swap" in BuiltIns && BuiltIns["swap"] == Swap;
    OneOp(host, dict, n, "swap", base + [x, y]);
    OneOp(host, dict, n, "swap", [x]);
    OneOp(host, dict, n, "swap", []);
    assert base + [x, y] == base + [x] + [y] && base + [] + [x] == base + [x];
    TopOf(base, [x], y);
    TopOf(base, [], x);
    assert base + [] == base && base + [y] + [x] == base + [y, x];
  }

  lemma Dups(host: Host, dict: Dict, n: nat, base: Stack, x: string)
    requires HasBuiltIns(dict)
    ensures Exec(host, dict, n, ["dup"], base + [x]) == Ok(base + [x, x])
    ensures Exec(host, dict, n, ["dup"], []) == Stop(EmptyStack, [])
  {
    assert "dup" in BuiltIns && BuiltIns["dup"] == Dup;
    OneOp(host, dict, n, "dup", base + [x]);
    OneOp(host, dict, n, "dup", []);
    TopOf(base, [], x);
    assert base + [] == base && base + [x] + [x] == base + [x, x];
  }

  lemma Joins(host: Host, dict: Dict, n: nat, base: Stack, x: string, y: string)
    requires HasBuiltIns(dict)
    ensures Exec(host, dict, n, ["strcat"], base + [x, y]) == Ok(base + [x + y])
    ensures Exec(host, dict, n, ["strcat"], [x]) == Stop(EmptyStack, []) == Exec(host, dict, n, ["strcat"], [])
  {
    assert "strcat" in BuiltIns && BuiltIns["strcat"] == Strcat;
    OneOp(host, dict, n, "strcat", base + [x, y]);
    OneOp(host, dict, n, "strcat", [x]);
    OneOp(host, dict, n, "strcat", []);
    assert base + [x, y] == base + [x] + [y] && base + [] + [x] == base + [x];
    TopOf(base, [x], y);
    TopOf(base, [], x);
    assert base + [] == base;
  }

  /** The top decides: the next element if it is not zero, the one below that if it is. */
  lemma Chooses(host: Host, dict: Dict, n: nat, base: Stack, z: string, y: string, k: int)
    requires HasBuiltIns(dict) && InRange(k)
    ensures Exec(host, dict, n, ["ifelse"], base + [z, y, Itoa(k)]) == Ok(base + [if k != 0 then y else z])
  {
    assert "ifelse" in BuiltIns && BuiltIns["ifelse"] == IfElse;
    OneOp(host, dict, n, "ifelse", base + [z, y, Itoa(k)]);
    AtoiItoa(k);
    assert base + [z, y, Itoa(k)] == base + [z, y] + [Itoa(k)];
    assert base + [z, y] == base + [z] + [y] && base + [] + [z] == base + [z] && base + [] == base;
    TopOf(base, [z, y], Itoa(k));
    TopOf(base, [z], y);
    TopOf(base, [], z);
  }

  /** A two-argument operator takes its left argument from below its right one. */
  lemma Computes(host: Host, dict: Dict, n: nat, base: Stack, y: int, x: int)
    requires HasBuiltIns(dict) && InRange(y) && InRange(x)
    ensures var st := base + [Itoa(y), Itoa(x)];
            && Exec(host, dict, n, ["+"], st) == Ok(base + [Itoa(Wrap(y + x))])
            && Exec(host, dict, n, ["-"], st) == Ok(base + [Itoa(Wrap(y - x))])
            && Exec(host, dict, n, ["*"], st) == Ok(base + [Itoa(Wrap(y * x))])
            && (x != 0 ==> Exec(host, dict, n, ["/"], st) == Ok(base + [Itoa(Wrap(Quot(y, x)))]))
            && (x != 0 ==> Exec(host, dict, n, ["%"], st) == Ok(base + [Itoa(Rem(y, x))]))
            && (x == 0 ==> Exec(host, dict, n, ["/"], st) == Stop(Crash, base) == Exec(host, dict, n, ["%"], st))
  {
    var st := base + [Itoa(y), Itoa(x)];
    ArithmeticBuiltIn();
    hide Wrap, Quot, Rem, Itoa, Atoi, Exec, Apply, BuiltIns, HasBuiltIns;
    OneOp(host, dict, n, "+", st);
    OneOp(host, dict, n, "-", st);
    OneOp(host, dict, n, "*", st);
    OneOp(host, dict, n, "/", st);
    OneOp(host, dict, n, "%", st);
    Numeric(host, Plus, base, y, x);
    Numeric(host, Sub, base, y, x);
    Numeric(host, Times, base, y, x);
    Numeric(host, Div, base, y, x);
    Numeric(host, Mod, base, y, x);
    assert x + y == y + x && x * y == y * x;
  }

  lemma ArithmeticBuiltIn()
    ensures {"+", "-", "*", "/", "%"} <= BuiltIns.Keys
    ensures var b := BuiltIns; b["+"] == Plus && b["-"] == Sub && b["*"] == Times && b["/"] == Div && b["%"] == Mod
  {}

  lemma Numeric(host: Host, op: Op, base: Stack, y: int, x: int)
    requires op.Plus? || op.Sub? || op.Times? || op.Div? || op.Mod?
    requires InRange(y) && InRange(x)
    ensures Apply(host, op, base + [Itoa(y), Itoa(x)]) ==
            var z := Arith(op, y, x); if z.None? then Stop(Crash, base) else Ok(base + [Itoa(z.val)])
  {
    hide Wrap, Quot, Rem, Itoa, Atoi, ToInt;
    TwoNumbers(base, y, x);
  }

  lemma TwoNumbers(base: Stack, y: int, x: int)
    requires InRange(y) && InRange(x)
    ensures var st := base + [Itoa(y), Itoa(x)];
            ToInt(st) == Got(x, base + [Itoa(y)]) && ToInt(base + [Itoa(y)]) == Got(y, base)
  {
    AtoiItoa(y);
    AtoiItoa(x);
    hide Itoa, Atoi;
    assert base + [Itoa(y), Itoa(x)] == base + [Itoa(y)] + [Itoa(x)] && base + [] + [Itoa(y)] == base + [Itoa(y)];
    TopOf(base, [Itoa(y)], Itoa(x));
    TopOf(base, [], Itoa(y));
    assert base + [] == base;
  }

  /** An operator by itself. */
  lemma OneOp(host: Host, dict: Dict, n: nat, tok: string, st: Stack)
    requires tok in BuiltIns && HasBuiltIns(dict)
    ensures tok != "" && !BuiltIns[tok].Word? && Exec(host, dict, n, [tok], st) == Apply(host, BuiltIns[tok], st)
  {
    assert [tok][1..] == [];
    var o := Step(host, dict, n, tok, st);
    if o.Ok? { assert Exec(host, dict, n, [], o.stack) == o; }
  }

  /** Whatever is no operator is pushed, and empty tokens, left by repeated blanks, do nothing. */
  lemma Pushes(host: Host, dict: Dict, n: nat, tok: string, st: Stack)
    requires tok !in dict
    ensures Exec(host, dict, n, [tok], st) == Ok(if tok == "" then st else st + [tok])
  {
    assert [tok][1..] == [];
    var o := Step(host, dict, n, tok, st);
    assert o.Ok? && Exec(host, dict, n, [], o.stack) == o;
  }

  // ----- Host names -----

  /** hostbase drops the lower-case letters, blanks and dashes that a name starts with, and nothing else. */
  lemma {:induction false} TrimExact(front: string, back: string)
    requires forall i | 0 <= i < |front| :: 'a' <= front[i] <= 'z' || front[i] == ' ' || front[i] == '-'
    requires back != "" ==> !('a' <= back[0] <= 'z' || back[0] == ' ' || back[0] == '-')
    ensures TrimLeft(front + back) == back
  {
    if front == "" {
      assert front + back == back;
    } else {
      assert (front + back)[1..] == front[1..] + back;
      TrimExact(front[1..], back);
    }
  }

  lemma NamesHost(name: string, dict: Dict, n: nat, st: Stack)
    requires HasBuiltIns(dict)
    ensures Exec(Named(name), dict, n, ["hostname"], st) == Ok(st + [name])
    ensures Exec(Unknown, dict, n, ["hostname"], st) == Stop(Crash, st)
  {
    assert "hostname" in BuiltIns && BuiltIns["hostname"] == Hostname;
    OneOp(Named(name), dict, n, "hostname", st);
    OneOp(Unknown, dict, n, "hostname", st);
  }

  lemma Strips(host: Host, dict: Dict, n: nat, base: Stack, front: string, back: string)
    requires HasBuiltIns(dict)
    requires forall i | 0 <= i < |front| :: 'a' <= front[i] <= 'z' || front[i] == ' ' || front[i] == '-'
    requires back != "" ==> !('a' <= back[0] <= 'z' || back[0] == ' ' || back[0] == '-')
    ensures Exec(host, dict, n, ["hostbase"], base + [front + back]) == Ok(base + [back])
  {
    assert "hostbase" in BuiltIns && BuiltIns["hostbase"] == Hostbase;
    OneOp(host, dict, n, "hostbase", base + [front + back]);
    TrimExact(front, back);
    TopOf(base, [], front + back);
    assert base + [] == base;
  }

  // ----- The expression in the package's introduction -----

  const INTRO := "hostname hostbase dup 20 / swap 20 % dup ifelse"

  const IntroTokens: seq<string> :=
    ["hostname", "hostbase", "dup", "20", "/", "swap", "20", "%", "dup", "ifelse"]

  lemma ThreeTokens(a: string, b: string, c: string, rest: string)
    requires ' ' !in a && ' ' !in b && ' ' !in c
    ensures Split(a + " " + b + " " + c + " " + rest, ' ') == [a, b, c] + Split(rest, ' ')
  {
    hide Split;
    SplitCons(c, ' ', rest);
    SplitCons(b, ' ', c + [' '] + rest);
    SplitCons(a, ' ', b + [' '] + (c + [' '] + rest));
    assert a + " " + b + " " + c + " " + rest == a + [' '] + (b + [' '] + (c + [' '] + rest));
    assert [a] + ([b] + ([c] + Split(rest, ' '))) == [a, b, c] + Split(rest, ' ');
  }

  lemma LastTokens()
    ensures Split("20 % dup ifelse", ' ') == ["20", "%", "dup"] + ["ifelse"]
  {
    hide Split;
    ThreeTokens("20", "%", "dup", "ifelse");
    SplitOne("ifelse", ' ');
    assert "20" + " " + "%" + " " + "dup" + " " + "ifelse" == "20 % dup ifelse";
  }

  lemma MiddleTokens()
    ensures Split("20 / swap 20 % dup ifelse", ' ') == ["20", "/", "swap"] + (["20", "%", "dup"] + ["ifelse"])
  {
    hide Split;
    LastTokens();
    ThreeTokens("20", "/", "swap", "20 % dup ifelse");
    assert "20" + " " + "/" + " " + "swap" + " " + "20 % dup ifelse" == "20 / swap 20 % dup ifelse";
  }

  lemma IntroSplit()
    ensures Split(INTRO, ' ') == IntroTokens
  {
    hide Split;
    MiddleTokens();
    TokensAre();
    ThreeTokens("hostname", "hostbase", "dup", "20 / swap 20 % dup ifelse");
    IntroText();
    hide *;
  }

  lemma IntroText()
    ensures "hostname" + " " + "hostbase" + " " + "dup" + " " + "20 / swap 20 % dup ifelse" == INTRO
  {}

  /** Three tokens, one after another. */
  lemma RunThree(h: Host, dict: Dict, n: nat, a: string, b: string, c: string, s0: Stack, s1: Stack, s2: Stack,
                 o: Outcome)
    requires Exec(h, dict, n, [a], s0) == Ok(s1) && Exec(h, dict, n, [b], s1) == Ok(s2)
    requires Exec(h, dict, n, [c], s2) == o
    ensures Exec(h, dict, n, [a, b, c], s0) == o
  {
    ExecConcat(h, dict, n, [a], [b] + [c], s0);
    ExecConcat(h, dict, n, [b], [c], s1);
    assert [a] + ([b] + [c]) == [a, b, c];
  }

  /** On a host whose name ends in the number `k`: the number divided by 20 if that leaves no remainder, and
      the remainder otherwise. */
  lemma IntroMeans(dict: Dict, n: nat, front: string, k: nat, st: Stack)
    requires HasBuiltIns(dict) && "20" !in dict && k <= MAX_INT
    requires forall i | 0 <= i < |front| :: 'a' <= front[i] <= 'z' || front[i] == ' ' || front[i] == '-'
    ensures Eval(Named(front + Itoa(k)), dict, n, INTRO, st) ==
            Value(Itoa(if k % 20 == 0 then k / 20 else k % 20), st)
  {
    IntroSplit();
    IntroRuns(Named(front + Itoa(k)), dict, n, front, k, st);
    hide *;
    Popping(Named(front + Itoa(k)), dict, n, INTRO, st, Itoa(if k % 20 == 0 then k / 20 else k % 20));
  }

  lemma Popping(h: Host, dict: Dict, n: nat, text: string, st: Stack, v: string)
    requires Exec(h, dict, n, Split(text, ' '), st) == Ok(st + [v])
    ensures Eval(h, dict, n, text, st) == Value(v, st)
  {
    hide Exec, Split;
    assert (st + [v])[..|st|] == st;
  }

  lemma IntroRuns(h: Host, dict: Dict, n: nat, front: string, k: nat, st: Stack)
    requires HasBuiltIns(dict) && "20" !in dict && k <= MAX_INT && h == Named(front + Itoa(k))
    requires forall i | 0 <= i < |front| :: 'a' <= front[i] <= 'z' || front[i] == ' ' || front[i] == '-'
    ensures Exec(h, dict, n, IntroTokens, st) == Ok(st + [Itoa(if k % 20 == 0 then k / 20 else k % 20)])
  {
    var num, r := Itoa(k), Itoa(if k % 20 == 0 then k / 20 else k % 20);
    NamesHost(front + num, dict, n, st);
    ItoaDigit(k);
    Strips(h, dict, n, st, front, num);
    Dups(h, dict, n, st, num);
    FirstHalf(h, dict, n, k, st);
    SecondHalf(h, dict, n, k, st);
    hide *;
    TokensAre();
    RunThree(h, dict, n, "hostname", "hostbase", "dup", st, st + [front + num], st + [num], Ok(st + [num, num]));
    var a, b, c := ["hostname", "hostbase", "dup"], ["20", "/", "swap"], ["20", "%", "dup"] + ["ifelse"];
    ExecConcat(h, dict, n, b, c, st + [num, num]);
    ExecConcat(h, dict, n, a, b + c, st);
  }

  lemma TokensAre()
    ensures IntroTokens == ["hostname", "hostbase", "dup"] + (["20", "/", "swap"] + (["20", "%", "dup"] + ["ifelse"]))
  {}

  lemma ItoaDigit(k: nat)
    ensures Itoa(k) != "" && '0' <= Itoa(k)[0] <= '9'
  {
    assert IsDigit(DigitsOf(k)[0]);
  }

  lemma TwentyIs()
    ensures Itoa(20) == "20"
  {
    assert DigitsOf(2) == ['2'];
    assert DigitsOf(20) == DigitsOf(2) + ['0'] == "20";
  }

  lemma InMachine()
    ensures InRange(20) && forall k: nat | k <= MAX_INT :: InRange(k)
  {}

  lemma Regroup(st: Stack, a: string, b: string, c: string)
    ensures st + [a, b] + [c] == st + [a] + [b, c] == st + [a, b, c] && st + [a] + [b] == st + [a, b]
  {}

  /** "20 / swap" on two copies of the number. */
  lemma FirstHalf(h: Host, dict: Dict, n: nat, k: nat, st: Stack)
    requires HasBuiltIns(dict) && "20" !in dict && k <= MAX_INT
    ensures Exec(h, dict, n, ["20", "/", "swap"], st + [Itoa(k), Itoa(k)]) == Ok(st + [Itoa(k / 20), Itoa(k)])
  {
    assert Wrap(Quot(k, 20)) == k / 20;
    hide *;
    var num, q := Itoa(k), Itoa(k / 20);
    TwentyIs();
    InMachine();
    var twenty := Itoa(20);
    Pushes(h, dict, n, twenty, st + [num, num]);
    Computes(h, dict, n, st + [num], k, 20);
    Swaps(h, dict, n, st, num, q);
    Regroup(st, num, num, twenty);
    Regroup(st, num, q, q);
    RunThree(h, dict, n, twenty, "/", "swap", st + [num, num], st + [num] + [num, twenty], st + [num, q],
             Ok(st + [q, num]));
  }

  /** "20 % dup ifelse" on the quotient and the number. */
  lemma SecondHalf(h: Host, dict: Dict, n: nat, k: nat, st: Stack)
    requires HasBuiltIns(dict) && "20" !in dict && k <= MAX_INT
    ensures Exec(h, dict, n, ["20", "%", "dup"] + ["ifelse"], st + [Itoa(k / 20), Itoa(k)]) ==
            Ok(st + [Itoa(if k % 20 == 0 then k / 20 else k % 20)])
  {
    assert Rem(k, 20) == k % 20;
    hide *;
    var num, q, r := Itoa(k), Itoa(k / 20), Itoa(k % 20);
    TwentyIs();
    InMachine();
    var twenty := Itoa(20);
    Pushes(h, dict, n, twenty, st + [q, num]);
    Computes(h, dict, n, st + [q], k, 20);
    Dups(h, dict, n, st + [q], r);
    Chooses(h, dict, n, st, q, r, k % 20);
    Regroup(st, q, num, twenty);
    Regroup(st, q, r, r);
    RunThree(h, dict, n, twenty, "%", "dup", st + [q, num], st + [q] + [num, twenty], st + [q] + [r],
             Ok(st + [q] + [r, r]));
    ExecConcat(h, dict, n, ["20", "%", "dup"], ["ifelse"], st + [q, num]);
  }
}
