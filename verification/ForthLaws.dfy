/** Laws of the interpreter: what lies below on the stack does not matter, and a word means its
    definition. */
module ForthLaws {
  import opened Text
  import opened Forth

  // ----- The stack below -----

  /** The same outcome with `base` underneath. */
  function Under(base: Stack, o: Outcome): Outcome {
    match o
    case Ok(st) => Ok(base + st)
    case Stop(w, st) => Stop(w, base + st)
  }

  predicate Starved(o: Outcome) {
    o.Stop? && o.why == EmptyStack
  }

  lemma PopUnder(base: Stack, st: Stack)
    requires st != []
    ensures Pop(base + st) == Got(st[|st| - 1], base + st[..|st| - 1])
  {
    assert (base + st)[..|base + st| - 1] == base + st[..|st| - 1];
  }

  lemma ToIntUnder(base: Stack, st: Stack)
    requires st != []
    ensures match ToInt(st)
            case Got(x, r) => ToInt(base + st) == Got(x, base + r)
            case None(w, r) => ToInt(base + st) == None(w, base + r)
  {
    PopUnder(base, st);
  }

  lemma Assoc(a: Stack, b: Stack, c: Stack)
    ensures a + (b + c) == a + b + c
  {}

  lemma Arith2Under(op: Op, base: Stack, st: Stack)
    requires op.Plus? || op.Sub? || op.Times? || op.Div? || op.Mod? || op.Roundup?
    requires !Starved(Arith2(op, st))
    ensures Arith2(op, base + st) == Under(base, Arith2(op, st))
  {
    ToIntUnder(base, st);
    match ToInt(st)
    case None(_, _) =>
    case Got(x, r1) =>
      ToIntUnder(base, r1);
      match ToInt(r1)
      case None(_, _) =>
      case Got(y, r2) =>
        match Arith(op, y, x)
        case None(_, _) =>
        case Got(z, _) => Assoc(base, r2, [Itoa(z)]);
  }

  lemma ApplyUnder(host: Host, op: Op, base: Stack, st: Stack)
    requires !op.Word? && !Starved(Apply(host, op, st))
    ensures Apply(host, op, base + st) == Under(base, Apply(host, op, st))
  {
    match op
    case Hostname => if host.Named? { Assoc(base, st, [host.name]); }
    case Hostbase =>
      PopUnder(base, st);
      Assoc(base, st[..|st| - 1], [TrimLeft(st[|st| - 1])]);
    case Dup =>
      PopUnder(base, st);
      var x, r := st[|st| - 1], st[..|st| - 1];
      Assoc(base, r, [x]);
      Assoc(base, r + [x], [x]);
    case Swap => PairUnder(host, op, base, st);
    case Strcat => PairUnder(host, op, base, st);
    case IfElse => IfElseUnder(host, base, st);
    case Plus => Arith2Under(op, base, st);
    case Sub => Arith2Under(op, base, st);
    case Times => Arith2Under(op, base, st);
    case Div => Arith2Under(op, base, st);
    case Mod => Arith2Under(op, base, st);
    case Roundup => Arith2Under(op, base, st);
  }

  lemma PairUnder(host: Host, op: Op, base: Stack, st: Stack)
    requires (op.Swap? || op.Strcat?) && !Starved(Apply(host, op, st))
    ensures Apply(host, op, base + st) == Under(base, Apply(host, op, st))
  {
    PopUnder(base, st);
    var x, r1 := st[|st| - 1], st[..|st| - 1];
    PopUnder(base, r1);
    var y, r2 := r1[|r1| - 1], r1[..|r1| - 1];
    Assoc(base, r2, [x]);
    Assoc(base, r2 + [x], [y]);
    Assoc(base, r2, [y + x]);
  }

  lemma IfElseUnder(host: Host, base: Stack, st: Stack)
    requires !Starved(Apply(host, IfElse, st))
    ensures Apply(host, IfElse, base + st) == Under(base, Apply(host, IfElse, st))
  {
    ToIntUnder(base, st);
    if ToInt(st).Got? {
      var x, r1 := ToInt(st).val, ToInt(st).rest;
      PopUnder(base, r1);
      var y, r2 := r1[|r1| - 1], r1[..|r1| - 1];
      PopUnder(base, r2);
      var z, r3 := r2[|r2| - 1], r2[..|r2| - 1];
      Assoc(base, r3, [if x != 0 then y else z]);
    }
  }

  /** Whatever lies below on the stack is left alone and does not influence the outcome, unless the
      program would have run out of stack without it. */
  lemma {:induction false} ExecUnder(host: Host, dict: Dict, n: nat, toks: seq<string>, base: Stack, st: Stack)
    requires !Starved(Exec(host, dict, n, toks, st))
    ensures Exec(host, dict, n, toks, base + st) == Under(base, Exec(host, dict, n, toks, st))
    decreases n, |toks|
  {
    if toks != [] {
      StepUnder(host, dict, n, toks[0], base, st);
      match Step(host, dict, n, toks[0], st)
      case Stop(_, _) =>
      case Ok(st') => ExecUnder(host, dict, n, toks[1..], base, st');
    }
  }

  lemma {:induction false} StepUnder(host: Host, dict: Dict, n: nat, tok: string, base: Stack, st: Stack)
    requires !Starved(Step(host, dict, n, tok, st))
    ensures Step(host, dict, n, tok, base + st) == Under(base, Step(host, dict, n, tok, st))
    decreases n, 0
  {
    if tok == "" {
    } else if tok !in dict {
      Assoc(base, st, [tok]);
    } else if !dict[tok].Word? {
      ApplyUnder(host, dict[tok], base, st);
    } else if n > 0 {
      ExecUnder(host, dict, n - 1, Split(dict[tok].command, ' '), base, st);
    }
  }

  /** An expression that evaluates on a fresh interpreter evaluates to the same value on a used one, and
      leaves what it found below its own leftovers. */
  lemma EvalUnder(host: Host, dict: Dict, n: nat, s: string, st: Stack)
    requires Eval(host, dict, n, s, []).Value?
    ensures Eval(host, dict, n, s, st) ==
            Value(Eval(host, dict, n, s, []).val, st + Eval(host, dict, n, s, []).rest)
  {
    ExecUnder(host, dict, n, Split(s, ' '), st, []);
    assert st + [] == st;
    PopUnder(st, Exec(host, dict, n, Split(s, ' '), []).stack);
  }

  /** The three command-line expressions, evaluated one after another on one interpreter, give what
      three fresh interpreters would give. */
  lemma ThreeEvals(host: Host, dict: Dict, n: nat, id: string, address: string, parent: string)
    requires Eval(host, dict, n, id, []).Value?
    requires Eval(host, dict, n, address, []).Value?
    requires Eval(host, dict, n, parent, []).Value?
    ensures var e1 := Eval(host, dict, n, id, []);
            var e2 := Eval(host, dict, n, address, e1.rest);
            && e2.Value? && e2.val == Eval(host, dict, n, address, []).val
            && var e3 := Eval(host, dict, n, parent, e2.rest);
               e3.Value? && e3.val == Eval(host, dict, n, parent, []).val
  {
    var e1 := Eval(host, dict, n, id, []);
    EvalUnder(host, dict, n, address, e1.rest);
    var e2 := Eval(host, dict, n, address, e1.rest);
    EvalUnder(host, dict, n, parent, e2.rest);
  }

  /** Without the proviso it is false: leftovers of one evaluation feed the next. */
  lemma LeftoversFeedTheNext(host: Host, dict: Dict)
    requires "1" !in dict && "2" !in dict && "dup" in dict && dict["dup"] == Dup
    ensures Eval(host, dict, 0, "1 2", []) == Value("2", ["1"])
    ensures Eval(host, dict, 0, "dup", []) == Fails(EmptyStack)
    ensures Eval(host, dict, 0, "dup", ["1"]) == Value("1", ["1"])
  {
    SplitCons("1", ' ', "2");
    SplitOne("2", ' ');
    SplitOne("dup", ' ');
    assert "1" + [' '] + "2" == "1 2";
    OneToken(host, dict, "2", ["1"]);
    assert ["1", "2"][1..] == ["2"];
    assert Exec(host, dict, 0, ["1", "2"], []) == Exec(host, dict, 0, ["2"], ["1"]);
    OneToken(host, dict, "dup", []);
    OneToken(host, dict, "dup", ["1"]);
    assert Apply(host, Dup, ["1"]) == Ok([] + ["1"] + ["1"]);
    assert ["1", "2"][..1] == ["1"] && ["1", "1"][..1] == ["1"];
  }

  lemma OneToken(host: Host, dict: Dict, tok: string, st: Stack)
    ensures Exec(host, dict, 0, [tok], st) == Step(host, dict, 0, tok, st)
  {
    assert [tok][1..] == [];
    var o := Step(host, dict, 0, tok, st);
    if o.Ok? { assert Exec(host, dict, 0, [], o.stack) == o; }
  }

  // ----- Words -----

  lemma {:induction false} ExecConcat(host: Host, dict: Dict, n: nat, a: seq<string>, b: seq<string>, st: Stack)
    ensures Exec(host, dict, n, a + b, st) ==
            match Exec(host, dict, n, a, st)
            case Ok(st') => Exec(host, dict, n, b, st')
            case Stop(w, r) => Stop(w, r)
    decreases |a|
  {
    if a == [] {
      assert a + b == b;
    } else {
      assert (a + b)[1..] == a[1..] + b;
      match Step(host, dict, n, a[0], st)
      case Stop(_, _) =>
      case Ok(st') => ExecConcat(host, dict, n, a[1..], b, st');
    }
  }

  predicate Diverges(o: Outcome) {
    o.Stop? && o.why == Loops
  }

  /** More room for nesting changes nothing once there was enough. */
  lemma {:induction false} MoreRoom(host: Host, dict: Dict, n: nat, m: nat, toks: seq<string>, st: Stack)
    requires n <= m && !Diverges(Exec(host, dict, n, toks, st))
    ensures Exec(host, dict, m, toks, st) == Exec(host, dict, n, toks, st)
    decreases n, |toks|
  {
    if toks != [] {
      var tok := toks[0];
      if tok != "" && tok in dict && dict[tok].Word? && n > 0 {
        MoreRoom(host, dict, n - 1, m - 1, Split(dict[tok].command, ' '), st);
      }
      assert Step(host, dict, m, tok, st) == Step(host, dict, n, tok, st);
      match Step(host, dict, n, tok, st)
      case Stop(_, _) =>
      case Ok(st') => MoreRoom(host, dict, n, m, toks[1..], st');
    }
  }

  /** The program `toks` ends with outcome `o` (which is not running forever). */
  ghost predicate Ends(host: Host, dict: Dict, toks: seq<string>, st: Stack, o: Outcome) {
    exists n: nat :: Exec(host, dict, n, toks, st) == o && !Diverges(o)
  }

  predicate IsWord(dict: Dict, w: string) {
    w != "" && w in dict && dict[w].Word?
  }

  lemma WordStep(host: Host, dict: Dict, n: nat, w: string, st: Stack)
    requires IsWord(dict, w)
    ensures Exec(host, dict, n + 1, [w], st) == Exec(host, dict, n, Split(dict[w].command, ' '), st)
  {
    var o := Step(host, dict, n + 1, w, st);
    assert [w][1..] == [];
    if o.Ok? { assert Exec(host, dict, n + 1, [], o.stack) == o; }
  }

  /** Replacing a word by its definition, anywhere in a program, preserves every outcome. */
  lemma WordMeansDefinition(host: Host, dict: Dict, a: seq<string>, w: string, b: seq<string>, st: Stack, o: Outcome)
    requires IsWord(dict, w)
    ensures var body := Split(dict[w].command, ' ');
            Ends(host, dict, a + [w] + b, st, o) <==> Ends(host, dict, a + body + b, st, o)
  {
    var body := Split(dict[w].command, ' ');
    if Ends(host, dict, a + [w] + b, st, o) {
      var n: nat :| Exec(host, dict, n, a + [w] + b, st) == o && !Diverges(o);
      Unfolds(host, dict, n, a, w, b, st);
      assert Exec(host, dict, n, a + body + b, st) == o;
    }
    if Ends(host, dict, a + body + b, st, o) {
      var n: nat :| Exec(host, dict, n, a + body + b, st) == o && !Diverges(o);
      Folds(host, dict, n, a, w, b, st);
      assert Exec(host, dict, n + 1, a + [w] + b, st) == o;
    }
  }

  lemma Unfolds(host: Host, dict: Dict, n: nat, a: seq<string>, w: string, b: seq<string>, st: Stack)
    requires IsWord(dict, w) && !Diverges(Exec(host, dict, n, a + [w] + b, st))
    ensures Exec(host, dict, n, a + Split(dict[w].command, ' ') + b, st) == Exec(host, dict, n, a + [w] + b, st)
  {
    var body := Split(dict[w].command, ' ');
    ExecConcat(host, dict, n, a + [w], b, st);
    ExecConcat(host, dict, n, a, [w], st);
    ExecConcat(host, dict, n, a + body, b, st);
    ExecConcat(host, dict, n, a, body, st);
    match Exec(host, dict, n, a, st)
    case Stop(_, _) =>
    case Ok(st1) =>
      if n > 0 {
        WordStep(host, dict, n - 1, w, st1);
        MoreRoom(host, dict, n - 1, n, body, st1);
      }
  }

  lemma Folds(host: Host, dict: Dict, n: nat, a: seq<string>, w: string, b: seq<string>, st: Stack)
    requires IsWord(dict, w) && !Diverges(Exec(host, dict, n, a + Split(dict[w].command, ' ') + b, st))
    ensures Exec(host, dict, n + 1, a + [w] + b, st) == Exec(host, dict, n, a + Split(dict[w].command, ' ') + b, st)
  {
    var body := Split(dict[w].command, ' ');
    ExecConcat(host, dict, n + 1, a + [w], b, st);
    ExecConcat(host, dict, n + 1, a, [w], st);
    ExecConcat(host, dict, n, a + body, b, st);
    ExecConcat(host, dict, n, a, body, st);
    MoreRoom(host, dict, n, n + 1, a, st);
    match Exec(host, dict, n, a, st)
    case Stop(_, _) =>
    case Ok(st1) =>
      WordStep(host, dict, n, w, st1);
      match Exec(host, dict, n, body, st1)
      case Stop(_, _) =>
      case Ok(st2) => MoreRoom(host, dict, n, n + 1, b, st2);
  }

  // ----- Acyclic dictionaries -----

  /** Every word is defined in terms of words of smaller rank. */
  ghost predicate Ranked(dict: Dict, rank: map<string, nat>) {
    forall w | IsWord(dict, w) ::
      w in rank && Below(dict, rank, rank[w], Split(dict[w].command, ' '))
  }

  ghost predicate Below(dict: Dict, rank: map<string, nat>, n: nat, toks: seq<string>) {
    forall i | 0 <= i < |toks| && IsWord(dict, toks[i]) :: toks[i] in rank && rank[toks[i]] < n
  }

  /** Replacing every word by its definition, and that again, `n` levels deep. */
  function Expand(dict: Dict, n: nat, toks: seq<string>): seq<string>
    decreases n, |toks|
  {
    if toks == [] then []
    else
      (if !IsWord(dict, toks[0]) || n == 0 then [toks[0]]
       else Expand(dict, n - 1, Split(dict[toks[0]].command, ' ')))
      + Expand(dict, n, toks[1..])
  }

  predicate Wordless(dict: Dict, toks: seq<string>) {
    forall i | 0 <= i < |toks| :: !IsWord(dict, toks[i])
  }

  lemma WordlessJoin(dict: Dict, a: seq<string>, b: seq<string>)
    requires Wordless(dict, a) && Wordless(dict, b)
    ensures Wordless(dict, a + b)
  {}

  /** In an acyclic dictionary full expansion ends: no word is left, and the expanded program, run
      without any words, has the outcome of the original. */
  lemma {:induction false} FullExpansion(host: Host, dict: Dict, rank: map<string, nat>, n: nat, toks: seq<string>,
                                        st: Stack)
    requires Ranked(dict, rank) && Below(dict, rank, n, toks)
    ensures Wordless(dict, Expand(dict, n, toks))
    ensures !Diverges(Exec(host, dict, n, toks, st))
    ensures Exec(host, dict, 0, Expand(dict, n, toks), st) == Exec(host, dict, n, toks, st)
    decreases n, |toks|, 0
  {
    if toks != [] {
      var tok := toks[0];
      var rest := Expand(dict, n, toks[1..]);
      if IsWord(dict, tok) {
        var body := Split(dict[tok].command, ' ');
        assert rank[tok] < n;
        FullExpansion(host, dict, rank, n - 1, body, st);
        ExecConcat(host, dict, 0, Expand(dict, n - 1, body), rest, st);
        FullExpansionTail(host, dict, rank, n, toks, st);
        WordlessJoin(dict, Expand(dict, n - 1, body), rest);
      } else {
        StepNoWord(host, dict, n, tok, st);
        ExecConcat(host, dict, 0, [tok], rest, st);
        FullExpansionTail(host, dict, rank, n, toks, st);
        WordlessJoin(dict, [tok], rest);
      }
    }
  }

  lemma {:induction false} FullExpansionTail(host: Host, dict: Dict, rank: map<string, nat>, n: nat,
                                            toks: seq<string>, st: Stack)
    requires Ranked(dict, rank) && Below(dict, rank, n, toks) && toks != []
    ensures var rest := Expand(dict, n, toks[1..]);
            && Wordless(dict, rest)
            && (var o := Step(host, dict, n, toks[0], st);
                o.Ok? ==> var o' := Exec(host, dict, n, toks[1..], o.stack);
                          !Diverges(o') && Exec(host, dict, 0, rest, o.stack) == o')
    decreases n, |toks| - 1, 1
  {
    var o := Step(host, dict, n, toks[0], st);
    FullExpansion(host, dict, rank, n, toks[1..], if o.Ok? then o.stack else st);
  }

  lemma StepNoWord(host: Host, dict: Dict, n: nat, tok: string, st: Stack)
    requires !IsWord(dict, tok)
    ensures Step(host, dict, 0, tok, st) == Step(host, dict, n, tok, st) && !Diverges(Step(host, dict, n, tok, st))
    ensures Exec(host, dict, 0, [tok], st) == Step(host, dict, n, tok, st)
  {
    OneToken(host, dict, tok, st);
  }
}
