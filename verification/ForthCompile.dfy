/** Expression trees, compiled to postfix. */
module ForthCompile {
  import opened Text
  import opened Forth
  import opened ForthLaws

  datatype Expr =
    | Lit(text: string)
    | Host
    | Base(of: Expr)
    | Bin(op: Op, left: Expr, right: Expr)
    | Cat(front: Expr, back: Expr)
    | If(els: Expr, thn: Expr, cond: Expr)

  predicate IsArith(op: Op) {
    op.Plus? || op.Sub? || op.Times? || op.Div? || op.Mod? || op.Roundup?
  }

  function Symbol(op: Op): string
    requires IsArith(op)
  {
    match op
    case Plus => "+"
    case Sub => "-"
    case Times => "*"
    case Div => "/"
    case Mod => "%"
    case Roundup => "roundup"
  }

  /** The operator names still mean the built-in operators. */
  ghost predicate Standard(dict: Dict) {
    && (forall op | IsArith(op) :: Symbol(op) in dict && dict[Symbol(op)] == op)
    && "hostname" in dict && dict["hostname"] == Hostname
    && "hostbase" in dict && dict["hostbase"] == Hostbase
    && "strcat" in dict && dict["strcat"] == Strcat
    && "ifelse" in dict && dict["ifelse"] == IfElse
  }

  /** Literals are single tokens that name no operator, and every arithmetic node is one. */
  predicate WellFormed(dict: Dict, e: Expr) {
    match e
    case Lit(s) => s != "" && ' ' !in s && s !in dict
    case Host => true
    case Base(f) => WellFormed(dict, f)
    case Bin(op, l, r) => IsArith(op) && WellFormed(dict, l) && WellFormed(dict, r)
    case Cat(l, r) => WellFormed(dict, l) && WellFormed(dict, r)
    case If(z, y, x) => WellFormed(dict, z) && WellFormed(dict, y) && WellFormed(dict, x)
  }

  function Compile(dict: Dict, e: Expr): seq<string>
    requires WellFormed(dict, e)
  {
    match e
    case Lit(s) => [s]
    case Host => ["hostname"]
    case Base(f) => Compile(dict, f) + ["hostbase"]
    case Bin(op, l, r) => Compile(dict, l) + Compile(dict, r) + [Symbol(op)]
    case Cat(l, r) => Compile(dict, l) + Compile(dict, r) + ["strcat"]
    case If(z, y, x) => Compile(dict, z) + Compile(dict, y) + Compile(dict, x) + ["ifelse"]
  }

  /** What an expression means: both branches of an If are evaluated, the else branch first. */
  datatype Meaning = Is(val: string) | Faults(why: Why)

  function AsInt(s: string): Popped<int> {
    match Atoi(s)
    case Number(n) => Got(n, [])
    case Syntax => None(BadNumber, [])
    case Range(_) => None(BadNumber, [])
  }

  function Mean(host: Host, e: Expr): Meaning {
    match e
    case Lit(s) => Is(s)
    case Host => if host.Named? then Is(host.name) else Faults(Crash)
    case Base(f) => (match Mean(host, f)
      case Faults(w) => Faults(w)
      case Is(s) => Is(TrimLeft(s)))
    case Bin(op, l, r) => if !IsArith(op) then Faults(Crash) else (match Mean(host, l)
      case Faults(w) => Faults(w)
      case Is(a) => match Mean(host, r)
        case Faults(w) => Faults(w)
        case Is(b) => Calculate(op, a, b))
    case Cat(l, r) => (match Mean(host, l)
      case Faults(w) => Faults(w)
      case Is(a) => match Mean(host, r)
        case Faults(w) => Faults(w)
        case Is(b) => Is(a + b))
    case If(z, y, x) => (match Mean(host, z)
      case Faults(w) => Faults(w)
      case Is(c) => match Mean(host, y)
        case Faults(w) => Faults(w)
        case Is(b) => match Mean(host, x)
          case Faults(w) => Faults(w)
          case Is(a) => match AsInt(a)
            case None(w, _) => Faults(w)
            case Got(n, _) => Is(if n != 0 then b else c))
  }

  function Calculate(op: Op, a: string, b: string): Meaning
    requires IsArith(op)
  {
    match AsInt(b)
    case None(w, _) => Faults(w)
    case Got(x, _) => match AsInt(a)
      case None(w, _) => Faults(w)
      case Got(y, _) => match Arith(op, y, x)
        case None(w, _) => Faults(w)
        case Got(z, _) => Is(Itoa(z))
  }

  ghost function Size(e: Expr): nat
    ensures Size(e) > 0
  {
    match e
    case Lit(_) => 1
    case Host => 1
    case Base(f) => 1 + Size(f)
    case Bin(_, l, r) => 1 + Size(l) + Size(r)
    case Cat(l, r) => 1 + Size(l) + Size(r)
    case If(z, y, x) => 1 + Size(z) + Size(y) + Size(x)
  }

  /** An outcome that delivers a meaning on top of `st`, or fails for the same reason. */
  ghost predicate Delivers(o: Outcome, st: Stack, m: Meaning) {
    match m
    case Is(v) => o == Ok(st + [v])
    case Faults(w) => o.Stop? && o.why == w
  }

  lemma TwoOnTop(st: Stack, a: string, b: string)
    ensures var s := st + [a] + [b]; s[|s| - 1] == b && s[..|s| - 1] == st + [a] && (st + [a])[..|st|] == st
  {}

  lemma LastToken(host: Host, dict: Dict, n: nat, toks: seq<string>, tok: string, st: Stack)
    requires tok != "" && tok in dict && !dict[tok].Word?
    ensures match Exec(host, dict, n, toks, st)
            case Ok(st') => Exec(host, dict, n, toks + [tok], st) == Apply(host, dict[tok], st')
            case Stop(w, r) => Exec(host, dict, n, toks + [tok], st) == Stop(w, r)
  {
    ExecConcat(host, dict, n, toks, [tok], st);
    match Exec(host, dict, n, toks, st)
    case Stop(_, _) =>
    case Ok(st') =>
      assert [tok][1..] == [];
      var o := Step(host, dict, n, tok, st');
      if o.Ok? { assert Exec(host, dict, n, [], o.stack) == o; }
  }

  /** Running two compiled operands leaves their meanings on top, or stops at the first that faults. */
  lemma {:induction false} TwoOperands(host: Host, dict: Dict, n: nat, l: Expr, r: Expr, st: Stack)
    requires Standard(dict) && WellFormed(dict, l) && WellFormed(dict, r)
    ensures var o := Exec(host, dict, n, Compile(dict, l) + Compile(dict, r), st);
            match Mean(host, l)
            case Faults(w) => o.Stop? && o.why == w
            case Is(a) => match Mean(host, r)
              case Faults(w) => o.Stop? && o.why == w
              case Is(b) => o == Ok(st + [a] + [b])
    decreases Size(l) + Size(r), 0
  {
    CompileCorrect(host, dict, n, l, st);
    ExecConcat(host, dict, n, Compile(dict, l), Compile(dict, r), st);
    if Mean(host, l).Is? { CompileCorrect(host, dict, n, r, st + [Mean(host, l).val]); }
  }

  /** Running a compiled expression pushes exactly its meaning on an untouched stack, and fails exactly
      when the expression does, for the same reason. */
  lemma {:induction false} CompileCorrect(host: Host, dict: Dict, n: nat, e: Expr, st: Stack)
    requires Standard(dict) && WellFormed(dict, e)
    ensures Delivers(Exec(host, dict, n, Compile(dict, e), st), st, Mean(host, e))
    decreases Size(e), 2
  {
    if e.Lit? { LitCorrect(host, dict, n, e.text, st); }
    hide Exec, Step, Atoi, Itoa, TrimLeft;
    match e
    case Lit(s) =>
    case Host =>
      assert [] + ["hostname"] == ["hostname"];
      LastToken(host, dict, n, [], "hostname", st);
    case Base(f) =>
      CompileCorrect(host, dict, n, f, st);
      LastToken(host, dict, n, Compile(dict, f), "hostbase", st);
      if Mean(host, f).Is? { assert (st + [Mean(host, f).val])[..|st|] == st; }
    case Bin(op, l, r) => BinCorrect(host, dict, n, op, l, r, st);
    case Cat(l, r) => CatCorrect(host, dict, n, l, r, st);
    case If(z, y, x) => IfCorrect(host, dict, n, z, y, x, st);
  }

  lemma {:induction false} BinCorrect(host: Host, dict: Dict, n: nat, op: Op, l: Expr, r: Expr, st: Stack)
    requires Standard(dict) && WellFormed(dict, Bin(op, l, r))
    ensures Delivers(Exec(host, dict, n, Compile(dict, Bin(op, l, r)), st), st, Mean(host, Bin(op, l, r)))
    decreases Size(l) + Size(r), 1
  {
    hide Exec, Step, TrimLeft;
    TwoOperands(host, dict, n, l, r, st);
    LastToken(host, dict, n, Compile(dict, l) + Compile(dict, r), Symbol(op), st);
    if Mean(host, l).Is? && Mean(host, r).Is? { Calculated(st, op, Mean(host, l).val, Mean(host, r).val); }
  }

  lemma Calculated(st: Stack, op: Op, a: string, b: string)
    requires IsArith(op)
    ensures Delivers(Arith2(op, st + [a] + [b]), st, Calculate(op, a, b))
  {
    TwoOnTop(st, a, b);
  }

  lemma {:induction false} CatCorrect(host: Host, dict: Dict, n: nat, l: Expr, r: Expr, st: Stack)
    requires Standard(dict) && WellFormed(dict, Cat(l, r))
    ensures Delivers(Exec(host, dict, n, Compile(dict, Cat(l, r)), st), st, Mean(host, Cat(l, r)))
    decreases Size(l) + Size(r), 1
  {
    hide Exec, Step, TrimLeft;
    TwoOperands(host, dict, n, l, r, st);
    LastToken(host, dict, n, Compile(dict, l) + Compile(dict, r), "strcat", st);
    if Mean(host, l).Is? && Mean(host, r).Is? { TwoOnTop(st, Mean(host, l).val, Mean(host, r).val); }
  }

  lemma LitCorrect(host: Host, dict: Dict, n: nat, s: string, st: Stack)
    requires WellFormed(dict, Lit(s))
    ensures Exec(host, dict, n, [s], st) == Ok(st + [s])
  {
    assert [s][1..] == [];
    assert Exec(host, dict, n, [], st + [s]) == Ok(st + [s]);
  }

  lemma {:induction false} IfCorrect(host: Host, dict: Dict, n: nat, z: Expr, y: Expr, x: Expr, st: Stack)
    requires Standard(dict) && WellFormed(dict, If(z, y, x))
    ensures Delivers(Exec(host, dict, n, Compile(dict, If(z, y, x)), st), st, Mean(host, If(z, y, x)))
    decreases Size(z) + Size(y) + Size(x), 3
  {
    hide Exec, Step, Atoi, Itoa, TrimLeft;
    TwoOperands(host, dict, n, z, y, st);
    var zy := Compile(dict, z) + Compile(dict, y);
    ExecConcat(host, dict, n, zy, Compile(dict, x), st);
    LastToken(host, dict, n, zy + Compile(dict, x), "ifelse", st);
    if Mean(host, z).Is? && Mean(host, y).Is? {
      var c, b := Mean(host, z).val, Mean(host, y).val;
      CompileCorrect(host, dict, n, x, st + [c] + [b]);
      if Mean(host, x).Is? { Chosen(host, st, c, b, Mean(host, x).val); }
    }
  }

  lemma Chosen(host: Host, st: Stack, c: string, b: string, a: string)
    ensures var o := Apply(host, IfElse, st + [c] + [b] + [a]);
            match AsInt(a)
            case None(w, _) => o.Stop? && o.why == w
            case Got(k, _) => o == Ok(st + [if k != 0 then b else c])
  {
    TwoOnTop(st + [c], b, a);
    TwoOnTop(st, c, b);
  }

  /** The text of an expression: its tokens separated by single spaces. */
  function Show(dict: Dict, e: Expr): string
    requires WellFormed(dict, e)
  {
    Join(Compile(dict, e), ' ')
  }

  lemma {:induction false} CompiledTokens(dict: Dict, e: Expr)
    requires WellFormed(dict, e)
    ensures Compile(dict, e) != [] && Spaceless(Compile(dict, e))
  {
    match e
    case Lit(s) =>
    case Host =>
    case Base(f) =>
      CompiledTokens(dict, f);
      SpacelessJoin(Compile(dict, f), ["hostbase"]);
    case Bin(op, l, r) =>
      CompiledTokens(dict, l);
      CompiledTokens(dict, r);
      SpacelessJoin(Compile(dict, l), Compile(dict, r));
      SpacelessJoin(Compile(dict, l) + Compile(dict, r), [Symbol(op)]);
    case Cat(l, r) =>
      CompiledTokens(dict, l);
      CompiledTokens(dict, r);
      SpacelessJoin(Compile(dict, l), Compile(dict, r));
      SpacelessJoin(Compile(dict, l) + Compile(dict, r), ["strcat"]);
    case If(z, y, x) =>
      CompiledTokens(dict, z);
      CompiledTokens(dict, y);
      CompiledTokens(dict, x);
      SpacelessJoin(Compile(dict, z), Compile(dict, y));
      SpacelessJoin(Compile(dict, z) + Compile(dict, y), Compile(dict, x));
      SpacelessJoin(Compile(dict, z) + Compile(dict, y) + Compile(dict, x), ["ifelse"]);
  }

  predicate Spaceless(toks: seq<string>) {
    forall i | 0 <= i < |toks| :: ' ' !in toks[i]
  }

  lemma SpacelessJoin(a: seq<string>, b: seq<string>)
    requires Spaceless(a) && Spaceless(b)
    ensures Spaceless(a + b)
  {}

  /** Evaluating the text of an expression returns its meaning and leaves the stack as it was. */
  lemma EvalShown(host: Host, dict: Dict, n: nat, e: Expr, st: Stack)
    requires Standard(dict) && WellFormed(dict, e)
    ensures Eval(host, dict, n, Show(dict, e), st) ==
            match Mean(host, e) case Is(v) => Value(v, st) case Faults(w) => Fails(w)
  {
    CompiledTokens(dict, e);
    SplitJoin(Compile(dict, e), ' ');
    CompileCorrect(host, dict, n, e, st);
    if Mean(host, e).Is? { assert (st + [Mean(host, e).val])[..|st|] == st; }
  }

  // ----- Ideal arithmetic -----

  /** The integer an arithmetic expression over decimal literals denotes, and whether all intermediate
      results stay in the machine's range with no division by zero. */
  datatype Ideal = Exact(n: int) | Outside

  function Denote(e: Expr): Ideal {
    match e
    case Lit(s) => (match Atoi(s) case Number(n) => Exact(n) case _ => Outside)
    case Bin(op, l, r) => (match (Denote(l), Denote(r))
      case (Exact(a), Exact(b)) => Combine(op, a, b)
      case _ => Outside)
    case _ => Outside
  }

  function Combine(op: Op, a: int, b: int): Ideal {
    var z := (match op
      case Plus => Exact(a + b)
      case Sub => Exact(a - b)
      case Times => Exact(a * b)
      case Div => if b == 0 then Outside else Exact(Quot(a, b))
      case Mod => if b == 0 then Outside else Exact(Rem(a, b))
      case _ => Outside);
    if z.Exact? && InRange(z.n) then z else Outside
  }

  lemma CombineIsExact(op: Op, a: int, b: int)
    requires Combine(op, a, b).Exact?
    ensures InRange(Combine(op, a, b).n) && IsArith(op) && Arith(op, a, b) == Got(Combine(op, a, b).n, [])
  {
    hide Quot, Rem, Wrap;
    if op.Times? { assert a * b == b * a; }
  }

  /** Within range the machine computes what ordinary arithmetic does. */
  lemma {:induction false} MachineIsExact(host: Host, e: Expr)
    requires Denote(e).Exact?
    ensures Mean(host, e).Is? && InRange(Denote(e).n)
    ensures Atoi(Mean(host, e).val) == Number(Denote(e).n)
    ensures e.Bin? ==> Mean(host, e).val == Itoa(Denote(e).n)
  {
    match e
    case Lit(s) => AtoiRange(s);
    case Bin(op, l, r) =>
      MachineIsExact(host, l);
      MachineIsExact(host, r);
      BinIsExact(host, e);
  }

  lemma BinIsExact(host: Host, e: Expr)
    requires e.Bin? && Denote(e).Exact?
    requires var l, r := e.left, e.right;
             && Denote(l).Exact? && Denote(r).Exact? && Mean(host, l).Is? && Mean(host, r).Is?
             && Atoi(Mean(host, l).val) == Number(Denote(l).n) && Atoi(Mean(host, r).val) == Number(Denote(r).n)
    ensures Mean(host, e).Is? && InRange(Denote(e).n)
    ensures Atoi(Mean(host, e).val) == Number(Denote(e).n) && Mean(host, e).val == Itoa(Denote(e).n)
  {
    var a, b := Denote(e.left).n, Denote(e.right).n;
    assert Denote(e) == Combine(e.op, a, b);
    CombineIsExact(e.op, a, b);
    AtoiItoa(Denote(e).n);
    hide Atoi, Itoa, Combine, Arith;
  }

  lemma AtoiRange(s: string)
    ensures Atoi(s).Number? ==> InRange(Atoi(s).n)
  {}
}
