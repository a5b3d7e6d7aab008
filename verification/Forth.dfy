/** The postfix interpreter: a stack of strings, built-in operators, and words defined by the user. */
module Forth {
  import opened Text

  type Stack = seq<string>

  /** Why an evaluation stops.  The first two are recovered by Eval and returned as errors; a crash is a
      run-time error, which Eval re-panics; Loops is unbounded recursion through user-defined words. */
  datatype Why = EmptyStack | BadNumber | Crash | Loops

  datatype Outcome = Ok(stack: Stack) | Stop(why: Why, left: Stack)

  datatype Op =
    | Plus | Sub | Times | Div | Mod | Swap | IfElse | Hostname | Hostbase | Strcat | Roundup | Dup
    | Word(command: string)

  type Dict = map<string, Op>

  const BuiltIns: Dict := map[
    "+" := Plus, "-" := Sub, "*" := Times, "/" := Div, "%" := Mod, "swap" := Swap, "ifelse" := IfElse,
    "hostname" := Hostname, "hostbase" := Hostbase, "strcat" := Strcat, "roundup" := Roundup, "dup" := Dup]

  /** os.Hostname either yields a name or fails. */
  datatype Host = Named(name: string) | Unknown

  // ----- Machine arithmetic -----

  /** Two's complement wrap-around of Go's int. */
  function Wrap(z: int): (w: int)
    ensures InRange(w) && (InRange(z) ==> w == z)
  {
    (z - MIN_INT) % 0x1_0000_0000_0000_0000 + MIN_INT
  }

  /** Division truncates toward zero. */
  function Quot(y: int, x: int): int
    requires x != 0
  {
    var q := (if y < 0 then -y else y) / (if x < 0 then -x else x);
    if (y < 0) == (x < 0) then q else -q
  }

  function Rem(y: int, x: int): int
    requires x != 0
  {
    y - x * Quot(y, x)
  }

  // ----- Operators -----

  /** A popped value, with the stack below it, or the reason there is none. */
  datatype Popped<T> = Got(val: T, rest: Stack) | None(why: Why, rest: Stack)

  function Pop(st: Stack): Popped<string> {
    if st == [] then None(EmptyStack, st) else Got(st[|st| - 1], st[..|st| - 1])
  }

  function ToInt(st: Stack): Popped<int> {
    match Pop(st)
    case None(w, r) => None(w, r)
    case Got(s, r) => match Atoi(s)
      case Number(n) => Got(n, r)
      case Syntax => None(BadNumber, r)
      case Range(_) => None(BadNumber, r)
  }

  /** The value of a two-argument operator, `x` being the top of the stack; none if it divides by zero. */
  function Arith(op: Op, y: int, x: int): Popped<int>
    requires op.Plus? || op.Sub? || op.Times? || op.Div? || op.Mod? || op.Roundup?
  {
    match op
    case Plus => Got(Wrap(x + y), [])
    case Sub => Got(Wrap(y - x), [])
    case Times => Got(Wrap(x * y), [])
    case Div => if x == 0 then None(Crash, []) else Got(Wrap(Quot(y, x)), [])
    case Mod => if x == 0 then None(Crash, []) else Got(Rem(y, x), [])
    case Roundup =>
      if x == 0 then None(Crash, []) else Got(Wrap(Quot(Wrap(Wrap(y + x) - 1), x) * x), [])
  }

  function Arith2(op: Op, st: Stack): Outcome
    requires op.Plus? || op.Sub? || op.Times? || op.Div? || op.Mod? || op.Roundup?
  {
    match ToInt(st)
    case None(w, r) => Stop(w, r)
    case Got(x, r1) => match ToInt(r1)
      case None(w, r) => Stop(w, r)
      case Got(y, r2) => match Arith(op, y, x)
        case None(w, _) => Stop(w, r2)
        case Got(z, _) => Ok(r2 + [Itoa(z)])
  }

  predicate Stripped(c: char) {
    'a' <= c <= 'z' || c == ' ' || c == '-'
  }

  function TrimLeft(s: string): string {
    if s != "" && Stripped(s[0]) then TrimLeft(s[1..]) else s
  }

  function Apply(host: Host, op: Op, st: Stack): Outcome
    requires !op.Word?
  {
    match op
    case Plus => Arith2(op, st)
    case Sub => Arith2(op, st)
    case Times => Arith2(op, st)
    case Div => Arith2(op, st)
    case Mod => Arith2(op, st)
    case Roundup => Arith2(op, st)
    case Swap => (match Pop(st)
      case None(w, r) => Stop(w, r)
      case Got(x, r1) => match Pop(r1)
        case None(w, r) => Stop(w, r)
        case Got(y, r2) => Ok(r2 + [x] + [y]))
    case Strcat => (match Pop(st)
      case None(w, r) => Stop(w, r)
      case Got(x, r1) => match Pop(r1)
        case None(w, r) => Stop(w, r)
        case Got(y, r2) => Ok(r2 + [y + x]))
    case Dup => (match Pop(st)
      case None(w, r) => Stop(w, r)
      case Got(x, r) => Ok(r + [x] + [x]))
    case IfElse => (match ToInt(st)
      case None(w, r) => Stop(w, r)
      case Got(x, r1) => match Pop(r1)
        case None(w, r) => Stop(w, r)
        case Got(y, r2) => match Pop(r2)
          case None(w, r) => Stop(w, r)
          case Got(z, r3) => Ok(r3 + [if x != 0 then y else z]))
    case Hostname => if host.Named? then Ok(st + [host.name]) else Stop(Crash, st)
    case Hostbase => (match Pop(st)
      case None(w, r) => Stop(w, r)
      case Got(x, r) => Ok(r + [TrimLeft(x)]))
  }

  // ----- Programs -----

  /** Running tokens; `n` bounds the nesting of user-defined words. */
  function Exec(host: Host, dict: Dict, n: nat, toks: seq<string>, st: Stack): Outcome
    decreases n, |toks|
  {
    if toks == [] then Ok(st)
    else match Step(host, dict, n, toks[0], st)
      case Stop(w, r) => Stop(w, r)
      case Ok(st') => Exec(host, dict, n, toks[1..], st')
  }

  /** One token: empty ones, left by repeated spaces, are skipped. */
  function Step(host: Host, dict: Dict, n: nat, tok: string, st: Stack): Outcome
    decreases n, 0
  {
    if tok == "" then Ok(st)
    else if tok !in dict then Ok(st + [tok])
    else if !dict[tok].Word? then Apply(host, dict[tok], st)
    else if n == 0 then Stop(Loops, st)
    else Exec(host, dict, n - 1, Split(dict[tok].command, ' '), st)
  }

  /** `Eval`: run, then pop the result. */
  datatype Result = Value(val: string, rest: Stack) | Fails(why: Why)

  function Eval(host: Host, dict: Dict, n: nat, s: string, st: Stack): Result {
    match Exec(host, dict, n, Split(s, ' '), st)
    case Stop(w, _) => Fails(w)
    case Ok(st') => match Pop(st')
      case None(w, _) => Fails(w)
      case Got(v, r) => Value(v, r)
  }
}
