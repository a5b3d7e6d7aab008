/** The interpreter as it is written: a stack for each interpreter and one operator table for all of them,
    updated in place. */
module ForthMachine {
  import opened Text
  import F = Forth
  import opened Forth

  /** How a call ended; on a stop the operators leave the stack as they found it at that point. */
  datatype Status = Fine | Halt(why: Why)

  function Seen(s: Status, st: Stack): Outcome {
    if s.Fine? then Ok(st) else Stop(s.why, st)
  }

  /** The package's operators, shared by every interpreter. */
  class Package {
    var opmap: map<string, Op>

    constructor ()
      ensures opmap == BuiltIns
    {
      opmap := BuiltIns;
    }
  }

  class Machine {
    const host: Host
    const package: Package
    var stack: seq<string>

    constructor (host: Host, package: Package)
      ensures this.host == host && this.package == package && stack == []
    {
      this.host, this.package := host, package;
      stack := [];
    }

    method Push(s: string)
      modifies this`stack
      ensures stack == old(stack) + [s]
    {
      stack := stack + [s];
    }

    method Pop() returns (status: Status, ret: string)
      modifies this`stack
      ensures match F.Pop(old(stack))
              case Got(v, r) => status == Fine && ret == v && stack == r
              case None(w, r) => status == Halt(w) && stack == r
    {
      if |stack| < 1 { return Halt(EmptyStack), ""; }
      ret := stack[|stack| - 1];
      stack := stack[..|stack| - 1];
      status := Fine;
    }

    method ToInt() returns (status: Status, i: int)
      modifies this`stack
      ensures match F.ToInt(old(stack))
              case Got(v, r) => status == Fine && i == v && stack == r
              case None(w, r) => status == Halt(w) && stack == r
    {
      var s;
      status, s := Pop();
      if status.Halt? { return status, 0; }
      match Atoi(s)
      case Number(n) => i := n;
      case Syntax => return Halt(BadNumber), 0;
      case Range(_) => return Halt(BadNumber), 0;
    }

    /** plus, times, sub, div, mod and roundup. */
    method Binary(op: Op) returns (status: Status)
      requires op.Plus? || op.Sub? || op.Times? || op.Div? || op.Mod? || op.Roundup?
      modifies this`stack
      ensures Seen(status, stack) == Arith2(op, old(stack))
    {
      var x, y;
      status, x := ToInt();
      if status.Halt? { return; }
      status, y := ToInt();
      if status.Halt? { return; }
      match Arith(op, y, x)
      case None(why, _) => status := Halt(why);
      case Got(z, _) => Push(Itoa(z));
    }

    method SwapTop() returns (status: Status)
      modifies this`stack
      ensures Seen(status, stack) == Apply(host, Swap, old(stack))
      ensures var n := |old(stack)|;
              if n < 2 then status == Halt(EmptyStack) && stack == []
              else status == Fine && stack == old(stack)[..n - 2] + [old(stack)[n - 1], old(stack)[n - 2]]
    {
      var x, y;
      status, x := Pop();
      if status.Halt? { return; }
      status, y := Pop();
      if status.Halt? { return; }
      Push(x);
      Push(y);
    }

    method Concat() returns (status: Status)
      modifies this`stack
      ensures Seen(status, stack) == Apply(host, Strcat, old(stack))
      ensures var n := |old(stack)|;
              if n < 2 then status == Halt(EmptyStack) && stack == []
              else status == Fine && stack == old(stack)[..n - 2] + [old(stack)[n - 2] + old(stack)[n - 1]]
    {
      var x, y;
      status, x := Pop();
      if status.Halt? { return; }
      status, y := Pop();
      if status.Halt? { return; }
      Push(y + x);
    }

    method Duplicate() returns (status: Status)
      modifies this`stack
      ensures Seen(status, stack) == Apply(host, Dup, old(stack))
      ensures var n := |old(stack)|;
              if n < 1 then status == Halt(EmptyStack) && stack == []
              else status == Fine && stack == old(stack) + [old(stack)[n - 1]]
    {
      var x;
      status, x := Pop();
      if status.Halt? { return; }
      Push(x);
      Push(x);
    }

    method Choose() returns (status: Status)
      modifies this`stack
      ensures Seen(status, stack) == Apply(host, IfElse, old(stack))
    {
      var x, y, z;
      status, x := ToInt();
      if status.Halt? { return; }
      status, y := Pop();
      if status.Halt? { return; }
      status, z := Pop();
      if status.Halt? { return; }
      if x != 0 { Push(y); } else { Push(z); }
    }

    method HostName() returns (status: Status)
      modifies this`stack
      ensures Seen(status, stack) == Apply(host, Hostname, old(stack))
    {
      match host
      case Unknown => return Halt(Crash);
      case Named(h) => Push(h);
      status := Fine;
    }

    method HostBase() returns (status: Status)
      modifies this`stack
      ensures Seen(status, stack) == Apply(host, Hostbase, old(stack))
    {
      var x;
      status, x := Pop();
      if status.Halt? { return; }
      Push(TrimLeft(x));
    }

    method Run(op: Op) returns (status: Status)
      requires !op.Word?
      modifies this`stack
      ensures Seen(status, stack) == Apply(host, op, old(stack))
    {
      match op
      case Swap => status := SwapTop();
      case IfElse => status := Choose();
      case Hostname => status := HostName();
      case Hostbase => status := HostBase();
      case Strcat => status := Concat();
      case Dup => status := Duplicate();
      case Plus => status := Binary(op);
      case Sub => status := Binary(op);
      case Times => status := Binary(op);
      case Div => status := Binary(op);
      case Mod => status := Binary(op);
      case Roundup => status := Binary(op);
    }

    /** `n` bounds the nesting of user-defined words. */
    method IEval(n: nat, s: string) returns (status: Status)
      modifies this`stack
      ensures Seen(status, stack) == Exec(host, package.opmap, n, Split(s, ' '), old(stack))
      decreases n
    {
      hide Split, Apply;
      var toks := Split(s, ' ');
      ghost var whole := Exec(host, package.opmap, n, toks, stack);
      for i := 0 to |toks|
        invariant whole == Exec(host, package.opmap, n, toks[i..], stack)
      {
        assert toks[i..][0] == toks[i] && toks[i..][1..] == toks[i + 1..];
        var val := toks[i];
        if |val| == 0 { continue; }
        if val in package.opmap {
          match package.opmap[val] {
            case Word(command) =>
              if n == 0 { return Halt(Loops); }
              status := IEval(n - 1, command);
            case _ => status := Run(package.opmap[val]);
          }
          if status.Halt? { return; }
        } else {
          Push(val);
        }
      }
      status := Fine;
    }

    method Eval(n: nat, s: string) returns (status: Status, ret: string)
      modifies this`stack
      ensures match F.Eval(host, package.opmap, n, s, old(stack))
              case Value(v, r) => status == Fine && ret == v && stack == r
              case Fails(w) => status == Halt(w)
    {
      ret := "";
      status := IEval(n, s);
      if status.Halt? { return; }
      status, ret := Pop();
    }

    /** A word defined through one interpreter is defined for all that share the package. */
    method NewWord(name: string, command: string)
      modifies package
      ensures package.opmap == old(package.opmap)[name := Word(command)]
    {
      package.opmap := package.opmap[name := Word(command)];
    }
  }

  /** Two interpreters of one package: a word defined on the first runs on the second, whose stack the
      definition leaves alone. */
  method DefineAndRun(a: Machine, b: Machine, name: string, command: string, n: nat) returns (status: Status)
    requires a.package == b.package && a != b
    modifies a.package, b`stack
    ensures Seen(status, b.stack) ==
            Exec(b.host, old(a.package.opmap)[name := Word(command)], n, Split(name, ' '), old(b.stack))
  {
    a.NewWord(name, command);
    status := b.IEval(n, name);
  }
}
