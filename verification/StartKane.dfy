/** The bootstrap program: which nodes it starts, and the tree that its parent expression computes. */
module StartKane {
  import opened Text
  import opened Forth
  import opened ForthCompile

  const BLOCKSIZE := 20
  const ROOT := "172.16.255.254"

  /** The words of the expression passed to every node with -myParent. */
  const PARENT_TOKENS: seq<string> :=
    [ROOT, "kn", "hostname", "hostbase", "20", "roundup", "strcat", "hostname", "hostbase", "20", "%", "ifelse"]

  /** The same as a tree: the chief of the node's block, or the root if the node is a chief itself. */
  function ParentTree(root: string, prefix: string, size: string): Expr {
    If(Lit(root),
       Cat(Lit(prefix), Bin(Roundup, Base(Expr.Host), Lit(size))),
       Bin(Mod, Base(Expr.Host), Lit(size)))
  }

  /** The operators are the built-in ones, and the literals name none of them. */
  ghost predicate Fits(dict: Dict, root: string, prefix: string, size: string) {
    Standard(dict) && WellFormed(dict, ParentTree(root, prefix, size))
  }

  lemma BuiltInsStandard()
    ensures Standard(BuiltIns)
  {
    var b := BuiltIns;
    forall op | IsArith(op) ensures Symbol(op) in b && b[Symbol(op)] == op {
      match op
      case Plus => assert b["+"] == Plus;
      case Sub => assert b["-"] == Sub;
      case Times => assert b["*"] == Times;
      case Div => assert b["/"] == Div;
      case Mod => assert b["%"] == Mod;
      case Roundup => assert b["roundup"] == Roundup;
    }
  }

  lemma BuiltInsFit()
    ensures Fits(BuiltIns, ROOT, "kn", "20")
  {
    BuiltInsStandard();
    hide Standard;
    NotBuiltIn(ROOT);
    NotBuiltIn("kn");
    NotBuiltIn("20");
  }

  lemma NotBuiltIn(w: string)
    requires w != "" && (w[0] == '1' || w[0] == 'k' || w[0] == '2')
    ensures w !in BuiltIns
  {}

  lemma ParentTokens(dict: Dict, root: string, prefix: string, size: string)
    requires Fits(dict, root, prefix, size)
    ensures Compile(dict, ParentTree(root, prefix, size)) ==
            [root, prefix, "hostname", "hostbase", size, "roundup", "strcat",
             "hostname", "hostbase", size, "%", "ifelse"]
  {
    hide Standard;
    var tree := ParentTree(root, prefix, size);
    assert WellFormed(dict, tree.thn) && WellFormed(dict, tree.cond);
    assert WellFormed(dict, tree.thn.back) && WellFormed(dict, tree.thn.front);
    NumberTokens(dict, Roundup, size);
    NumberTokens(dict, Mod, size);
    assert Compile(dict, tree.thn) == [prefix] + Compile(dict, tree.thn.back) + ["strcat"];
  }

  lemma NumberTokens(dict: Dict, op: Op, size: string)
    requires IsArith(op) && WellFormed(dict, Bin(op, Base(Expr.Host), Lit(size)))
    ensures Compile(dict, Bin(op, Base(Expr.Host), Lit(size))) == ["hostname", "hostbase", size, Symbol(op)]
  {
    hide Symbol;
    assert Compile(dict, Base(Expr.Host)) == ["hostname", "hostbase"];
  }

  /** The least multiple of the block size that is not below `n`. */
  function Chief(n: nat): (m: nat)
    ensures m % BLOCKSIZE == 0 && n <= m < n + BLOCKSIZE
  {
    (n + BLOCKSIZE - 1) / BLOCKSIZE * BLOCKSIZE
  }

  function NodeName(n: nat): string {
    "kn" + Itoa(n)
  }

  /** Where node `n` should look for its parent. */
  function Parent(n: nat): string {
    if n % BLOCKSIZE == 0 then ROOT else NodeName(Chief(n))
  }

  lemma HostNumber(n: nat)
    ensures TrimLeft(NodeName(n)) == Itoa(n)
  {
    var s := NodeName(n);
    assert s[0] == 'k' && s[1..][0] == 'n' && s[1..][1..] == Itoa(n);
    assert TrimLeft(s) == TrimLeft(s[1..]) == TrimLeft(s[1..][1..]);
    assert IsDigit(Itoa(n)[0]);
  }

  lemma TwentyIsTwenty()
    ensures Atoi("20") == Number(20)
  {
    assert '0' + 2 as char == '2' && '0' + 0 as char == '0';
    assert DigitsOf(2) == ['2'];
    assert DigitsOf(20) == DigitsOf(2) + ['0'] == "20";
    AtoiItoa(20);
  }

  lemma TooBig(n: nat)
    requires n > MAX_INT
    ensures Atoi(Itoa(n)) == Range(MAX_INT)
  {
    ValueOfDigits(n);
    assert IsDigit(DigitsOf(n)[0]);
  }

  lemma RoundedUp(n: nat)
    requires n <= MAX_INT
    ensures Arith(Roundup, n, 20) == Got(Wrap(Quot(Wrap(n + 19), 20) * 20), [])
    ensures Arith(Mod, n, 20) == Got(n % 20, [])
  {
    assert Wrap(Wrap(n + 20) - 1) == Wrap(n + 19);
  }

  /** What the expression yields on node `n`, wrap-around included. */
  lemma ParentMeans(n: nat, root: string, prefix: string)
    ensures Mean(Named(NodeName(n)), ParentTree(root, prefix, "20")) ==
            if n > MAX_INT then Faults(BadNumber)
            else if n % BLOCKSIZE == 0 then Is(root)
            else Is(prefix + Itoa(Wrap(Quot(Wrap(n + 19), 20) * 20)))
  {
    var h := Named(NodeName(n));
    HostNumber(n);
    TwentyIsTwenty();
    hide TrimLeft, Itoa, Atoi, Wrap, Quot, NodeName, Arith;
    var base := Base(Expr.Host);
    assert Mean(h, base) == Is(Itoa(n));
    var up, mod := Bin(Roundup, base, Lit("20")), Bin(Mod, base, Lit("20"));
    assert Mean(h, up) == Calculate(Roundup, Itoa(n), "20");
    assert Mean(h, mod) == Calculate(Mod, Itoa(n), "20");
    if n > MAX_INT {
      TooBig(n);
      assert Mean(h, Cat(Lit(prefix), up)) == Faults(BadNumber);
    } else {
      AtoiItoa(n);
      AtoiItoa(n % 20);
      RoundedUp(n);
      assert Mean(h, Cat(Lit(prefix), up)) == Is(prefix + Itoa(Wrap(Quot(Wrap(n + 19), 20) * 20)));
    }
  }

  /** The machine's rounding agrees with the chief's number exactly if the sum did not wrap around. */
  lemma RoundingIsRight(n: nat)
    requires n <= MAX_INT && n % BLOCKSIZE != 0
    ensures Wrap(Quot(Wrap(n + 19), 20) * 20) == Chief(n) <==> n + 19 <= MAX_INT
  {
    if n + 19 > MAX_INT {
      assert Wrap(n + 19) == n + 19 - 0x1_0000_0000_0000_0000;
    }
  }

  /** Evaluating the parent expression on node `n` names the intended parent exactly when the numbers
      fit the machine. */
  lemma ParentIsRight(n: nat, st: Stack)
    ensures Eval(Named(NodeName(n)), BuiltIns, 0, Join(PARENT_TOKENS, ' '), st) == Value(Parent(n), st) <==>
            n <= MAX_INT && (n % BLOCKSIZE == 0 || n + 19 <= MAX_INT)
  {
    BuiltInsFit();
    hide Itoa, Standard, Mean, Eval, Wrap, Quot;
    ParentOn(BuiltIns, n, st, ROOT, "kn", "20");
  }

  lemma ParentOn(dict: Dict, n: nat, st: Stack, root: string, prefix: string, size: string)
    requires Fits(dict, root, prefix, size) && size == "20" && prefix == "kn" && root == ROOT
    ensures Eval(Named(NodeName(n)), dict, 0,
                 Join([root, prefix, "hostname", "hostbase", size, "roundup", "strcat",
                       "hostname", "hostbase", size, "%", "ifelse"], ' '), st) == Value(Parent(n), st) <==>
            n <= MAX_INT && (n % BLOCKSIZE == 0 || n + 19 <= MAX_INT)
  {
    ParentTokens(dict, root, prefix, size);
    ParentMeans(n, root, prefix);
    EvalShown(Named(NodeName(n)), dict, 0, ParentTree(root, prefix, size), st);
    if n <= MAX_INT && n % BLOCKSIZE != 0 {
      RoundingIsRight(n);
      NamesDiffer(Wrap(Quot(Wrap(n + 19), 20) * 20), Chief(n));
    }
  }

  lemma NamesDiffer(a: int, b: int)
    ensures "kn" + Itoa(a) == "kn" + Itoa(b) <==> a == b
  {
    assert ("kn" + Itoa(a))[2..] == Itoa(a) && ("kn" + Itoa(b))[2..] == Itoa(b);
    if Itoa(a) == Itoa(b) { ItoaInjective(a, b); }
  }

  // ----- Starting the nodes -----

  /** The nodes of [i, high] whose divisibility by the block size is `mod`. */
  function Level(i: int, high: int, mod: bool): seq<int>
    decreases high - i
  {
    if i > high then []
    else (if (i % BLOCKSIZE == 0) == mod then [i] else []) + Level(i + 1, high, mod)
  }

  lemma LevelStep(i: int, high: int, mod: bool)
    requires i <= high
    ensures Level(i, high, mod) ==
            if (i % BLOCKSIZE == 0) == mod then [i] + Level(i + 1, high, mod) else Level(i + 1, high, mod)
  {
    assert [] + Level(i + 1, high, mod) == Level(i + 1, high, mod);
  }

  /** `runlevel`: spawn the nodes of one level, then wait for as many to be reaped. */
  method RunLevel(lowNode: int, highNode: int, mod: bool) returns (spawned: seq<int>, reaped: nat)
    ensures spawned == Level(lowNode, highNode, mod) && reaped == |spawned|
  {
    spawned, reaped := [], 0;
    var numspawn := 0;
    var i := lowNode;
    while i <= highNode
      invariant spawned + Level(i, highNode, mod) == Level(lowNode, highNode, mod)
      invariant numspawn == |spawned|
      decreases highNode - i
    {
      LevelStep(i, highNode, mod);
      hide Level;
      if (i % BLOCKSIZE == 0) == mod {
        assert spawned + ([i] + Level(i + 1, highNode, mod)) == (spawned + [i]) + Level(i + 1, highNode, mod);
        numspawn := numspawn + 1;
        spawned := spawned + [i];
      }
      i := i + 1;
    }
    assert spawned + [] == spawned;
    while numspawn > 0
      invariant 0 <= numspawn && reaped + numspawn == |spawned|
    {
      reaped := reaped + 1;
      numspawn := numspawn - 1;
    }
  }

  lemma {:induction false} LevelHas(i: int, high: int, mod: bool, k: int)
    ensures multiset(Level(i, high, mod))[k] == if i <= k <= high && (k % BLOCKSIZE == 0) == mod then 1 else 0
    decreases high - i
  {
    if i <= high { LevelHas(i + 1, high, mod, k); }
  }

  /** The two passes together start each node of the range exactly once. */
  lemma EachNodeOnce(low: int, high: int, k: int)
    ensures multiset(Level(low, high, true) + Level(low, high, false))[k] == if low <= k <= high then 1 else 0
  {
    LevelHas(low, high, true, k);
    LevelHas(low, high, false, k);
  }

  /** Every node of the second level has its parent on the first level, so that the tree has depth two,
      exactly when the highest node number is a multiple of the block size. */
  lemma DepthTwo(low: nat, high: nat)
    requires low <= high
    ensures (forall k: nat | k in Level(low, high, false) :: Chief(k) in Level(low, high, true))
            <==> high % BLOCKSIZE == 0
  {
    hide Level;
    forall k: nat | high % BLOCKSIZE == 0 && k in Level(low, high, false)
      ensures Chief(k) in Level(low, high, true)
    {
      InLevel(low, high, false, k);
      ChiefBelow(k, high);
      InLevel(low, high, true, Chief(k));
    }
    InLevel(low, high, false, high);
    InLevel(low, high, true, Chief(high));
  }

  /** The nodes of a level are started in ascending order. */
  lemma {:induction false} LevelSorted(i: int, high: int, mod: bool, j: nat, k: nat)
    requires j < k < |Level(i, high, mod)|
    ensures i <= Level(i, high, mod)[j] < Level(i, high, mod)[k]
    decreases high - i
  {
    var rest := Level(i + 1, high, mod);
    LevelStep(i, high, mod);
    if (i % BLOCKSIZE == 0) == mod {
      if j == 0 {
        InLevel(i + 1, high, mod, rest[k - 1]);
        assert rest[k - 1] in rest;
      } else {
        LevelSorted(i + 1, high, mod, j - 1, k - 1);
      }
    } else {
      LevelSorted(i + 1, high, mod, j, k);
    }
  }

  lemma InLevel(low: int, high: int, mod: bool, k: int)
    ensures k in Level(low, high, mod) <==> low <= k <= high && (k % BLOCKSIZE == 0) == mod
  {
    LevelHas(low, high, mod, k);
  }

  lemma ChiefBelow(k: nat, high: nat)
    requires k <= high && high % BLOCKSIZE == 0
    ensures Chief(k) <= high
  {}
}
