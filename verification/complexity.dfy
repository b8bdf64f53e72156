// Complexity metrics (tooling/sanctifier-core/src/complexity.rs): per
// function, the cyclomatic complexity, parameter count, deepest nesting and
// line count, with threshold warnings; per file, the number of `use` and
// `extern crate` items. A per-function visitor keeps a counter and a depth
// stack; a file visitor collects one metrics entry per public free function
// and per impl function.

module Complexity {
  import opened Results
  import opened Syntax
  import opened Walk
  import opened Text

  const THRESHOLD_CYCLOMATIC: nat := 10
  const THRESHOLD_PARAMS: nat := 5
  const THRESHOLD_NESTING: nat := 4
  const THRESHOLD_LOC: nat := 50

  datatype FunctionMetrics = FunctionMetrics(
    name: string,
    cyclomaticComplexity: nat,
    paramCount: nat,
    maxNestingDepth: nat,
    loc: nat,
    warnings: seq<string>)

  datatype ContractMetrics = ContractMetrics(contractPath: string, dependencyCount: nat, functions: seq<FunctionMetrics>)

  function Max(a: nat, b: nat): nat
  {
    if a >= b then a else b
  }

  // ---------------------------------------------------------------------
  // What one node contributes

  /** The six constructs that enter a nesting level: `if`, `match`, `for`, `while`, `loop` and closures. */
  predicate Nests(n: Node)
  {
    n.E? && (n.e.If? || n.e.Match? || n.e.ForLoop? || n.e.While? || n.e.Loop? || n.e.Closure?)
  }

  /** The branches a node adds on its own: one per `if`, loop, closure, `&&` and `||`; one per `match` arm past the first. */
  function OwnBranches(n: Node): nat
  {
    match n
    case E(If(_, _, _)) => 1
    case E(Match(_, arms)) => if |arms| == 0 then 0 else |arms| - 1
    case E(ForLoop(_, _)) => 1
    case E(While(_, _)) => 1
    case E(Loop(_)) => 1
    case E(Closure(_)) => 1
    case E(Binary(op, _, _, _)) => if op == And || op == Or then 1 else 0
    case _ => 0
  }

  /** The branches met below and including `n`. */
  function Branches(n: Node): nat
    decreases NodeSize(n), 0
  {
    ChildrenSmaller(n);
    OwnBranches(n) + BranchesAll(Children(n))
  }

  function BranchesAll(ns: seq<Node>): nat
    decreases NodesSize(ns), 1
  {
    if ns == [] then 0
    else
      SplitLast(ns);
      NodeSizePositive(ns[|ns| - 1]);
      BranchesAll(ns[..|ns| - 1]) + Branches(ns[|ns| - 1])
  }

  /** The deepest nesting of the six constructs below and including `n`. */
  function Depth(n: Node): nat
    decreases NodeSize(n), 0
  {
    ChildrenSmaller(n);
    (if Nests(n) then 1 else 0) + DepthAll(Children(n))
  }

  function DepthAll(ns: seq<Node>): nat
    decreases NodesSize(ns), 1
  {
    if ns == [] then 0
    else
      SplitLast(ns);
      NodeSizePositive(ns[|ns| - 1]);
      Max(DepthAll(ns[..|ns| - 1]), Depth(ns[|ns| - 1]))
  }

  /** The sum of what each node met by the traversal adds on its own. */
  function SumOwn(ns: seq<Node>): nat
  {
    if ns == [] then 0 else SumOwn(ns[..|ns| - 1]) + OwnBranches(ns[|ns| - 1])
  }

  lemma {:induction false} SumOwnConcat(a: seq<Node>, b: seq<Node>)
    ensures SumOwn(a + b) == SumOwn(a) + SumOwn(b)
    decreases |b|
  {
    if b == [] {
      assert a + b == a;
    } else {
      var k := |b| - 1;
      var ab := a + b;
      assert ab[..|ab| - 1] == a + b[..k];
      assert ab[|ab| - 1] == b[k];
      SumOwnConcat(a, b[..k]);
    }
  }

  /** The count is the sum of the contributions of every node the traversal meets, whatever the tree's shape. */
  lemma {:induction false} BranchesIsSum(n: Node)
    ensures Branches(n) == SumOwn(Preorder(n))
    decreases NodeSize(n), 0
  {
    ChildrenSmaller(n);
    BranchesAllIsSum(Children(n));
    assert Preorder(n) == [n] + PreorderAll(Children(n));
    SumOwnConcat([n], PreorderAll(Children(n)));
    assert [n][..0] == [];
  }

  lemma {:induction false} BranchesAllIsSum(ns: seq<Node>)
    ensures BranchesAll(ns) == SumOwn(PreorderAll(ns))
    decreases NodesSize(ns), 1
  {
    if ns != [] {
      var k := |ns| - 1;
      SplitLast(ns);
      NodeSizePositive(ns[k]);
      BranchesAllIsSum(ns[..k]);
      BranchesIsSum(ns[k]);
      SumOwnConcat(PreorderAll(ns[..k]), Preorder(ns[k]));
    }
  }

  /** No node of `ns` is one of the six nesting constructs. */
  predicate NoNesting(ns: seq<Node>)
  {
    forall i :: 0 <= i < |ns| ==> !Nests(ns[i])
  }

  lemma NoNestingConcat(a: seq<Node>, b: seq<Node>)
    ensures NoNesting(a + b) <==> NoNesting(a) && NoNesting(b)
  {
    if NoNesting(a + b) {
      forall i | 0 <= i < |a|
        ensures !Nests(a[i])
      {
        assert (a + b)[i] == a[i];
      }
      forall i | 0 <= i < |b|
        ensures !Nests(b[i])
      {
        assert (a + b)[|a| + i] == b[i];
      }
    }
    if NoNesting(a) && NoNesting(b) {
      forall i | 0 <= i < |a + b|
        ensures !Nests((a + b)[i])
      {
        if i < |a| {
          assert (a + b)[i] == a[i];
        } else {
          assert (a + b)[i] == b[i - |a|];
        }
      }
    }
  }

  /** The depth is zero exactly when no node along the traversal nests. */
  lemma {:induction false} DepthZeroIff(n: Node)
    ensures Depth(n) == 0 <==> NoNesting(Preorder(n))
    decreases NodeSize(n), 0
  {
    ChildrenSmaller(n);
    DepthAllZeroIff(Children(n));
    assert Preorder(n) == [n] + PreorderAll(Children(n));
    NoNestingConcat([n], PreorderAll(Children(n)));
    assert NoNesting([n]) <==> !Nests(n) by {
      assert [n][0] == n;
    }
  }

  lemma {:induction false} DepthAllZeroIff(ns: seq<Node>)
    ensures DepthAll(ns) == 0 <==> NoNesting(PreorderAll(ns))
    decreases NodesSize(ns), 1
  {
    if ns != [] {
      var k := |ns| - 1;
      SplitLast(ns);
      NodeSizePositive(ns[k]);
      DepthAllZeroIff(ns[..k]);
      DepthZeroIff(ns[k]);
      assert DepthAll(ns) == Max(DepthAll(ns[..k]), Depth(ns[k]));
      assert PreorderAll(ns) == PreorderAll(ns[..k]) + Preorder(ns[k]);
      NoNestingConcat(PreorderAll(ns[..k]), Preorder(ns[k]));
    }
  }

  // ---------------------------------------------------------------------
  // The per-function visitor

  /** One more sibling: its branches add up and its depth competes for the maximum. */
  lemma MetricsStep(ns: seq<Node>, i: nat)
    requires i < |ns|
    ensures BranchesAll(ns[..i + 1]) == BranchesAll(ns[..i]) + Branches(ns[i])
    ensures DepthAll(ns[..i + 1]) == Max(DepthAll(ns[..i]), Depth(ns[i]))
  {
    var pre := ns[..i + 1];
    assert pre[..|pre| - 1] == ns[..i] && pre[|pre| - 1] == ns[i];
  }

  lemma MaxShift(a: nat, c: nat, x: nat, y: nat)
    ensures Max(Max(a, c + x), c + y) == Max(a, c + Max(x, y))
  {
  }

  /** `FnComplexityVisitor`: the branch counter and the current and deepest nesting. */
  class FnComplexityVisitor {
    var cyclomatic: nat
    var currentDepth: nat
    var maxDepth: nat

    /** The deepest level reached is never below the current one. */
    predicate Valid()
      reads this
    {
      currentDepth <= maxDepth
    }

    constructor()
      ensures Valid()
      ensures cyclomatic == 1 && currentDepth == 0 && maxDepth == 0
    {
      cyclomatic := 1;
      currentDepth := 0;
      maxDepth := 0;
    }

    method Enter()
      modifies this
      requires Valid()
      ensures Valid()
      ensures cyclomatic == old(cyclomatic)
      ensures currentDepth == old(currentDepth) + 1
      ensures maxDepth == Max(old(maxDepth), currentDepth)
    {
      currentDepth := currentDepth + 1;
      if currentDepth > maxDepth {
        maxDepth := currentDepth;
      }
    }

    /** Leaving a level; at level 0 the depth stays 0. */
    method Exit()
      modifies this
      requires Valid()
      ensures Valid()
      ensures cyclomatic == old(cyclomatic) && maxDepth == old(maxDepth)
      ensures currentDepth == if old(currentDepth) == 0 then 0 else old(currentDepth) - 1
    {
      if currentDepth > 0 {
        currentDepth := currentDepth - 1;
      }
    }

    /**
     * Visiting a node adds its branches, returns to the level it started at,
     * and raises the deepest level to the start level plus the node's depth.
     */
    method VisitNode(n: Node)
      modifies this
      requires Valid()
      ensures Valid()
      ensures cyclomatic == old(cyclomatic) + Branches(n)
      ensures currentDepth == old(currentDepth)
      ensures maxDepth == Max(old(maxDepth), old(currentDepth) + Depth(n))
      decreases NodeSize(n), 0
    {
      cyclomatic := cyclomatic + OwnBranches(n);
      var nests := Nests(n);
      if nests {
        Enter();
      }
      ChildrenSmaller(n);
      VisitNodes(Children(n));
      if nests {
        Exit();
      }
    }

    method VisitNodes(ns: seq<Node>)
      modifies this
      requires Valid()
      ensures Valid()
      ensures cyclomatic == old(cyclomatic) + BranchesAll(ns)
      ensures currentDepth == old(currentDepth)
      ensures maxDepth == Max(old(maxDepth), old(currentDepth) + DepthAll(ns))
      decreases NodesSize(ns), 1
    {
      for i := 0 to |ns|
        invariant Valid()
        invariant cyclomatic == old(cyclomatic) + BranchesAll(ns[..i])
        invariant currentDepth == old(currentDepth)
        invariant maxDepth == Max(old(maxDepth), old(currentDepth) + DepthAll(ns[..i]))
      {
        PrefixStep(ns, i);
        ElementSize(ns, i);
        VisitNode(ns[i]);
        MetricsStep(ns, i);
        MaxShift(old(maxDepth), old(currentDepth), DepthAll(ns[..i]), Depth(ns[i]));
      }
      assert ns[..|ns|] == ns;
    }
  }

  // ---------------------------------------------------------------------
  // Lines, warnings and one function's metrics

  /** `count_loc`: the number of lines `str::lines` yields; a final newline does not start a line. */
  function CountLoc(s: string): nat
  {
    if s == [] then 0 else multiset(s[..|s| - 1])['\n'] + 1
  }

  /** Joining `k` non-empty-ended, newline-free lines with newlines gives `k` lines of code. */
  lemma {:induction false} CountLocJoin(lines: seq<string>)
    requires lines != [] && lines[|lines| - 1] != []
    requires forall i :: 0 <= i < |lines| ==> '\n' !in lines[i]
    ensures CountLoc(Join(lines, "\n")) == |lines|
  {
    var s := Join(lines, "\n");
    NewlinesInJoin(lines);
    JoinEndsWithLast(lines);
    assert s == s[..|s| - 1] + [s[|s| - 1]];
    assert multiset(s) == multiset(s[..|s| - 1]) + multiset([s[|s| - 1]]);
  }

  lemma {:induction false} NewlinesInJoin(lines: seq<string>)
    requires lines != []
    requires forall i :: 0 <= i < |lines| ==> '\n' !in lines[i]
    ensures multiset(Join(lines, "\n"))['\n'] == |lines| - 1
  {
    if |lines| > 1 {
      NewlinesInJoin(lines[1..]);
      assert multiset(lines[0])['\n'] == 0;
      var rest := Join(lines[1..], "\n");
      assert Join(lines, "\n") == lines[0] + "\n" + rest;
      assert multiset(lines[0] + "\n" + rest) == multiset(lines[0]) + multiset("\n") + multiset(rest);
    } else {
      assert multiset(lines[0])['\n'] == 0;
    }
  }

  lemma {:induction false} JoinEndsWithLast(lines: seq<string>)
    requires lines != [] && lines[|lines| - 1] != []
    ensures Join(lines, "\n") != [] && Join(lines, "\n")[|Join(lines, "\n")| - 1] == lines[|lines| - 1][|lines[|lines| - 1]| - 1]
  {
    if |lines| > 1 {
      JoinEndsWithLast(lines[1..]);
      assert lines[1..][|lines[1..]| - 1] == lines[|lines| - 1];
    }
  }

  /** `truncate`: `s` unchanged when it fits, otherwise its first `max - 1` characters and an ellipsis. */
  function Truncate(s: string, max: nat): (r: string)
    requires |s| <= max || max >= 1
    ensures |r| <= max
    ensures |s| <= max ==> r == s
    ensures |s| > max ==> |r| == max && r[..max - 1] == s[..max - 1] && r[max - 1] == '…'
  {
    if |s| <= max then s else s[..max - 1] + "…"
  }

  /** Truncating twice is truncating once. */
  lemma TruncateIdempotent(s: string, max: nat)
    requires |s| <= max || max >= 1
    ensures Truncate(Truncate(s, max), max) == Truncate(s, max)
  {
  }

  function CyclomaticMessage(cc: nat): string
  {
    "Cyclomatic complexity " + NatToString(cc) + " exceeds threshold " + NatToString(THRESHOLD_CYCLOMATIC)
  }

  function ParamsMessage(p: nat): string
  {
    NatToString(p) + " " + "parameters" + " exceeds threshold " + NatToString(THRESHOLD_PARAMS)
  }

  function NestingMessage(d: nat): string
  {
    "Nesting depth " + NatToString(d) + " exceeds threshold " + NatToString(THRESHOLD_NESTING)
  }

  function LocMessage(loc: nat): string
  {
    NatToString(loc) + " LOC exceeds threshold " + NatToString(THRESHOLD_LOC)
  }

  /** The warnings `analyze_fn` collects, in the order it tests the four metrics. */
  function Warnings(cc: nat, params: nat, depth: nat, loc: nat): seq<string>
  {
    (if cc > THRESHOLD_CYCLOMATIC then [CyclomaticMessage(cc)] else []) +
    (if params > THRESHOLD_PARAMS then [ParamsMessage(params)] else []) +
    (if depth > THRESHOLD_NESTING then [NestingMessage(depth)] else []) +
    (if loc > THRESHOLD_LOC then [LocMessage(loc)] else [])
  }

  function Indicator(b: bool): nat
  {
    if b then 1 else 0
  }

  /** One warning per metric above its threshold: at most four, none when every metric is within bounds. */
  lemma WarningsCount(cc: nat, params: nat, depth: nat, loc: nat)
    ensures |Warnings(cc, params, depth, loc)| ==
      Indicator(cc > THRESHOLD_CYCLOMATIC) + Indicator(params > THRESHOLD_PARAMS) +
      Indicator(depth > THRESHOLD_NESTING) + Indicator(loc > THRESHOLD_LOC)
    ensures |Warnings(cc, params, depth, loc)| <= 4
    ensures Warnings(cc, params, depth, loc) == [] <==>
      cc <= THRESHOLD_CYCLOMATIC && params <= THRESHOLD_PARAMS && depth <= THRESHOLD_NESTING && loc <= THRESHOLD_LOC
  {
  }

  /** Too many parameters: a warning mentioning "parameters" is among them. */
  lemma ParamsWarningPresent(cc: nat, params: nat, depth: nat, loc: nat)
    requires params > THRESHOLD_PARAMS
    ensures exists i :: 0 <= i < |Warnings(cc, params, depth, loc)| && Contains(Warnings(cc, params, depth, loc)[i], "parameters")
  {
    var w := Warnings(cc, params, depth, loc);
    var i := if cc > THRESHOLD_CYCLOMATIC then 1 else 0;
    assert w[i] == ParamsMessage(params);
    ContainsMiddle(NatToString(params) + " ", "parameters", " exceeds threshold ");
    ContainsAppend(NatToString(params) + " " + "parameters" + " exceeds threshold ", NatToString(THRESHOLD_PARAMS), "parameters");
  }

  /** The metrics of a function: the counter starts at 1 and only the body is visited. */
  function Metrics(f: FnDecl): FunctionMetrics
  {
    var body := Ss(f.body.stmts);
    var cc := 1 + BranchesAll(body);
    var depth := DepthAll(body);
    var loc := CountLoc(f.text);
    FunctionMetrics(f.name, cc, f.paramCount, depth, loc, Warnings(cc, f.paramCount, depth, loc))
  }

  /** `analyze_fn`: run a fresh visitor over the body and test the four thresholds in turn. */
  method AnalyzeFn(f: FnDecl) returns (m: FunctionMetrics)
    ensures m == Metrics(f)
    ensures m.cyclomaticComplexity >= 1
    ensures m.maxNestingDepth == 0 <==> NoNesting(PreorderAll(Ss(f.body.stmts)))
  {
    var visitor := new FnComplexityVisitor();
    visitor.VisitNodes(Ss(f.body.stmts));
    var paramCount := f.paramCount;
    var loc := CountLoc(f.text);
    var warnings := ThresholdWarnings(visitor.cyclomatic, paramCount, visitor.maxDepth, loc);
    m := FunctionMetrics(f.name, visitor.cyclomatic, paramCount, visitor.maxDepth, loc, warnings);
    DepthAllZeroIff(Ss(f.body.stmts));
  }

  /** The four threshold tests of `analyze_fn`, each pushing its message when the metric is above its bound. */
  method ThresholdWarnings(cc: nat, params: nat, depth: nat, loc: nat) returns (warnings: seq<string>)
    ensures warnings == Warnings(cc, params, depth, loc)
  {
    warnings := [];
    if cc > THRESHOLD_CYCLOMATIC {
      warnings := warnings + [CyclomaticMessage(cc)];
    }
    ghost var w1 := warnings;
    if params > THRESHOLD_PARAMS {
      warnings := warnings + [ParamsMessage(params)];
    }
    ghost var w2 := warnings;
    assert w2 == w1 + (if params > THRESHOLD_PARAMS then [ParamsMessage(params)] else []);
    if depth > THRESHOLD_NESTING {
      warnings := warnings + [NestingMessage(depth)];
    }
    ghost var w3 := warnings;
    assert w3 == w2 + (if depth > THRESHOLD_NESTING then [NestingMessage(depth)] else []);
    if loc > THRESHOLD_LOC {
      warnings := warnings + [LocMessage(loc)];
    }
    assert warnings == w3 + (if loc > THRESHOLD_LOC then [LocMessage(loc)] else []);
  }

  // ---------------------------------------------------------------------
  // The file visitor

  /** The entry a node adds: public free functions and every impl function. */
  function EntryAt(n: Node): seq<FunctionMetrics>
  {
    match n
    case I(Fn(f)) => if f.isPub then [Metrics(f)] else []
    case M(ImplFn(f)) => [Metrics(f)]
    case _ => []
  }

  function IsDependency(n: Node): bool
  {
    n.I? && (n.item.Use? || n.item.ExternCrate?)
  }

  /** The entries along the traversal order `ns`. */
  function EntriesAlong(ns: seq<Node>): seq<FunctionMetrics>
  {
    if ns == [] then [] else EntriesAlong(ns[..|ns| - 1]) + EntryAt(ns[|ns| - 1])
  }

  /** The `use` and `extern crate` items along `ns`. */
  function DepsAlong(ns: seq<Node>): nat
  {
    if ns == [] then 0 else DepsAlong(ns[..|ns| - 1]) + Indicator(IsDependency(ns[|ns| - 1]))
  }

  lemma {:induction false} EntriesAlongConcat(a: seq<Node>, b: seq<Node>)
    ensures EntriesAlong(a + b) == EntriesAlong(a) + EntriesAlong(b)
    decreases |b|
  {
    if b == [] {
      assert a + b == a;
    } else {
      var k := |b| - 1;
      var front, last := b[..k], EntryAt(b[k]);
      assert EntriesAlong(a + b) == EntriesAlong(a + front) + last by {
        EntriesAlongLast(a + b, a + front, b[k]);
      }
      assert EntriesAlong(b) == EntriesAlong(front) + last by {
        EntriesAlongLast(b, front, b[k]);
      }
      EntriesAlongConcat(a, front);
      MetricsAssoc(EntriesAlong(a), EntriesAlong(front), last);
    }
  }

  lemma EntriesAlongLast(ns: seq<Node>, front: seq<Node>, x: Node)
    requires ns == front + [x]
    ensures EntriesAlong(ns) == EntriesAlong(front) + EntryAt(x)
  {
    assert ns[..|ns| - 1] == front && ns[|ns| - 1] == x;
  }

  lemma {:induction false} DepsAlongConcat(a: seq<Node>, b: seq<Node>)
    ensures DepsAlong(a + b) == DepsAlong(a) + DepsAlong(b)
    decreases |b|
  {
    if b == [] {
      assert a + b == a;
    } else {
      var k := |b| - 1;
      var ab := a + b;
      assert ab[..|ab| - 1] == a + b[..k];
      assert ab[|ab| - 1] == b[k];
      DepsAlongConcat(a, b[..k]);
    }
  }

  lemma AlongConcat(a: seq<Node>, b: seq<Node>)
    ensures EntriesAlong(a + b) == EntriesAlong(a) + EntriesAlong(b)
    ensures DepsAlong(a + b) == DepsAlong(a) + DepsAlong(b)
  {
    EntriesAlongConcat(a, b);
    DepsAlongConcat(a, b);
  }

  lemma MetricsAssoc(a: seq<FunctionMetrics>, b: seq<FunctionMetrics>, c: seq<FunctionMetrics>)
    ensures a + b + c == a + (b + c)
  {
  }

  /** One more sibling: its entries and dependencies follow those of the siblings before it. */
  lemma AlongStep(ns: seq<Node>, i: nat)
    requires i < |ns|
    ensures EntriesAlong(PreorderAll(ns[..i + 1])) == EntriesAlong(PreorderAll(ns[..i])) + EntriesAlong(Preorder(ns[i]))
    ensures DepsAlong(PreorderAll(ns[..i + 1])) == DepsAlong(PreorderAll(ns[..i])) + DepsAlong(Preorder(ns[i]))
  {
    assert PreorderAll(ns[..i + 1]) == PreorderAll(ns[..i]) + Preorder(ns[i]) by {
      assert ns[..i + 1] == ns[..i] + [ns[i]];
      PreorderAllSnoc(ns[..i], ns[i]);
    }
    AlongConcat(PreorderAll(ns[..i]), Preorder(ns[i]));
  }

  /** A node's traversal contributes its own entry and dependency, then those of its children. */
  lemma AlongNode(n: Node)
    ensures EntriesAlong(Preorder(n)) == EntryAt(n) + EntriesAlong(PreorderAll(Children(n)))
    ensures DepsAlong(Preorder(n)) == Indicator(IsDependency(n)) + DepsAlong(PreorderAll(Children(n)))
  {
    assert [n][..0] == [];
    assert EntriesAlong([n]) == EntryAt(n);
    assert DepsAlong([n]) == Indicator(IsDependency(n));
    assert Preorder(n) == [n] + PreorderAll(Children(n));
    AlongConcat([n], PreorderAll(Children(n)));
  }

  /** `FileVisitor`: the metrics collected so far and the dependency count. */
  class FileVisitor {
    var functions: seq<FunctionMetrics>
    var dependencyCount: nat

    constructor()
      ensures functions == [] && dependencyCount == 0
    {
      functions := [];
      dependencyCount := 0;
    }

    /** The node's own step: a dependency is counted, a reported function analysed and pushed. */
    method RecordOwn(n: Node)
      modifies this
      ensures functions == old(functions) + EntryAt(n)
      ensures dependencyCount == old(dependencyCount) + Indicator(IsDependency(n))
    {
      if IsDependency(n) {
        dependencyCount := dependencyCount + 1;
      } else if n.I? && n.item.Fn? && n.item.f.isPub {
        var m := AnalyzeFn(n.item.f);
        functions := functions + [m];
      } else if n.M? && n.implItem.ImplFn? {
        var m := AnalyzeFn(n.implItem.f);
        functions := functions + [m];
      }
    }

    method VisitNode(n: Node)
      modifies this
      ensures functions == old(functions) + EntriesAlong(Preorder(n))
      ensures dependencyCount == old(dependencyCount) + DepsAlong(Preorder(n))
      decreases NodeSize(n), 0
    {
      RecordOwn(n);
      ghost var own := EntryAt(n);
      ChildrenSmaller(n);
      VisitNodes(Children(n));
      AlongNode(n);
      MetricsAssoc(old(functions), own, EntriesAlong(PreorderAll(Children(n))));
    }

    method VisitNodes(ns: seq<Node>)
      modifies this
      ensures functions == old(functions) + EntriesAlong(PreorderAll(ns))
      ensures dependencyCount == old(dependencyCount) + DepsAlong(PreorderAll(ns))
      decreases NodesSize(ns), 1
    {
      for i := 0 to |ns|
        invariant functions == old(functions) + EntriesAlong(PreorderAll(ns[..i]))
        invariant dependencyCount == old(dependencyCount) + DepsAlong(PreorderAll(ns[..i]))
      {
        PrefixStep(ns, i);
        ElementSize(ns, i);
        VisitNode(ns[i]);
        AlongStep(ns, i);
        MetricsAssoc(old(functions), EntriesAlong(PreorderAll(ns[..i])), EntriesAlong(Preorder(ns[i])));
      }
      assert ns[..|ns|] == ns;
    }
  }

  /** `analyze_complexity`: the metrics of a parsed file. */
  method AnalyzeComplexity(file: File, contractPath: string) returns (metrics: ContractMetrics)
    ensures metrics.contractPath == contractPath
    ensures metrics.dependencyCount == DepsAlong(PreorderAll(Is(file.items)))
    ensures metrics.functions == EntriesAlong(PreorderAll(Is(file.items)))
  {
    var visitor := new FileVisitor();
    visitor.VisitNodes(Is(file.items));
    metrics := ContractMetrics(contractPath, visitor.dependencyCount, visitor.functions);
  }

  // ---------------------------------------------------------------------
  // The scenarios of the complexity tests

  lemma StmtsOne(s: Stmt)
    ensures BranchesAll(Ss([s])) == Branches(S(s)) && DepthAll(Ss([s])) == Depth(S(s))
  {
    assert Ss([s]) == [S(s)];
    assert [S(s)][..0] == [];
  }

  lemma ExprStmtSame(e: Expr)
    ensures Branches(S(ExprStmt(e))) == Branches(E(e)) && Depth(S(ExprStmt(e))) == Depth(E(e))
  {
    assert Children(S(ExprStmt(e))) == [E(e)];
    assert [E(e)][..0] == [];
    assert BranchesAll([E(e)]) == BranchesAll([]) + Branches(E(e));
    assert DepthAll([E(e)]) == Max(DepthAll([]), Depth(E(e)));
  }

  /** A body with no branching construct: complexity 1 and no warning at 2 parameters and few lines. */
  lemma StraightLineFunction(f: FnDecl)
    requires BranchesAll(Ss(f.body.stmts)) == 0 && DepthAll(Ss(f.body.stmts)) == 0
    requires f.paramCount == 2 && CountLoc(f.text) <= THRESHOLD_LOC
    ensures Metrics(f).cyclomaticComplexity == 1
    ensures Metrics(f).warnings == []
  {
  }

  /** An `if` without `else` adds one branch to what its condition and branch add. */
  lemma IfBranches(cond: Expr, stmts: seq<Stmt>)
    ensures Branches(E(If(cond, Block(stmts), None))) == 1 + Branches(E(cond)) + BranchesAll(Ss(stmts))
    ensures Depth(E(If(cond, Block(stmts), None))) == 1 + Max(Depth(E(cond)), DepthAll(Ss(stmts)))
  {
    var n := E(If(cond, Block(stmts), None));
    assert Children(n) == [E(cond)] + Ss(stmts);
    PreludeSplit(E(cond), Ss(stmts));
  }

  /** A `for` loop adds one branch and one level to what its iterated expression and body add. */
  lemma ForBranches(iter: Expr, stmts: seq<Stmt>)
    ensures Branches(E(ForLoop(iter, Block(stmts)))) == 1 + Branches(E(iter)) + BranchesAll(Ss(stmts))
    ensures Depth(E(ForLoop(iter, Block(stmts)))) == 1 + Max(Depth(E(iter)), DepthAll(Ss(stmts)))
  {
    var n := E(ForLoop(iter, Block(stmts)));
    assert Children(n) == [E(iter)] + Ss(stmts);
    PreludeSplit(E(iter), Ss(stmts));
  }

  /** A leading node followed by others: counts add up, depths take the larger. */
  lemma {:induction false} PreludeSplit(first: Node, rest: seq<Node>)
    ensures BranchesAll([first] + rest) == Branches(first) + BranchesAll(rest)
    ensures DepthAll([first] + rest) == Max(Depth(first), DepthAll(rest))
    decreases |rest|
  {
    if rest == [] {
      assert [first] + rest == [first];
      assert [first][..0] == [];
    } else {
      var k := |rest| - 1;
      var all := [first] + rest;
      assert all[..|all| - 1] == [first] + rest[..k];
      assert all[|all| - 1] == rest[k];
      PreludeSplit(first, rest[..k]);
    }
  }

  /** The `if amount > 0 { ... }` test: complexity 2 when the condition and the branch add nothing. */
  lemma SingleIfComplexityTwo(f: FnDecl, cond: Expr, stmts: seq<Stmt>)
    requires f.body == Block([ExprStmt(If(cond, Block(stmts), None))])
    requires Branches(E(cond)) == 0 && BranchesAll(Ss(stmts)) == 0
    ensures Metrics(f).cyclomaticComplexity == 2
  {
    var e := If(cond, Block(stmts), None);
    StmtsOne(ExprStmt(e));
    ExprStmtSame(e);
    IfBranches(cond, stmts);
  }

  /** An `if` whose condition does not nest, around one statement, is one level deeper than it. */
  lemma IfOneDeeper(c: Expr, st: Stmt)
    requires Depth(E(c)) == 0
    ensures Depth(E(If(c, Block([st]), None))) == 1 + Depth(S(st))
  {
    IfBranches(c, [st]);
    StmtsOne(st);
  }

  /** A `for` loop whose iterated expression does not nest, around one statement, is one level deeper than it. */
  lemma ForOneDeeper(iter: Expr, st: Stmt)
    requires Depth(E(iter)) == 0
    ensures Depth(E(ForLoop(iter, Block([st])))) == 1 + Depth(S(st))
  {
    ForBranches(iter, [st]);
    StmtsOne(st);
  }

  lemma TwoStmtsDepth(s1: Stmt, s2: Stmt)
    ensures DepthAll(Ss([s1, s2])) == Max(Depth(S(s1)), Depth(S(s2)))
  {
    assert Ss([s1, s2]) == [S(s1)] + [S(s2)];
    PreludeSplit(S(s1), [S(s2)]);
    assert [S(s2)][..0] == [];
  }

  /** The traversal of `mod m { use …; fn f() {} }`: the module, the `use`, the function. */
  lemma ModUseFnPreorder(f: FnDecl)
    requires f.body.stmts == []
    ensures PreorderAll(Is([Mod([Use, Fn(f)])])) == [I(Mod([Use, Fn(f)]))] + [I(Use)] + [I(Fn(f))]
  {
    var md := I(Mod([Use, Fn(f)]));
    var u, fn := I(Use), I(Fn(f));
    assert Is([Mod([Use, Fn(f)])]) == [md];
    PreorderAllSingle(md);
    assert Children(md) == [u, fn] by {
      assert [Use, Fn(f)][1..] == [Fn(f)];
      assert Is([Fn(f)]) == [fn];
    }
    PreorderTwo(md, u, fn);
    assert Preorder(u) == [u] by {
      assert Children(u) == [];
    }
    assert Preorder(fn) == [fn] by {
      assert Children(fn) == [];
    }
  }

  /**
   * The items of an inline module are visited too: a `use` and a public
   * function inside `mod m { … }` give one dependency and one entry.
   */
  lemma ModContentsCounted(f: FnDecl)
    requires f.isPub && f.body.stmts == []
    ensures DepsAlong(PreorderAll(Is([Mod([Use, Fn(f)])]))) == 1
    ensures EntriesAlong(PreorderAll(Is([Mod([Use, Fn(f)])]))) == [Metrics(f)]
  {
    var md, u, fn := I(Mod([Use, Fn(f)])), I(Use), I(Fn(f));
    ModUseFnPreorder(f);
    AlongConcat([md] + [u], [fn]);
    AlongConcat([md], [u]);
    assert [md][..0] == [] && [u][..0] == [] && [fn][..0] == [];
    assert EntriesAlong([md]) == [] && DepsAlong([md]) == 0;
    assert EntriesAlong([u]) == [] && DepsAlong([u]) == 1;
    assert EntriesAlong([fn]) == [Metrics(f)] && DepsAlong([fn]) == 0;
  }

  /** `if { for { if { .. } } }` nests three deep when the leaves do not nest. */
  lemma IfForIfDepthThree(c1: Expr, iter: Expr, c2: Expr, inner: seq<Stmt>, tail: Stmt)
    requires Depth(E(c1)) == 0 && Depth(E(iter)) == 0 && Depth(E(c2)) == 0
    requires DepthAll(Ss(inner)) == 0 && Depth(S(tail)) == 0
    ensures DepthAll(Ss([ExprStmt(If(c1, Block([ExprStmt(ForLoop(iter, Block([ExprStmt(If(c2, Block(inner), None))])))]), None)), tail])) == 3
  {
    var innerIf := If(c2, Block(inner), None);
    assert Depth(S(ExprStmt(innerIf))) == 1 by {
      IfBranches(c2, inner);
      ExprStmtSame(innerIf);
    }
    var loop := ForLoop(iter, Block([ExprStmt(innerIf)]));
    assert Depth(S(ExprStmt(loop))) == 2 by {
      ForOneDeeper(iter, ExprStmt(innerIf));
      ExprStmtSame(loop);
    }
    var outer := If(c1, Block([ExprStmt(loop)]), None);
    assert Depth(S(ExprStmt(outer))) == 3 by {
      IfOneDeeper(c1, ExprStmt(loop));
      ExprStmtSame(outer);
    }
    TwoStmtsDepth(ExprStmt(outer), tail);
  }

  /** A `match` with `k >= 1` arms adds `k - 1`; four empty arms give complexity 4. */
  lemma MatchComplexity(f: FnDecl, scrutinee: Expr, arms: seq<Arm>)
    requires f.body == Block([ExprStmt(Match(scrutinee, arms))])
    requires |arms| == 4 && Branches(E(scrutinee)) == 0 && BranchesAll(ArmNodes(arms)) == 0
    ensures Metrics(f).cyclomaticComplexity == 4
  {
    var e := Match(scrutinee, arms);
    StmtsOne(ExprStmt(e));
    ExprStmtSame(e);
    assert Children(E(e)) == [E(scrutinee)] + ArmNodes(arms);
    PreludeSplit(E(scrutinee), ArmNodes(arms));
  }

  lemma ThreeItemsPreorder(f: FnDecl)
    requires f.body.stmts == []
    ensures PreorderAll(Is([Use, Use, Fn(f)])) == [I(Use), I(Use), I(Fn(f))]
  {
    var ns := Is([Use, Use, Fn(f)]);
    assert ns == [I(Use), I(Use), I(Fn(f))] by {
      assert [Fn(f)][1..] == [];
      assert Is([Fn(f)]) == [I(Fn(f))];
      assert [Use, Fn(f)][1..] == [Fn(f)];
      assert Is([Use, Fn(f)]) == [I(Use), I(Fn(f))];
      assert [Use, Use, Fn(f)][1..] == [Use, Fn(f)];
    }
    assert Preorder(I(Use)) == [I(Use)] by {
      assert Children(I(Use)) == [];
    }
    assert Preorder(I(Fn(f))) == [I(Fn(f))] by {
      assert Children(I(Fn(f))) == [];
    }
    assert ns == [I(Use), I(Use)] + [I(Fn(f))];
    PreorderAllConcat([I(Use), I(Use)], [I(Fn(f))]);
    assert [I(Use), I(Use)] == [I(Use)] + [I(Use)];
    PreorderAllConcat([I(Use)], [I(Use)]);
    PreorderAllSingle(I(Use));
    PreorderAllSingle(I(Fn(f)));
  }

  /** Two `use` items and a public function with an empty body: two dependencies, one entry. */
  lemma TwoUsesTwoDependencies(f: FnDecl)
    requires f.isPub && f.body.stmts == []
    ensures DepsAlong(PreorderAll(Is([Use, Use, Fn(f)]))) == 2
    ensures |EntriesAlong(PreorderAll(Is([Use, Use, Fn(f)])))| == 1
  {
    var p := [I(Use), I(Use), I(Fn(f))];
    assert PreorderAll(Is([Use, Use, Fn(f)])) == p by {
      ThreeItemsPreorder(f);
    }
    var uses := [I(Use), I(Use)];
    assert p[..2] == uses && p[2] == I(Fn(f));
    assert uses[..1] == [I(Use)] && [I(Use)][..0] == [];
    assert DepsAlong(p) == 2 by {
      assert DepsAlong([I(Use)]) == 1;
      assert DepsAlong(uses) == 2;
    }
    assert |EntriesAlong(p)| == 1 by {
      assert EntriesAlong([I(Use)]) == [];
      assert EntriesAlong(uses) == [];
      assert |EntryAt(I(Fn(f)))| == 1;
    }
  }

  /**
   * `pub fn many_params(env: Env, a: i128, b: i128, c: i128, d: i128, e: i128) {}`
   * has six inputs: its entry reports six parameters, not seven.
   */
  lemma ManyParamsCountsSix(f: FnDecl)
    requires f.isPub && f.paramCount == 6 && f.body.stmts == []
    ensures EntriesAlong(PreorderAll(Is([Fn(f)]))) == [Metrics(f)]
    ensures Metrics(f).paramCount == 6 && Metrics(f).paramCount != 7
  {
    var fn := I(Fn(f));
    assert Is([Fn(f)]) == [fn];
    PreorderAllSingle(fn);
    assert Preorder(fn) == [fn] by {
      assert Children(fn) == [];
    }
    assert [fn][..0] == [];
  }

  /** The same function: six parameters, and the parameters warning is among its warnings. */
  lemma ManyParamsWarned(f: FnDecl)
    requires f.isPub && f.paramCount == 6 && f.body.stmts == []
    ensures Metrics(f).paramCount == 6
    ensures exists i :: 0 <= i < |Metrics(f).warnings| && Contains(Metrics(f).warnings[i], "parameters")
  {
    var m := Metrics(f);
    ParamsWarningPresent(m.cyclomaticComplexity, 6, m.maxNestingDepth, m.loc);
  }
}
