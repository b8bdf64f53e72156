// The gas estimator (tooling/sanctifier-core/src/gas_estimator.rs): a
// visitor that charges a fixed number of instructions and memory bytes per
// node kind, and multiplies by ten whatever a loop body costs. Each public
// function of a top-level impl block gets one report.

module GasEstimator {
  import opened Results
  import opened Syntax
  import opened Walk

  datatype GasEstimationReport = GasEstimationReport(functionName: string, estimatedInstructions: nat, estimatedMemoryBytes: nat)

  /** Function entry: the starting instruction count and stack usage of every visitor. */
  const BASE_INSTRUCTIONS: nat := 50
  const BASE_MEMORY: nat := 32

  /** The factor a loop body's cost is multiplied by. */
  const LOOP_FACTOR: nat := 10

  /** `estimate_type_size`: bytes per type, by the last path segment; 8 for anything that is not a path. */
  function TypeSize(ty: Type): (r: nat)
    ensures r in {4, 8, 16, 32, 64, 128}
    ensures !ty.PathType? || ty.segments == [] ==> r == 8
  {
    match ty
    case PathType(segments) =>
      if segments == [] then 8
      else
        var id := segments[|segments| - 1].ident;
        if id == "u32" || id == "i32" || id == "bool" then 4
        else if id == "u64" || id == "i64" then 8
        else if id == "u128" || id == "i128" || id == "I128" || id == "U128" then 16
        else if id == "Address" then 32
        else if id == "Bytes" || id == "BytesN" || id == "String" || id == "Symbol" then 64
        else if id == "Vec" || id == "Map" then 128
        else 32
    case _ => 8
  }

  /**
   * The size table by the last segment's name, and the 32-byte default for
   * any other name (so `Address` and an unknown user type both take 32).
   */
  lemma TypeSizeTable(segments: seq<Segment>, name: string)
    requires segments != [] && segments[|segments| - 1].ident == name
    ensures name in {"u32", "i32", "bool"} ==> TypeSize(PathType(segments)) == 4
    ensures name in {"u64", "i64"} ==> TypeSize(PathType(segments)) == 8
    ensures name in {"u128", "i128", "I128", "U128"} ==> TypeSize(PathType(segments)) == 16
    ensures name == "Address" ==> TypeSize(PathType(segments)) == 32
    ensures name in {"Bytes", "BytesN", "String", "Symbol"} ==> TypeSize(PathType(segments)) == 64
    ensures name in {"Vec", "Map"} ==> TypeSize(PathType(segments)) == 128
    ensures name !in {"u32", "i32", "bool", "u64", "i64", "u128", "i128", "I128", "U128",
                      "Address", "Bytes", "BytesN", "String", "Symbol", "Vec", "Map"} ==>
              TypeSize(PathType(segments)) == 32
  {
  }

  /** The method names charged as cross-host storage operations. */
  predicate IsStorageMethod(name: string)
  {
    name == "get" || name == "set" || name == "has" || name == "update" || name == "remove"
  }

  predicate IsLoop(n: Node)
  {
    n.E? && (n.e.ForLoop? || n.e.While? || n.e.Loop?)
  }

  /** Instructions charged on standing on `n`, before its sub-nodes. */
  function OwnInstructions(n: Node): nat
  {
    match n
    case E(Binary(_, _, _, _)) => 5
    case E(Call(_, _, _)) => 20
    case E(MethodCall(_, name, _, _)) =>
      if IsStorageMethod(name) then 1000 else if name == "require_auth" then 500 else 25
    case E(ForLoop(_, _)) => 50
    case E(While(_, _)) => 50
    case E(Loop(_)) => 50
    case E(MacroExpr(m)) => if IsIdent(m.path, "vec") || IsIdent(m.path, "map") then 50 else 10
    case S(Local(_, _, _)) => 2
    case _ => 0
  }

  /** Memory charged on standing on `n`: a `let` by its declared type (8 when it has none), some macros by what they build. */
  function OwnMemory(n: Node): nat
  {
    match n
    case S(Local(ty, _, _)) => if ty.Some? then TypeSize(ty.value) else 8
    case E(MacroExpr(m)) =>
      if IsIdent(m.path, "vec") || IsIdent(m.path, "map") then 128
      else if IsIdent(m.path, "symbol_short") || IsIdent(m.path, "String") then 32
      else 0
    case _ => 0
  }

  /** The body of a loop, and the expression visited after it (the `for` iterated expression, the `while` condition). */
  lemma LoopParts(n: Node)
    requires IsLoop(n)
    ensures NodesSize(Ss(n.e.body.stmts)) < NodeSize(n)
    ensures !n.e.Loop? ==> NodeSize(E(if n.e.ForLoop? then n.e.iter else n.e.cond)) < NodeSize(n)
  {
    ChildrenSmaller(n);
    if n.e.ForLoop? {
      NodesSizeConcat([E(n.e.iter)], Ss(n.e.body.stmts));
      assert [E(n.e.iter)][1..] == [];
    } else if n.e.While? {
      NodesSizeConcat([E(n.e.cond)], Ss(n.e.body.stmts));
      assert [E(n.e.cond)][1..] == [];
    }
  }

  /**
   * The instructions a visit of `n` adds. A loop charges 50, then ten times
   * what a fresh visitor (base cost included) counts for the body, then
   * visits the iterated expression or condition as usual; the body is not visited again.
   */
  function Instructions(n: Node): nat
    decreases NodeSize(n), 0
  {
    if IsLoop(n) then
      LoopParts(n);
      var inner := BASE_INSTRUCTIONS + InstructionsAll(Ss(n.e.body.stmts));
      OwnInstructions(n) + LOOP_FACTOR * inner +
      (if n.e.ForLoop? then Instructions(E(n.e.iter)) else if n.e.While? then Instructions(E(n.e.cond)) else 0)
    else
      ChildrenSmaller(n);
      OwnInstructions(n) + InstructionsAll(Children(n))
  }

  function InstructionsAll(ns: seq<Node>): nat
    decreases NodesSize(ns), 1
  {
    if ns == [] then 0
    else
      SplitLast(ns);
      NodeSizePositive(ns[|ns| - 1]);
      InstructionsAll(ns[..|ns| - 1]) + Instructions(ns[|ns| - 1])
  }

  /** The memory a visit of `n` adds; a loop adds ten times its body's fresh-visitor memory. */
  function Memory(n: Node): nat
    decreases NodeSize(n), 0
  {
    if IsLoop(n) then
      LoopParts(n);
      var inner := BASE_MEMORY + MemoryAll(Ss(n.e.body.stmts));
      OwnMemory(n) + LOOP_FACTOR * inner +
      (if n.e.ForLoop? then Memory(E(n.e.iter)) else if n.e.While? then Memory(E(n.e.cond)) else 0)
    else
      ChildrenSmaller(n);
      OwnMemory(n) + MemoryAll(Children(n))
  }

  function MemoryAll(ns: seq<Node>): nat
    decreases NodesSize(ns), 1
  {
    if ns == [] then 0
    else
      SplitLast(ns);
      NodeSizePositive(ns[|ns| - 1]);
      MemoryAll(ns[..|ns| - 1]) + Memory(ns[|ns| - 1])
  }

  /** `GasEstimationVisitor`: the function name and the running totals. */
  class GasEstimationVisitor {
    var functionName: string
    var instructionCount: nat
    var memoryBytes: nat

    constructor(name: string)
      ensures functionName == name
      ensures instructionCount == BASE_INSTRUCTIONS && memoryBytes == BASE_MEMORY
    {
      functionName := name;
      instructionCount := BASE_INSTRUCTIONS;
      memoryBytes := BASE_MEMORY;
    }

    method VisitNode(n: Node)
      modifies this
      ensures functionName == old(functionName)
      ensures instructionCount == old(instructionCount) + Instructions(n)
      ensures memoryBytes == old(memoryBytes) + Memory(n)
      decreases NodeSize(n), 0
    {
      instructionCount := instructionCount + OwnInstructions(n);
      memoryBytes := memoryBytes + OwnMemory(n);
      if IsLoop(n) {
        LoopParts(n);
        var inner := new GasEstimationVisitor([]);
        inner.VisitNodes(Ss(n.e.body.stmts));
        instructionCount := instructionCount + inner.instructionCount * LOOP_FACTOR;
        memoryBytes := memoryBytes + inner.memoryBytes * LOOP_FACTOR;
        if n.e.ForLoop? {
          VisitNode(E(n.e.iter));
        } else if n.e.While? {
          VisitNode(E(n.e.cond));
        }
      } else {
        ChildrenSmaller(n);
        VisitNodes(Children(n));
      }
    }

    method VisitNodes(ns: seq<Node>)
      modifies this
      ensures functionName == old(functionName)
      ensures instructionCount == old(instructionCount) + InstructionsAll(ns)
      ensures memoryBytes == old(memoryBytes) + MemoryAll(ns)
      decreases NodesSize(ns), 1
    {
      for i := 0 to |ns|
        invariant functionName == old(functionName)
        invariant instructionCount == old(instructionCount) + InstructionsAll(ns[..i])
        invariant memoryBytes == old(memoryBytes) + MemoryAll(ns[..i])
      {
        PrefixStep(ns, i);
        ElementSize(ns, i);
        VisitNode(ns[i]);
      }
      assert ns[..|ns|] == ns;
    }
  }

  // ---------------------------------------------------------------------
  // Reports

  /** The report of one function: a fresh visitor run over the function. */
  function Report(f: FnDecl): (r: GasEstimationReport)
    ensures r.functionName == f.name
    ensures r.estimatedInstructions >= BASE_INSTRUCTIONS && r.estimatedMemoryBytes >= BASE_MEMORY
  {
    GasEstimationReport(f.name, BASE_INSTRUCTIONS + Instructions(M(ImplFn(f))), BASE_MEMORY + Memory(M(ImplFn(f))))
  }

  /** The reports of the public functions of one impl block, in order. */
  function ImplReports(ms: seq<ImplItem>): seq<GasEstimationReport>
  {
    if ms == [] then []
    else
      var m := ms[|ms| - 1];
      ImplReports(ms[..|ms| - 1]) + (if m.ImplFn? && m.f.isPub then [Report(m.f)] else [])
  }

  /** The reports of every top-level impl block; free functions and nested items get none. */
  function ReportsOf(items: seq<Item>): seq<GasEstimationReport>
  {
    if items == [] then []
    else
      var item := items[|items| - 1];
      ReportsOf(items[..|items| - 1]) + (if item.Impl? then ImplReports(item.implItems) else [])
  }

  /** `estimate_contract`: `file` is the parse result, `None` when the source does not parse. */
  method EstimateContract(file: Option<File>) returns (reports: seq<GasEstimationReport>)
    ensures file.None? ==> reports == []
    ensures file.Some? ==> reports == ReportsOf(file.value.items)
  {
    if file.None? {
      return [];
    }
    var items := file.value.items;
    reports := [];
    for i := 0 to |items|
      invariant reports == ReportsOf(items[..i])
    {
      ReportsOfPrefix(items, i);
      if items[i].Impl? {
        var implReports := ReportImplBlock(items[i].implItems);
        reports := reports + implReports;
      }
    }
    assert items[..|items|] == items;
  }

  /** The inner loop of `estimate_contract`: one report per public function of an impl block, in order. */
  method ReportImplBlock(ms: seq<ImplItem>) returns (reports: seq<GasEstimationReport>)
    ensures reports == ImplReports(ms)
  {
    reports := [];
    for j := 0 to |ms|
      invariant reports == ImplReports(ms[..j])
    {
      ImplReportsPrefix(ms, j);
      if ms[j].ImplFn? && ms[j].f.isPub {
        var visitor := new GasEstimationVisitor(ms[j].f.name);
        visitor.VisitNode(M(ms[j]));
        reports := reports + [GasEstimationReport(visitor.functionName, visitor.instructionCount, visitor.memoryBytes)];
      }
    }
    assert ms[..|ms|] == ms;
  }

  lemma ReportsOfPrefix(items: seq<Item>, i: nat)
    requires i < |items|
    ensures ReportsOf(items[..i + 1]) ==
      ReportsOf(items[..i]) + (if items[i].Impl? then ImplReports(items[i].implItems) else [])
  {
    assert items[..i + 1][..i] == items[..i];
  }

  lemma ImplReportsPrefix(ms: seq<ImplItem>, j: nat)
    requires j < |ms|
    ensures ImplReports(ms[..j + 1]) ==
      ImplReports(ms[..j]) + (if ms[j].ImplFn? && ms[j].f.isPub then [Report(ms[j].f)] else [])
  {
    assert ms[..j + 1][..j] == ms[..j];
  }


  /** Each report comes from a public impl function and carries at least the entry costs. */
  lemma {:induction false} ReportsBounded(items: seq<Item>)
    ensures forall i :: 0 <= i < |ReportsOf(items)| ==>
      ReportsOf(items)[i].estimatedInstructions >= BASE_INSTRUCTIONS &&
      ReportsOf(items)[i].estimatedMemoryBytes >= BASE_MEMORY
  {
    if items != [] {
      var k := |items| - 1;
      ReportsBounded(items[..k]);
      if items[k].Impl? {
        ImplReportsBounded(items[k].implItems);
      }
    }
  }

  lemma {:induction false} ImplReportsBounded(ms: seq<ImplItem>)
    ensures forall i :: 0 <= i < |ImplReports(ms)| ==>
      ImplReports(ms)[i].estimatedInstructions >= BASE_INSTRUCTIONS &&
      ImplReports(ms)[i].estimatedMemoryBytes >= BASE_MEMORY
  {
    if ms != [] {
      ImplReportsBounded(ms[..|ms| - 1]);
    }
  }

  /** A free function after the other items adds no report. */
  lemma FreeFunctionNoReport(items: seq<Item>, f: FnDecl)
    ensures ReportsOf(items + [Fn(f)]) == ReportsOf(items)
  {
    var all := items + [Fn(f)];
    assert all[..|all| - 1] == items;
  }

  /** A private function adds no report; a public one adds exactly its own. */
  lemma ImplReportsStep(ms: seq<ImplItem>, f: FnDecl)
    ensures ImplReports(ms + [ImplFn(f)]) == ImplReports(ms) + (if f.isPub then [Report(f)] else [])
  {
    var all := ms + [ImplFn(f)];
    assert all[..|all| - 1] == ms;
  }

  // ---------------------------------------------------------------------
  // Loops only ever add to the flat per-node charges

  /** The sum of the per-node instruction charges along `ns`, as if no loop multiplied anything. */
  function FlatInstructions(ns: seq<Node>): nat
  {
    if ns == [] then 0 else FlatInstructions(ns[..|ns| - 1]) + OwnInstructions(ns[|ns| - 1])
  }

  function FlatMemory(ns: seq<Node>): nat
  {
    if ns == [] then 0 else FlatMemory(ns[..|ns| - 1]) + OwnMemory(ns[|ns| - 1])
  }

  lemma {:induction false} FlatConcat(a: seq<Node>, b: seq<Node>)
    ensures FlatInstructions(a + b) == FlatInstructions(a) + FlatInstructions(b)
    ensures FlatMemory(a + b) == FlatMemory(a) + FlatMemory(b)
    decreases |b|
  {
    if b == [] {
      assert a + b == a;
    } else {
      var k := |b| - 1;
      var ab := a + b;
      assert ab[..|ab| - 1] == a + b[..k];
      assert ab[|ab| - 1] == b[k];
      FlatConcat(a, b[..k]);
    }
  }

  /** No loop along `ns`. */
  predicate NoLoops(ns: seq<Node>)
  {
    forall i :: 0 <= i < |ns| ==> !IsLoop(ns[i])
  }

  lemma NoLoopsConcat(a: seq<Node>, b: seq<Node>)
    ensures NoLoops(a + b) <==> NoLoops(a) && NoLoops(b)
  {
    if NoLoops(a + b) {
      forall i | 0 <= i < |a|
        ensures !IsLoop(a[i])
      {
        assert (a + b)[i] == a[i];
      }
      forall i | 0 <= i < |b|
        ensures !IsLoop(b[i])
      {
        assert (a + b)[|a| + i] == b[i];
      }
    }
    if NoLoops(a) && NoLoops(b) {
      forall i | 0 <= i < |a + b|
        ensures !IsLoop((a + b)[i])
      {
        if i < |a| {
          assert (a + b)[i] == a[i];
        } else {
          assert (a + b)[i] == b[i - |a|];
        }
      }
    }
  }

  /** The traversal of a node with a leading expression: the node, that expression, then the statements. */
  lemma HeadedPreorder(n: Node, head: Expr, stmts: seq<Stmt>)
    requires Children(n) == [E(head)] + Ss(stmts)
    ensures Preorder(n) == [n] + Preorder(E(head)) + PreorderAll(Ss(stmts))
  {
    assert Preorder(n) == [n] + PreorderAll(Children(n));
    PreorderAllConcat([E(head)], Ss(stmts));
    PreorderAllSingle(E(head));
  }

  /** The traversal of a loop: the loop, then its iterated expression or condition, then its body. */
  lemma LoopPreorder(n: Node)
    requires IsLoop(n)
    ensures Preorder(n) == [n] +
      (if n.e.ForLoop? then Preorder(E(n.e.iter)) else if n.e.While? then Preorder(E(n.e.cond)) else []) +
      PreorderAll(Ss(n.e.body.stmts))
  {
    match n.e
    case ForLoop(iter, body) => {
      HeadedPreorder(n, iter, body.stmts);
    }
    case While(cond, body) => {
      HeadedPreorder(n, cond, body.stmts);
    }
    case Loop(body) => {
      assert Preorder(n) == [n] + PreorderAll(Children(n));
      assert [n] + [] == [n];
    }
  }

  /**
   * Instructions: at least the flat sum of per-node charges over everything
   * the traversal meets, and exactly that sum when no loop is met.
   */
  lemma {:induction false} InstructionsFlat(n: Node)
    ensures Instructions(n) >= FlatInstructions(Preorder(n))
    ensures NoLoops(Preorder(n)) ==> Instructions(n) == FlatInstructions(Preorder(n))
    decreases NodeSize(n), 0
  {
    assert [n][..0] == [];
    assert FlatInstructions([n]) == OwnInstructions(n);
    if IsLoop(n) {
      LoopParts(n);
      LoopPreorder(n);
      assert NoLoops([n] + Preorder(n)[1..]) ==> !IsLoop(n) by {
        assert ([n] + Preorder(n)[1..])[0] == n;
      }
      var body := Ss(n.e.body.stmts);
      InstructionsAllFlat(body);
      var head: seq<Node> := if n.e.ForLoop? then Preorder(E(n.e.iter)) else if n.e.While? then Preorder(E(n.e.cond)) else [];
      var tail := PreorderAll(body);
      assert Preorder(n) == [n] + head + tail;
      FlatConcat([n] + head, tail);
      FlatConcat([n], head);
      if n.e.ForLoop? {
        InstructionsFlat(E(n.e.iter));
      } else if n.e.While? {
        InstructionsFlat(E(n.e.cond));
      }
      assert Preorder(n)[0] == n;
    } else {
      ChildrenSmaller(n);
      InstructionsAllFlat(Children(n));
      assert Preorder(n) == [n] + PreorderAll(Children(n));
      FlatConcat([n], PreorderAll(Children(n)));
      NoLoopsConcat([n], PreorderAll(Children(n)));
    }
  }

  lemma {:induction false} InstructionsAllFlat(ns: seq<Node>)
    ensures InstructionsAll(ns) >= FlatInstructions(PreorderAll(ns))
    ensures NoLoops(PreorderAll(ns)) ==> InstructionsAll(ns) == FlatInstructions(PreorderAll(ns))
    decreases NodesSize(ns), 1
  {
    if ns != [] {
      var k := |ns| - 1;
      SplitLast(ns);
      NodeSizePositive(ns[k]);
      InstructionsAllFlat(ns[..k]);
      InstructionsFlat(ns[k]);
      FlatConcat(PreorderAll(ns[..k]), Preorder(ns[k]));
      NoLoopsConcat(PreorderAll(ns[..k]), Preorder(ns[k]));
    }
  }

  /** Memory: at least the flat sum of per-node charges, and exactly that sum when no loop is met. */
  lemma {:induction false} MemoryFlat(n: Node)
    ensures Memory(n) >= FlatMemory(Preorder(n))
    ensures NoLoops(Preorder(n)) ==> Memory(n) == FlatMemory(Preorder(n))
    decreases NodeSize(n), 0
  {
    assert [n][..0] == [];
    assert FlatMemory([n]) == OwnMemory(n);
    if IsLoop(n) {
      LoopParts(n);
      LoopPreorder(n);
      var body := Ss(n.e.body.stmts);
      MemoryAllFlat(body);
      var head: seq<Node> := if n.e.ForLoop? then Preorder(E(n.e.iter)) else if n.e.While? then Preorder(E(n.e.cond)) else [];
      var tail := PreorderAll(body);
      assert Preorder(n) == [n] + head + tail;
      FlatConcat([n] + head, tail);
      FlatConcat([n], head);
      if n.e.ForLoop? {
        MemoryFlat(E(n.e.iter));
      } else if n.e.While? {
        MemoryFlat(E(n.e.cond));
      }
      assert Preorder(n)[0] == n;
    } else {
      ChildrenSmaller(n);
      MemoryAllFlat(Children(n));
      assert Preorder(n) == [n] + PreorderAll(Children(n));
      FlatConcat([n], PreorderAll(Children(n)));
      NoLoopsConcat([n], PreorderAll(Children(n)));
    }
  }

  lemma {:induction false} MemoryAllFlat(ns: seq<Node>)
    ensures MemoryAll(ns) >= FlatMemory(PreorderAll(ns))
    ensures NoLoops(PreorderAll(ns)) ==> MemoryAll(ns) == FlatMemory(PreorderAll(ns))
    decreases NodesSize(ns), 1
  {
    if ns != [] {
      var k := |ns| - 1;
      SplitLast(ns);
      NodeSizePositive(ns[k]);
      MemoryAllFlat(ns[..k]);
      MemoryFlat(ns[k]);
      FlatConcat(PreorderAll(ns[..k]), Preorder(ns[k]));
      NoLoopsConcat(PreorderAll(ns[..k]), Preorder(ns[k]));
    }
  }

  // ---------------------------------------------------------------------
  // An example

  lemma OneNode(n: Node)
    ensures InstructionsAll([n]) == Instructions(n) && MemoryAll([n]) == Memory(n)
  {
    assert [n][..0] == [];
  }

  /** `loop { store.get() }`: the storage read is charged ten times over, with the inner visitor's entry cost. */
  lemma LoopedStorageRead(f: FnDecl, store: seq<string>, text: string)
    requires f.body == Block([ExprStmt(Loop(Block([ExprStmt(MethodCall(Path(store), "get", [], text))])))])
    ensures Report(f).estimatedInstructions == 50 + 50 + 10 * (50 + 1000)
    ensures Report(f).estimatedMemoryBytes == 32 + 10 * 32
  {
    var path := E(Path(store));
    assert Instructions(path) == 0 && Memory(path) == 0 by {
      assert Children(path) == [];
    }
    OneNode(path);
    var call := MethodCall(Path(store), "get", [], text);
    assert Instructions(E(call)) == 1000 && Memory(E(call)) == 0 by {
      assert Children(E(call)) == [path];
      assert IsStorageMethod("get");
      assert OwnInstructions(E(call)) == 1000;
    }
    OneNode(E(call));
    var st := ExprStmt(call);
    assert Instructions(S(st)) == 1000 && Memory(S(st)) == 0 by {
      assert Children(S(st)) == [E(call)];
    }
    assert Ss([st]) == [S(st)];
    OneNode(S(st));
    var lp := Loop(Block([st]));
    assert Instructions(E(lp)) == 50 + 10 * (50 + 1000) && Memory(E(lp)) == 10 * 32;
    var outer := ExprStmt(lp);
    assert Instructions(S(outer)) == Instructions(E(lp)) && Memory(S(outer)) == Memory(E(lp)) by {
      assert Children(S(outer)) == [E(lp)];
      OneNode(E(lp));
    }
    assert Ss([outer]) == [S(outer)];
    OneNode(S(outer));
    assert Children(M(ImplFn(f))) == Ss([outer]);
  }
}
