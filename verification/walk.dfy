// The default traversal of the syntax tree (what `syn::visit` does when a
// visitor does not override a node kind): every node kind with the
// sub-nodes the traversal descends into, in source order, and a size
// measure under which every child is smaller than its parent. Visitors in
// the other modules recurse through `Children` and terminate by `NodeSize`.

module Walk {
  import opened Results
  import opened Syntax

  /** Any node the traversal can stand on. */
  datatype Node = E(e: Expr) | S(s: Stmt) | I(item: Item) | M(implItem: ImplItem) | T(traitItem: TraitItem)

  function Es(es: seq<Expr>): (r: seq<Node>)
    ensures |r| == |es|
  {
    if es == [] then [] else [E(es[0])] + Es(es[1..])
  }

  function Ss(ss: seq<Stmt>): (r: seq<Node>)
    ensures |r| == |ss|
  {
    if ss == [] then [] else [S(ss[0])] + Ss(ss[1..])
  }

  function Is(items: seq<Item>): (r: seq<Node>)
    ensures |r| == |items|
  {
    if items == [] then [] else [I(items[0])] + Is(items[1..])
  }

  function Ms(ms: seq<ImplItem>): (r: seq<Node>)
    ensures |r| == |ms|
  {
    if ms == [] then [] else [M(ms[0])] + Ms(ms[1..])
  }

  function Ts(ts: seq<TraitItem>): (r: seq<Node>)
    ensures |r| == |ts|
  {
    if ts == [] then [] else [T(ts[0])] + Ts(ts[1..])
  }

  function OptE(o: Option<Expr>): seq<Node>
  {
    if o.Some? then [E(o.value)] else []
  }

  /** Each arm contributes its guard (when present) and then its body. */
  function ArmNodes(arms: seq<Arm>): seq<Node>
  {
    if arms == [] then [] else OptE(arms[0].guard) + [E(arms[0].armBody)] + ArmNodes(arms[1..])
  }

  /** The sub-nodes the default traversal visits, in order. */
  function Children(n: Node): seq<Node>
  {
    ChildrenByKind(n)
  }

  /** The children of each kind of node, as `syn`'s default `visit_*` functions walk them. */
  function ChildrenByKind(n: Node): seq<Node>
  {
    match n
    case E(e) => (
      match e
      case Call(func, args, _) => [E(func)] + Es(args)
      case MethodCall(receiver, _, args, _) => [E(receiver)] + Es(args)
      case MacroExpr(_) => []
      case BlockExpr(b) => Ss(b.stmts)
      case If(cond, thenBranch, elseBranch) => [E(cond)] + Ss(thenBranch.stmts) + OptE(elseBranch)
      case Match(scrutinee, arms) => [E(scrutinee)] + ArmNodes(arms)
      case Binary(_, left, right, _) => [E(left), E(right)]
      case Lit(_) => []
      case Path(_) => []
      case ForLoop(iter, body) => [E(iter)] + Ss(body.stmts)
      case While(cond, body) => [E(cond)] + Ss(body.stmts)
      case Loop(body) => Ss(body.stmts)
      case Closure(body) => [E(body)]
      case OtherExpr(cs) => Es(cs))
    case S(s) => (
      match s
      case Local(_, init, diverge) => OptE(init) + OptE(diverge)
      case ExprStmt(e) => [E(e)]
      case MacroStmt(_) => []
      case ItemStmt(item) => [I(item)])
    case I(item) => (
      match item
      case Fn(f) => Ss(f.body.stmts)
      case Impl(ms) => Ms(ms)
      case Const(_, value, _) => [E(value)]
      case Static(value) => [E(value)]
      case Mod(items) => Is(items)
      case Trait(ts) => Ts(ts)
      case _ => [])
    case M(m) => (
      match m
      case ImplFn(f) => Ss(f.body.stmts)
      case ImplConst(value) => [E(value)]
      case ImplOther => [])
    case T(t) => (
      match t
      case TraitFn(body) => if body.Some? then Ss(body.value.stmts) else []
      case TraitConst(value) => OptE(value)
      case TraitOther => [])
  }

  // ---------------------------------------------------------------------
  // Size measure

  function ExprSize(e: Expr): nat
    decreases e
  {
    match e
    case Call(func, args, _) => 1 + ExprSize(func) + ExprsSize(args)
    case MethodCall(receiver, _, args, _) => 1 + ExprSize(receiver) + ExprsSize(args)
    case MacroExpr(_) => 1
    case BlockExpr(b) => 1 + StmtsSize(b.stmts)
    case If(cond, thenBranch, elseBranch) =>
      1 + ExprSize(cond) + StmtsSize(thenBranch.stmts) + OptExprSize(elseBranch)
    case Match(scrutinee, arms) => 1 + ExprSize(scrutinee) + ArmsSize(arms)
    case Binary(_, left, right, _) => 1 + ExprSize(left) + ExprSize(right)
    case Lit(_) => 1
    case Path(_) => 1
    case ForLoop(iter, body) => 1 + ExprSize(iter) + StmtsSize(body.stmts)
    case While(cond, body) => 1 + ExprSize(cond) + StmtsSize(body.stmts)
    case Loop(body) => 1 + StmtsSize(body.stmts)
    case Closure(body) => 1 + ExprSize(body)
    case OtherExpr(cs) => 1 + ExprsSize(cs)
  }

  function ExprsSize(es: seq<Expr>): nat
    decreases es
  {
    if es == [] then 0 else ExprSize(es[0]) + ExprsSize(es[1..])
  }

  function OptExprSize(o: Option<Expr>): nat
    decreases o
  {
    if o.Some? then ExprSize(o.value) else 0
  }

  function ArmSize(a: Arm): nat
    decreases a
  {
    OptExprSize(a.guard) + ExprSize(a.armBody)
  }

  function ArmsSize(arms: seq<Arm>): nat
    decreases arms
  {
    if arms == [] then 0 else ArmSize(arms[0]) + ArmsSize(arms[1..])
  }

  function StmtSize(s: Stmt): nat
    decreases s
  {
    match s
    case Local(_, init, diverge) => 1 + OptExprSize(init) + OptExprSize(diverge)
    case ExprStmt(e) => 1 + ExprSize(e)
    case MacroStmt(_) => 1
    case ItemStmt(item) => 1 + ItemSize(item)
  }

  function StmtsSize(ss: seq<Stmt>): nat
    decreases ss
  {
    if ss == [] then 0 else StmtSize(ss[0]) + StmtsSize(ss[1..])
  }

  function ItemSize(item: Item): nat
    decreases item
  {
    match item
    case Fn(f) => 1 + StmtsSize(f.body.stmts)
    case Impl(ms) => 1 + ImplItemsSize(ms)
    case Const(_, value, _) => 1 + ExprSize(value)
    case Static(value) => 1 + ExprSize(value)
    case Mod(items) => 1 + ItemsSize(items)
    case Trait(ts) => 1 + TraitItemsSize(ts)
    case _ => 1
  }

  function ItemsSize(items: seq<Item>): nat
    decreases items
  {
    if items == [] then 0 else ItemSize(items[0]) + ItemsSize(items[1..])
  }

  function ImplItemSize(m: ImplItem): nat
    decreases m
  {
    match m
    case ImplFn(f) => 1 + StmtsSize(f.body.stmts)
    case ImplConst(value) => 1 + ExprSize(value)
    case ImplOther => 1
  }

  function ImplItemsSize(ms: seq<ImplItem>): nat
    decreases ms
  {
    if ms == [] then 0 else ImplItemSize(ms[0]) + ImplItemsSize(ms[1..])
  }

  function TraitItemSize(t: TraitItem): nat
    decreases t
  {
    match t
    case TraitFn(body) => 1 + (if body.Some? then StmtsSize(body.value.stmts) else 0)
    case TraitConst(value) => 1 + OptExprSize(value)
    case TraitOther => 1
  }

  function TraitItemsSize(ts: seq<TraitItem>): nat
    decreases ts
  {
    if ts == [] then 0 else TraitItemSize(ts[0]) + TraitItemsSize(ts[1..])
  }

  function NodeSize(n: Node): nat
  {
    match n
    case E(e) => ExprSize(e)
    case S(s) => StmtSize(s)
    case I(item) => ItemSize(item)
    case M(m) => ImplItemSize(m)
    case T(t) => TraitItemSize(t)
  }

  function NodesSize(ns: seq<Node>): nat
  {
    if ns == [] then 0 else NodeSize(ns[0]) + NodesSize(ns[1..])
  }

  lemma NodeSizePositive(n: Node)
    ensures NodeSize(n) >= 1
  {
  }

  lemma {:induction false} NodesSizeConcat(a: seq<Node>, b: seq<Node>)
    ensures NodesSize(a + b) == NodesSize(a) + NodesSize(b)
  {
    if a == [] {
      assert a + b == b;
    } else {
      assert (a + b)[1..] == a[1..] + b;
      NodesSizeConcat(a[1..], b);
    }
  }

  lemma OptESize(o: Option<Expr>)
    ensures NodesSize(OptE(o)) == OptExprSize(o)
  {
    if o.Some? {
      assert OptE(o)[1..] == [];
    }
  }

  lemma {:induction false} EsSize(es: seq<Expr>)
    ensures NodesSize(Es(es)) == ExprsSize(es)
  {
    if es != [] {
      NodesSizeConcat([E(es[0])], Es(es[1..]));
      EsSize(es[1..]);
    }
  }

  lemma {:induction false} SsSize(ss: seq<Stmt>)
    ensures NodesSize(Ss(ss)) == StmtsSize(ss)
  {
    if ss != [] {
      NodesSizeConcat([S(ss[0])], Ss(ss[1..]));
      SsSize(ss[1..]);
    }
  }

  lemma {:induction false} MsSize(ms: seq<ImplItem>)
    ensures NodesSize(Ms(ms)) == ImplItemsSize(ms)
  {
    if ms != [] {
      NodesSizeConcat([M(ms[0])], Ms(ms[1..]));
      MsSize(ms[1..]);
    }
  }

  lemma {:induction false} IsSize(items: seq<Item>)
    ensures NodesSize(Is(items)) == ItemsSize(items)
  {
    if items != [] {
      NodesSizeConcat([I(items[0])], Is(items[1..]));
      IsSize(items[1..]);
    }
  }

  lemma {:induction false} TsSize(ts: seq<TraitItem>)
    ensures NodesSize(Ts(ts)) == TraitItemsSize(ts)
  {
    if ts != [] {
      NodesSizeConcat([T(ts[0])], Ts(ts[1..]));
      TsSize(ts[1..]);
    }
  }

  lemma {:induction false} ArmNodesSize(arms: seq<Arm>)
    ensures NodesSize(ArmNodes(arms)) == ArmsSize(arms)
  {
    if arms != [] {
      var a := arms[0];
      NodesSizeConcat(OptE(a.guard) + [E(a.armBody)], ArmNodes(arms[1..]));
      NodesSizeConcat(OptE(a.guard), [E(a.armBody)]);
      OptESize(a.guard);
      assert [E(a.armBody)][1..] == [];
      ArmNodesSize(arms[1..]);
    }
  }

  lemma ExprChildrenSmaller(e: Expr)
    ensures NodesSize(Children(E(e))) + 1 == ExprSize(e)
  {
    var kids := Children(E(e));
    match e
    case Call(func, args, _) => {
      assert kids == [E(func)] + Es(args);
      NodesSizeConcat([E(func)], Es(args));
      EsSize(args);
    }
    case MethodCall(receiver, _, args, _) => {
      assert kids == [E(receiver)] + Es(args);
      NodesSizeConcat([E(receiver)], Es(args));
      EsSize(args);
    }
    case MacroExpr(_) => {}
    case BlockExpr(b) => { SsSize(b.stmts); }
    case If(cond, thenBranch, elseBranch) => {
      assert kids == [E(cond)] + Ss(thenBranch.stmts) + OptE(elseBranch);
      NodesSizeConcat([E(cond)] + Ss(thenBranch.stmts), OptE(elseBranch));
      NodesSizeConcat([E(cond)], Ss(thenBranch.stmts));
      SsSize(thenBranch.stmts);
      OptESize(elseBranch);
    }
    case Match(scrutinee, arms) => {
      assert kids == [E(scrutinee)] + ArmNodes(arms);
      NodesSizeConcat([E(scrutinee)], ArmNodes(arms));
      ArmNodesSize(arms);
    }
    case Binary(_, left, right, _) => {
      assert kids == [E(left)] + [E(right)];
      NodesSizeConcat([E(left)], [E(right)]);
    }
    case Lit(_) => {}
    case Path(_) => {}
    case ForLoop(iter, body) => {
      assert kids == [E(iter)] + Ss(body.stmts);
      NodesSizeConcat([E(iter)], Ss(body.stmts));
      SsSize(body.stmts);
    }
    case While(cond, body) => {
      assert kids == [E(cond)] + Ss(body.stmts);
      NodesSizeConcat([E(cond)], Ss(body.stmts));
      SsSize(body.stmts);
    }
    case Loop(body) => { SsSize(body.stmts); }
    case Closure(body) => {}
    case OtherExpr(cs) => { EsSize(cs); }
  }

  lemma StmtChildrenSmaller(s: Stmt)
    ensures NodesSize(Children(S(s))) + 1 == StmtSize(s)
  {
    match s
    case Local(_, init, diverge) => {
      NodesSizeConcat(OptE(init), OptE(diverge));
      OptESize(init);
      OptESize(diverge);
    }
    case ExprStmt(e) => {}
    case MacroStmt(_) => {}
    case ItemStmt(item) => {}
  }

  lemma ItemChildrenSmaller(item: Item)
    ensures NodesSize(Children(I(item))) + 1 == ItemSize(item)
  {
    match item
    case Fn(f) => { SsSize(f.body.stmts); }
    case Impl(ms) => { MsSize(ms); }
    case Const(_, value, _) => {}
    case Static(value) => {}
    case Mod(items) => { IsSize(items); }
    case Trait(ts) => { TsSize(ts); }
    case _ => {}
  }

  lemma ImplItemChildrenSmaller(m: ImplItem)
    ensures NodesSize(Children(M(m))) + 1 == ImplItemSize(m)
  {
    match m
    case ImplFn(f) => { SsSize(f.body.stmts); }
    case ImplConst(value) => {}
    case ImplOther => {}
  }

  lemma TraitItemChildrenSmaller(t: TraitItem)
    ensures NodesSize(Children(T(t))) + 1 == TraitItemSize(t)
  {
    match t
    case TraitFn(body) => {
      if body.Some? {
        SsSize(body.value.stmts);
      }
    }
    case TraitConst(value) => { OptESize(value); }
    case TraitOther => {}
  }

  /** Every child is strictly smaller than its parent: the children together are. */
  lemma ChildrenSmaller(n: Node)
    ensures NodesSize(Children(n)) + 1 == NodeSize(n)
  {
    match n
    case E(e) => ExprChildrenSmaller(e);
    case S(s) => StmtChildrenSmaller(s);
    case I(item) => ItemChildrenSmaller(item);
    case M(m) => ImplItemChildrenSmaller(m);
    case T(t) => TraitItemChildrenSmaller(t);
  }

  /** Dropping the last node leaves a strictly smaller sequence. */
  lemma SplitLast(ns: seq<Node>)
    requires ns != []
    ensures NodesSize(ns) == NodesSize(ns[..|ns| - 1]) + NodeSize(ns[|ns| - 1])
  {
    var k := |ns| - 1;
    var front, last := ns[..k], [ns[k]];
    assert ns == front + last;
    NodesSizeConcat(front, last);
    assert last[1..] == [];
  }

  /** Each node of a sequence is no larger than the whole sequence. */
  lemma {:induction false} ElementSize(ns: seq<Node>, i: nat)
    requires i < |ns|
    ensures NodeSize(ns[i]) <= NodesSize(ns)
  {
    if i > 0 {
      ElementSize(ns[1..], i - 1);
    }
  }

  /** The prefix taken by a loop that has visited `i` nodes. */
  lemma PrefixStep(ns: seq<Node>, i: nat)
    requires i < |ns|
    ensures ns[..i + 1][..i] == ns[..i] && ns[..i + 1][i] == ns[i]
  {
  }

  // ---------------------------------------------------------------------
  // The order in which the default traversal meets the nodes

  /** Every node the default traversal meets below and including `n`, parent before children. */
  function Preorder(n: Node): seq<Node>
    decreases NodeSize(n), 0
  {
    ChildrenSmaller(n);
    [n] + PreorderAll(Children(n))
  }

  function PreorderAll(ns: seq<Node>): seq<Node>
    decreases NodesSize(ns), 1
  {
    if ns == [] then []
    else
      SplitLast(ns);
      NodeSizePositive(ns[|ns| - 1]);
      PreorderAll(ns[..|ns| - 1]) + Preorder(ns[|ns| - 1])
  }

  /** Appending one node appends its traversal. */
  lemma PreorderAllSnoc(ns: seq<Node>, x: Node)
    ensures PreorderAll(ns + [x]) == PreorderAll(ns) + Preorder(x)
  {
    var all := ns + [x];
    assert all[..|all| - 1] == ns;
    assert all[|all| - 1] == x;
  }

  lemma {:induction false} PreorderAllConcat(a: seq<Node>, b: seq<Node>)
    ensures PreorderAll(a + b) == PreorderAll(a) + PreorderAll(b)
    decreases |b|
  {
    if b == [] {
      assert a + b == a;
    } else {
      var k := |b| - 1;
      var front, last := b[..k], b[k];
      assert b == front + [last];
      assert a + b == (a + front) + [last];
      PreorderAllSnoc(a + front, last);
      PreorderAllConcat(a, front);
      PreorderAllSnoc(front, last);
    }
  }

  lemma PreorderAllSingle(n: Node)
    ensures PreorderAll([n]) == Preorder(n)
  {
    assert [n][..0] == [];
  }

  /** A node without children is its own traversal. */
  lemma PreorderLeaf(n: Node)
    requires Children(n) == []
    ensures Preorder(n) == [n]
  {
  }

  /** A node with one child: the node, then the child's traversal. */
  lemma PreorderOne(n: Node, c: Node)
    requires Children(n) == [c]
    ensures Preorder(n) == [n] + Preorder(c)
  {
    PreorderAllSingle(c);
  }

  /** A node with two children: the node, then each child's traversal in turn. */
  lemma PreorderTwo(n: Node, c1: Node, c2: Node)
    requires Children(n) == [c1, c2]
    ensures Preorder(n) == [n] + Preorder(c1) + Preorder(c2)
  {
    assert [c1, c2] == [c1] + [c2];
    PreorderAllConcat([c1], [c2]);
    PreorderAllSingle(c1);
    PreorderAllSingle(c2);
  }

  /** Three sibling nodes: their traversals one after the other. */
  lemma PreorderAllThree(a: Node, b: Node, c: Node)
    ensures PreorderAll([a, b, c]) == Preorder(a) + Preorder(b) + Preorder(c)
  {
    assert [a, b, c] == [a, b] + [c];
    assert [a, b] == [a] + [b];
    PreorderAllConcat([a, b], [c]);
    PreorderAllConcat([a], [b]);
    PreorderAllSingle(a);
    PreorderAllSingle(b);
    PreorderAllSingle(c);
  }

  lemma {:induction false} EsSnoc(es: seq<Expr>, x: Expr)
    ensures Es(es + [x]) == Es(es) + [E(x)]
  {
    if es == [] {
      assert es + [x] == [x];
    } else {
      assert (es + [x])[1..] == es[1..] + [x];
      EsSnoc(es[1..], x);
    }
  }

  lemma {:induction false} SsSnoc(ss: seq<Stmt>, x: Stmt)
    ensures Ss(ss + [x]) == Ss(ss) + [S(x)]
  {
    if ss == [] {
      assert ss + [x] == [x];
    } else {
      assert (ss + [x])[1..] == ss[1..] + [x];
      SsSnoc(ss[1..], x);
    }
  }

  lemma {:induction false} MsSnoc(ms: seq<ImplItem>, x: ImplItem)
    ensures Ms(ms + [x]) == Ms(ms) + [M(x)]
  {
    if ms == [] {
      assert ms + [x] == [x];
    } else {
      assert (ms + [x])[1..] == ms[1..] + [x];
      MsSnoc(ms[1..], x);
    }
  }

  lemma {:induction false} IsSnoc(items: seq<Item>, x: Item)
    ensures Is(items + [x]) == Is(items) + [I(x)]
  {
    if items == [] {
      assert items + [x] == [x];
    } else {
      assert (items + [x])[1..] == items[1..] + [x];
      IsSnoc(items[1..], x);
    }
  }

  lemma {:induction false} ArmNodesSnoc(arms: seq<Arm>, x: Arm)
    ensures ArmNodes(arms + [x]) == ArmNodes(arms) + OptE(x.guard) + [E(x.armBody)]
  {
    if arms == [] {
      assert arms + [x] == [x];
    } else {
      assert (arms + [x])[1..] == arms[1..] + [x];
      ArmNodesSnoc(arms[1..], x);
    }
  }
}
