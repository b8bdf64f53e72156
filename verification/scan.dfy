// The hand-written descent shared by the authorization-gap and panic scans
// (tooling/sanctifier-core/src/lib.rs, `check_fn_body`/`check_expr` and
// `check_fn_panics`/`check_expr_panics`). Unlike the default traversal it
// only enters call arguments (not the callee), method-call receivers and
// arguments, blocks, `if` conditions and branches, `match` scrutinees and arm
// bodies (not guards), statement expressions and `let` initializers. Loops,
// closures, binary operators, nested items and every other expression kind
// end the descent.

module ScanWalk {
  import opened Results
  import opened Syntax
  import opened Walk

  /** The nodes the scan stands on below and including `e`, in the order it meets them. */
  function ReachExpr(e: Expr): seq<Node>
    decreases e
  {
    [E(e)] +
    match e
    case Call(_, args, _) => ReachExprs(args)
    case MethodCall(receiver, _, args, _) => ReachExpr(receiver) + ReachExprs(args)
    case BlockExpr(b) => ReachStmts(b.stmts)
    case If(cond, thenBranch, elseBranch) =>
      ReachExpr(cond) + ReachStmts(thenBranch.stmts) + ReachOpt(elseBranch)
    case Match(scrutinee, arms) => ReachExpr(scrutinee) + ReachArms(arms)
    case _ => []
  }

  function ReachOpt(o: Option<Expr>): seq<Node>
    decreases o
  {
    if o.Some? then ReachExpr(o.value) else []
  }

  function ReachExprs(es: seq<Expr>): seq<Node>
    decreases es
  {
    if es == [] then [] else ReachExprs(es[..|es| - 1]) + ReachExpr(es[|es| - 1])
  }

  /** Arm bodies only: guards are not scanned. */
  function ReachArms(arms: seq<Arm>): seq<Node>
    decreases arms
  {
    if arms == [] then [] else ReachArms(arms[..|arms| - 1]) + ReachArm(arms[|arms| - 1])
  }

  function ReachArm(a: Arm): seq<Node>
    decreases a
  {
    ReachExpr(a.armBody)
  }

  function ReachStmt(s: Stmt): seq<Node>
    decreases s
  {
    [S(s)] +
    match s
    case Local(_, init, _) => ReachOpt(init)
    case ExprStmt(e) => ReachExpr(e)
    case _ => []
  }

  function ReachStmts(ss: seq<Stmt>): seq<Node>
    decreases ss
  {
    if ss == [] then [] else ReachStmts(ss[..|ss| - 1]) + ReachStmt(ss[|ss| - 1])
  }

  lemma {:induction false} ReachStmtsConcat(a: seq<Stmt>, b: seq<Stmt>)
    ensures ReachStmts(a + b) == ReachStmts(a) + ReachStmts(b)
    decreases |b|
  {
    if b == [] {
      assert a + b == a;
    } else {
      var k := |b| - 1;
      var ab := a + b;
      assert ab[..|ab| - 1] == a + b[..k];
      assert ab[|ab| - 1] == b[k];
      ReachStmtsConcat(a, b[..k]);
      var last := ReachStmt(b[k]);
      assert ReachStmts(ab) == ReachStmts(a + b[..k]) + last;
      assert ReachStmts(b) == ReachStmts(b[..k]) + last;
    }
  }

  // ---------------------------------------------------------------------
  // The scan sees no more than the default traversal

  lemma {:induction false} ReachExprsWithin(es: seq<Expr>)
    ensures multiset(ReachExprs(es)) <= multiset(PreorderAll(Es(es)))
    decreases es, 0
  {
    if es != [] {
      var k := |es| - 1;
      assert es == es[..k] + [es[k]];
      EsSnoc(es[..k], es[k]);
      PreorderAllConcat(Es(es[..k]), [E(es[k])]);
      PreorderAllSingle(E(es[k]));
      ReachExprsWithin(es[..k]);
      ReachExprWithin(es[k]);
    }
  }

  lemma {:induction false} ReachStmtsWithin(ss: seq<Stmt>)
    ensures multiset(ReachStmts(ss)) <= multiset(PreorderAll(Ss(ss)))
    decreases ss, 0
  {
    if ss != [] {
      var k := |ss| - 1;
      assert ss == ss[..k] + [ss[k]];
      SsSnoc(ss[..k], ss[k]);
      PreorderAllConcat(Ss(ss[..k]), [S(ss[k])]);
      PreorderAllSingle(S(ss[k]));
      ReachStmtsWithin(ss[..k]);
      ReachStmtWithin(ss[k]);
    }
  }

  lemma {:induction false} ReachArmsWithin(arms: seq<Arm>)
    ensures multiset(ReachArms(arms)) <= multiset(PreorderAll(ArmNodes(arms)))
    decreases arms, 0
  {
    if arms != [] {
      var k := |arms| - 1;
      var a := arms[k];
      assert arms == arms[..k] + [a];
      ArmNodesSnoc(arms[..k], a);
      PreorderAllConcat(ArmNodes(arms[..k]) + OptE(a.guard), [E(a.armBody)]);
      PreorderAllConcat(ArmNodes(arms[..k]), OptE(a.guard));
      PreorderAllSingle(E(a.armBody));
      ReachArmsWithin(arms[..k]);
      ReachArmWithin(a);
    }
  }

  lemma {:induction false} ReachArmWithin(a: Arm)
    ensures multiset(ReachArm(a)) <= multiset(Preorder(E(a.armBody)))
    decreases a, 2
  {
    ReachExprWithin(a.armBody);
  }

  lemma {:induction false} ReachOptWithin(o: Option<Expr>)
    ensures multiset(ReachOpt(o)) <= multiset(PreorderAll(OptE(o)))
    decreases o, 0
  {
    if o.Some? {
      PreorderAllSingle(E(o.value));
      ReachExprWithin(o.value);
    }
  }

  /** Every node the scan meets below `e`, the default traversal meets at least as often. */
  lemma {:induction false} ReachExprWithin(e: Expr)
    ensures multiset(ReachExpr(e)) <= multiset(Preorder(E(e)))
    decreases e, 1
  {
    if e.Call? {
      ReachCallWithin(e);
    } else if e.MethodCall? {
      ReachMethodCallWithin(e);
    } else if e.BlockExpr? {
      ReachBlockWithin(e);
    } else if e.If? {
      ReachIfWithin(e);
    } else if e.Match? {
      ReachMatchWithin(e);
    } else {
      assert ReachExpr(e) == [E(e)];
      assert Preorder(E(e)) == [E(e)] + PreorderAll(Children(E(e)));
    }
  }

  lemma {:induction false} ReachCallWithin(e: Expr)
    requires e.Call?
    ensures multiset(ReachExpr(e)) <= multiset(Preorder(E(e)))
    decreases e, 0
  {
    var n := E(e);
    assert Preorder(n) == [n] + Preorder(E(e.func)) + PreorderAll(Es(e.args)) by {
      assert Children(n) == [E(e.func)] + Es(e.args);
      PreorderAllConcat([E(e.func)], Es(e.args));
      PreorderAllSingle(E(e.func));
    }
    assert ReachExpr(e) == [n] + ReachExprs(e.args);
    ReachExprsWithin(e.args);
  }

  lemma {:induction false} ReachMethodCallWithin(e: Expr)
    requires e.MethodCall?
    ensures multiset(ReachExpr(e)) <= multiset(Preorder(E(e)))
    decreases e, 0
  {
    var n := E(e);
    assert Preorder(n) == [n] + Preorder(E(e.receiver)) + PreorderAll(Es(e.args)) by {
      assert Children(n) == [E(e.receiver)] + Es(e.args);
      PreorderAllConcat([E(e.receiver)], Es(e.args));
      PreorderAllSingle(E(e.receiver));
    }
    assert ReachExpr(e) == [n] + ReachExpr(e.receiver) + ReachExprs(e.args);
    ReachExprWithin(e.receiver);
    ReachExprsWithin(e.args);
  }

  lemma {:induction false} ReachBlockWithin(e: Expr)
    requires e.BlockExpr?
    ensures multiset(ReachExpr(e)) <= multiset(Preorder(E(e)))
    decreases e, 0
  {
    var n := E(e);
    assert Preorder(n) == [n] + PreorderAll(Ss(e.block.stmts)) by {
      assert Children(n) == Ss(e.block.stmts);
    }
    assert ReachExpr(e) == [n] + ReachStmts(e.block.stmts);
    ReachStmtsWithin(e.block.stmts);
  }

  lemma {:induction false} ReachIfWithin(e: Expr)
    requires e.If?
    ensures multiset(ReachExpr(e)) <= multiset(Preorder(E(e)))
    decreases e, 0
  {
    var n := E(e);
    var c, t, o := E(e.cond), Ss(e.thenBranch.stmts), OptE(e.elseBranch);
    assert Preorder(n) == [n] + Preorder(c) + PreorderAll(t) + PreorderAll(o) by {
      assert Children(n) == [c] + t + o;
      PreorderAllConcat([c] + t, o);
      PreorderAllConcat([c], t);
      PreorderAllSingle(c);
    }
    assert ReachExpr(e) == [n] + ReachExpr(e.cond) + ReachStmts(e.thenBranch.stmts) + ReachOpt(e.elseBranch);
    ReachExprWithin(e.cond);
    ReachStmtsWithin(e.thenBranch.stmts);
    ReachOptWithin(e.elseBranch);
  }

  lemma {:induction false} ReachMatchWithin(e: Expr)
    requires e.Match?
    ensures multiset(ReachExpr(e)) <= multiset(Preorder(E(e)))
    decreases e, 0
  {
    var n := E(e);
    assert Preorder(n) == [n] + Preorder(E(e.scrutinee)) + PreorderAll(ArmNodes(e.arms)) by {
      assert Children(n) == [E(e.scrutinee)] + ArmNodes(e.arms);
      PreorderAllConcat([E(e.scrutinee)], ArmNodes(e.arms));
      PreorderAllSingle(E(e.scrutinee));
    }
    assert ReachExpr(e) == [n] + ReachExpr(e.scrutinee) + ReachArms(e.arms);
    ReachExprWithin(e.scrutinee);
    ReachArmsWithin(e.arms);
  }

  lemma {:induction false} ReachStmtWithin(s: Stmt)
    ensures multiset(ReachStmt(s)) <= multiset(Preorder(S(s)))
    decreases s, 1
  {
    match s
    case Local(_, _, _) => {
      ReachLocalWithin(s);
    }
    case ExprStmt(e) => {
      assert Preorder(S(s)) == [S(s)] + Preorder(E(e)) by {
        PreorderOne(S(s), E(e));
      }
      ReachExprWithin(e);
    }
    case _ => {
      assert Preorder(S(s)) == [S(s)] + PreorderAll(Children(S(s)));
    }
  }

  lemma {:induction false} ReachLocalWithin(s: Stmt)
    requires s.Local?
    ensures multiset(ReachStmt(s)) <= multiset(Preorder(S(s)))
    decreases s, 0
  {
    var own, rest := PreorderAll(OptE(s.init)), PreorderAll(OptE(s.diverge));
    assert Preorder(S(s)) == [S(s)] + own + rest by {
      assert Children(S(s)) == OptE(s.init) + OptE(s.diverge);
      PreorderAllConcat(OptE(s.init), OptE(s.diverge));
    }
    assert multiset(ReachOpt(s.init)) <= multiset(own) by {
      ReachOptWithin(s.init);
    }
    assert ReachStmt(s) == [S(s)] + ReachOpt(s.init);
  }

  // ---------------------------------------------------------------------
  // Whole files: both scans look only at the functions of top-level impl blocks

  /** The nodes the scan meets in the bodies of the functions of an impl block, in order. */
  function ImplReach(ms: seq<ImplItem>): seq<Node>
  {
    if ms == [] then []
    else
      var m := ms[|ms| - 1];
      ImplReach(ms[..|ms| - 1]) + (if m.ImplFn? then ReachStmts(m.f.body.stmts) else [])
  }

  function FileReach(items: seq<Item>): seq<Node>
  {
    if items == [] then []
    else
      var item := items[|items| - 1];
      FileReach(items[..|items| - 1]) + (if item.Impl? then ImplReach(item.implItems) else [])
  }

  lemma {:induction false} ImplReachWithin(ms: seq<ImplItem>)
    ensures multiset(ImplReach(ms)) <= multiset(PreorderAll(Ms(ms)))
  {
    if ms != [] {
      var k := |ms| - 1;
      var m := ms[k];
      var prefix := ms[..k];
      assert PreorderAll(Ms(ms)) == PreorderAll(Ms(prefix)) + Preorder(M(m)) by {
        assert ms == prefix + [m];
        MsSnoc(prefix, m);
        PreorderAllConcat(Ms(prefix), [M(m)]);
        PreorderAllSingle(M(m));
      }
      var extra := if m.ImplFn? then ReachStmts(m.f.body.stmts) else [];
      assert ImplReach(ms) == ImplReach(prefix) + extra;
      ImplReachWithin(prefix);
      assert multiset(extra) <= multiset(Preorder(M(m))) by {
        if m.ImplFn? {
          assert Preorder(M(m)) == [M(m)] + PreorderAll(Ss(m.f.body.stmts));
          ReachStmtsWithin(m.f.body.stmts);
        }
      }
    }
  }

  /** Every node the file scan meets, the default traversal of the file meets at least as often. */
  lemma {:induction false} FileReachWithin(items: seq<Item>)
    ensures multiset(FileReach(items)) <= multiset(PreorderAll(Is(items)))
  {
    if items != [] {
      var k := |items| - 1;
      var item := items[k];
      var prefix := items[..k];
      assert items == prefix + [item];
      IsSnoc(prefix, item);
      PreorderAllConcat(Is(prefix), [I(item)]);
      PreorderAllSingle(I(item));
      assert PreorderAll(Is(items)) == PreorderAll(Is(prefix)) + Preorder(I(item));
      var extra := if item.Impl? then ImplReach(item.implItems) else [];
      assert FileReach(items) == FileReach(prefix) + extra;
      FileReachWithin(prefix);
      assert multiset(extra) <= multiset(Preorder(I(item))) by {
        if item.Impl? {
          assert Preorder(I(item)) == [I(item)] + PreorderAll(Ms(item.implItems));
          ImplReachWithin(item.implItems);
        }
      }
    }
  }
}
