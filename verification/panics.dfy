// Panic detection (tooling/sanctifier-core/src/lib.rs, `scan_panics`): every
// `panic!`, `.unwrap()` and `.expect()` that the hand-written descent of
// scan.dfy reaches inside the functions of top-level impl blocks becomes an
// issue of its own, tagged with the enclosing function's name.

module Panics {
  import opened Results
  import opened Syntax
  import opened Walk
  import opened ScanWalk

  datatype PanicIssue = PanicIssue(functionName: string, issueType: string, location: string)

  predicate IsPanicMacro(m: MacroCall)
  {
    IsIdent(m.path, "panic")
  }

  /** The issue type a node raises on its own: `panic!`, `unwrap` or `expect`. */
  function PanicKind(n: Node): Option<string>
  {
    match n
    case E(MacroExpr(m)) => if IsPanicMacro(m) then Some("panic!") else None
    case E(MethodCall(_, name, _, _)) => if name == "unwrap" || name == "expect" then Some(name) else None
    case S(MacroStmt(m)) => if IsPanicMacro(m) then Some("panic!") else None
    case _ => None
  }

  /** The nodes of `ns` that raise an issue, in order. */
  function PanicSites(ns: seq<Node>): (r: seq<Node>)
    ensures |r| <= |ns|
    ensures forall i :: 0 <= i < |r| ==> PanicKind(r[i]).Some?
  {
    if ns == [] then []
    else
      var n := ns[|ns| - 1];
      PanicSites(ns[..|ns| - 1]) + (if PanicKind(n).Some? then [n] else [])
  }

  /** The issues raised by the nodes `ns` met inside function `fnName`. */
  function IssuesAt(ns: seq<Node>, fnName: string): (r: seq<PanicIssue>)
    ensures |r| == |PanicSites(ns)|
    ensures forall i :: 0 <= i < |r| ==>
      r[i].functionName == fnName && r[i].location == fnName &&
      r[i].issueType in {"panic!", "unwrap", "expect"}
  {
    if ns == [] then []
    else
      var n := ns[|ns| - 1];
      IssuesAt(ns[..|ns| - 1], fnName) +
      (if PanicKind(n).Some? then [PanicIssue(fnName, PanicKind(n).value, fnName)] else [])
  }

  lemma {:induction false} IssuesAtConcat(a: seq<Node>, b: seq<Node>, fnName: string)
    ensures IssuesAt(a + b, fnName) == IssuesAt(a, fnName) + IssuesAt(b, fnName)
    decreases |b|
  {
    if b == [] {
      assert a + b == a;
    } else {
      var k := |b| - 1;
      var ab := a + b;
      var last := if PanicKind(b[k]).Some? then [PanicIssue(fnName, PanicKind(b[k]).value, fnName)] else [];
      assert IssuesAt(ab, fnName) == IssuesAt(a + b[..k], fnName) + last by {
        assert ab[..|ab| - 1] == a + b[..k];
        assert ab[|ab| - 1] == b[k];
      }
      assert IssuesAt(b, fnName) == IssuesAt(b[..k], fnName) + last;
      IssuesAtConcat(a, b[..k], fnName);
      AppendAssoc(IssuesAt(a, fnName), IssuesAt(b[..k], fnName), last);
    }
  }

  lemma {:induction false} PanicSitesConcat(a: seq<Node>, b: seq<Node>)
    ensures PanicSites(a + b) == PanicSites(a) + PanicSites(b)
    decreases |b|
  {
    if b == [] {
      assert a + b == a;
    } else {
      var k := |b| - 1;
      var ab := a + b;
      assert ab[..|ab| - 1] == a + b[..k];
      assert ab[|ab| - 1] == b[k];
      PanicSitesConcat(a, b[..k]);
    }
  }

  // ---------------------------------------------------------------------
  // The descent, pushing onto the issue list

  lemma AppendAssoc(a: seq<PanicIssue>, b: seq<PanicIssue>, c: seq<PanicIssue>)
    ensures a + b + c == a + (b + c)
  {
  }

  /** `check_expr_panics`: `issues` extended with what `e` raises, in the order met. */
  method CheckExprPanics(e: Expr, fnName: string, issues: seq<PanicIssue>) returns (out: seq<PanicIssue>)
    ensures out == issues + IssuesAt(ReachExpr(e), fnName)
    decreases e
  {
    var own := [E(e)];
    var here := IssuesAt(own, fnName);
    assert own[..0] == [];
    out := issues + here;
    var rest: seq<Node>;
    match e {
      case MethodCall(receiver, _, args, _) =>
        out := CheckExprPanics(receiver, fnName, out);
        out := CheckExprsPanics(args, fnName, out);
        rest := ReachExpr(receiver) + ReachExprs(args);
        IssuesAtConcat(ReachExpr(receiver), ReachExprs(args), fnName);
        AppendAssoc(issues + here, IssuesAt(ReachExpr(receiver), fnName), IssuesAt(ReachExprs(args), fnName));
      case Call(_, args, _) =>
        out := CheckExprsPanics(args, fnName, out);
        rest := ReachExprs(args);
      case BlockExpr(b) =>
        out := CheckFnPanics(b.stmts, fnName, out);
        rest := ReachStmts(b.stmts);
      case If(cond, thenBranch, elseBranch) =>
        out := CheckExprPanics(cond, fnName, out);
        out := CheckFnPanics(thenBranch.stmts, fnName, out);
        if elseBranch.Some? {
          out := CheckExprPanics(elseBranch.value, fnName, out);
        }
        var c, t, o := ReachExpr(cond), ReachStmts(thenBranch.stmts), ReachOpt(elseBranch);
        rest := c + t + o;
        IssuesAtConcat(c + t, o, fnName);
        IssuesAtConcat(c, t, fnName);
        AppendAssoc(issues + here, IssuesAt(c, fnName), IssuesAt(t, fnName));
        AppendAssoc(issues + here, IssuesAt(c + t, fnName), IssuesAt(o, fnName));
      case Match(scrutinee, arms) =>
        out := CheckExprPanics(scrutinee, fnName, out);
        out := CheckArmsPanics(arms, fnName, out);
        rest := ReachExpr(scrutinee) + ReachArms(arms);
        IssuesAtConcat(ReachExpr(scrutinee), ReachArms(arms), fnName);
        AppendAssoc(issues + here, IssuesAt(ReachExpr(scrutinee), fnName), IssuesAt(ReachArms(arms), fnName));
      case _ =>
        rest := [];
        assert issues + here + IssuesAt(rest, fnName) == out;
    }
    assert ReachExpr(e) == own + rest;
    assert out == issues + here + IssuesAt(rest, fnName);
    IssuesAtConcat(own, rest, fnName);
    AppendAssoc(issues, here, IssuesAt(rest, fnName));
  }

  method CheckExprsPanics(es: seq<Expr>, fnName: string, issues: seq<PanicIssue>) returns (out: seq<PanicIssue>)
    ensures out == issues + IssuesAt(ReachExprs(es), fnName)
    decreases es
  {
    out := issues;
    for i := 0 to |es|
      invariant out == issues + IssuesAt(ReachExprs(es[..i]), fnName)
    {
      assert es[..i + 1][..i] == es[..i];
      out := CheckExprPanics(es[i], fnName, out);
      IssuesAtConcat(ReachExprs(es[..i]), ReachExpr(es[i]), fnName);
      AppendAssoc(issues, IssuesAt(ReachExprs(es[..i]), fnName), IssuesAt(ReachExpr(es[i]), fnName));
    }
    assert es[..|es|] == es;
  }

  method CheckArmsPanics(arms: seq<Arm>, fnName: string, issues: seq<PanicIssue>) returns (out: seq<PanicIssue>)
    ensures out == issues + IssuesAt(ReachArms(arms), fnName)
    decreases arms
  {
    out := issues;
    for i := 0 to |arms|
      invariant out == issues + IssuesAt(ReachArms(arms[..i]), fnName)
    {
      assert arms[..i + 1][..i] == arms[..i];
      out := CheckArmPanics(arms[i], fnName, out);
      IssuesAtConcat(ReachArms(arms[..i]), ReachArm(arms[i]), fnName);
      AppendAssoc(issues, IssuesAt(ReachArms(arms[..i]), fnName), IssuesAt(ReachArm(arms[i]), fnName));
    }
    assert arms[..|arms|] == arms;
  }

  method CheckArmPanics(a: Arm, fnName: string, issues: seq<PanicIssue>) returns (out: seq<PanicIssue>)
    ensures out == issues + IssuesAt(ReachArm(a), fnName)
    decreases a
  {
    out := CheckExprPanics(a.armBody, fnName, issues);
  }

  /** `check_fn_panics`: `issues` extended with what the statements of a block raise. */
  method CheckFnPanics(stmts: seq<Stmt>, fnName: string, issues: seq<PanicIssue>) returns (out: seq<PanicIssue>)
    ensures out == issues + IssuesAt(ReachStmts(stmts), fnName)
    decreases stmts
  {
    out := issues;
    for i := 0 to |stmts|
      invariant out == issues + IssuesAt(ReachStmts(stmts[..i]), fnName)
    {
      assert stmts[..i + 1][..i] == stmts[..i];
      out := CheckStmtPanics(stmts[i], fnName, out);
      IssuesAtConcat(ReachStmts(stmts[..i]), ReachStmt(stmts[i]), fnName);
      AppendAssoc(issues, IssuesAt(ReachStmts(stmts[..i]), fnName), IssuesAt(ReachStmt(stmts[i]), fnName));
    }
    assert stmts[..|stmts|] == stmts;
  }

  /** One iteration of the loop in `check_fn_panics`. */
  method CheckStmtPanics(s: Stmt, fnName: string, issues: seq<PanicIssue>) returns (out: seq<PanicIssue>)
    ensures out == issues + IssuesAt(ReachStmt(s), fnName)
    decreases s
  {
    var own := [S(s)];
    var here := IssuesAt(own, fnName);
    assert own[..0] == [];
    out := issues + here;
    var rest: seq<Node>;
    match s {
      case ExprStmt(e) =>
        out := CheckExprPanics(e, fnName, out);
        rest := ReachExpr(e);
      case Local(_, init, _) =>
        if init.Some? {
          out := CheckExprPanics(init.value, fnName, out);
        }
        rest := ReachOpt(init);
      case MacroStmt(_) =>
        rest := [];
        assert issues + here + IssuesAt(rest, fnName) == out;
      case ItemStmt(_) =>
        rest := [];
        assert issues + here + IssuesAt(rest, fnName) == out;
    }
    assert ReachStmt(s) == own + rest;
    assert out == issues + here + IssuesAt(rest, fnName);
    IssuesAtConcat(own, rest, fnName);
    AppendAssoc(issues, here, IssuesAt(rest, fnName));
  }

  // ---------------------------------------------------------------------
  // The file scan

  /** The issues of the functions of one impl block, public or not, in order. */
  function ImplPanics(ms: seq<ImplItem>): (r: seq<PanicIssue>)
    ensures |r| == |PanicSites(ImplReach(ms))|
    ensures forall i :: 0 <= i < |r| ==>
      r[i].functionName == r[i].location && r[i].issueType in {"panic!", "unwrap", "expect"}
  {
    if ms == [] then []
    else
      var m := ms[|ms| - 1];
      var front := ms[..|ms| - 1];
      var own := if m.ImplFn? then IssuesAt(ReachStmts(m.f.body.stmts), m.f.name) else [];
      PanicSitesConcat(ImplReach(front), if m.ImplFn? then ReachStmts(m.f.body.stmts) else []);
      ImplPanics(front) + own
  }

  /** The issues of a file: free functions and everything outside impl blocks are not scanned. */
  function FilePanics(items: seq<Item>): (r: seq<PanicIssue>)
    ensures |r| == |PanicSites(FileReach(items))|
    ensures forall i :: 0 <= i < |r| ==>
      r[i].functionName == r[i].location && r[i].issueType in {"panic!", "unwrap", "expect"}
  {
    if items == [] then []
    else
      var item := items[|items| - 1];
      var front := items[..|items| - 1];
      var own := if item.Impl? then ImplPanics(item.implItems) else [];
      PanicSitesConcat(FileReach(front), if item.Impl? then ImplReach(item.implItems) else []);
      FilePanics(front) + own
  }

  /** `scan_panics`: `file` is the parse result, `None` when the source does not parse. */
  method ScanPanics(file: Option<File>) returns (issues: seq<PanicIssue>)
    ensures file.None? ==> issues == []
    ensures file.Some? ==> issues == FilePanics(file.value.items)
  {
    issues := [];
    if file.None? {
      return;
    }
    var items := file.value.items;
    for i := 0 to |items|
      invariant issues == FilePanics(items[..i])
    {
      assert items[..i + 1][..i] == items[..i];
      if items[i].Impl? {
        issues := CheckImplPanics(items[i].implItems, issues);
      }
    }
    assert items[..|items|] == items;
  }

  /** The inner loop of `scan_panics`: every function of one impl block, public or not, in order. */
  method CheckImplPanics(ms: seq<ImplItem>, issues: seq<PanicIssue>) returns (out: seq<PanicIssue>)
    ensures out == issues + ImplPanics(ms)
  {
    out := issues;
    for j := 0 to |ms|
      invariant out == issues + ImplPanics(ms[..j])
    {
      assert ms[..j + 1][..j] == ms[..j];
      if ms[j].ImplFn? {
        var f := ms[j].f;
        out := CheckFnPanics(f.body.stmts, f.name, out);
        AppendAssoc(issues, ImplPanics(ms[..j]), IssuesAt(ReachStmts(f.body.stmts), f.name));
      }
    }
    assert ms[..|ms|] == ms;
  }

  // ---------------------------------------------------------------------
  // Properties

  /** A file with no impl blocks has no panic issues, whatever its free functions contain. */
  lemma {:induction false} NoImplNoIssues(items: seq<Item>)
    requires forall i :: 0 <= i < |items| ==> !items[i].Impl?
    ensures FilePanics(items) == []
  {
    if items != [] {
      NoImplNoIssues(items[..|items| - 1]);
    }
  }

  /** Appending a function to an impl block appends exactly its own issues: nothing is merged. */
  lemma ImplPanicsAppend(ms: seq<ImplItem>, f: FnDecl)
    ensures ImplPanics(ms + [ImplFn(f)]) == ImplPanics(ms) + IssuesAt(ReachStmts(f.body.stmts), f.name)
  {
    assert (ms + [ImplFn(f)])[..|ms|] == ms;
  }

  /** A body that is a single `panic!` statement raises exactly one issue. */
  lemma PanicBody(p: MacroCall, fnName: string)
    requires IsPanicMacro(p)
    ensures IssuesAt(ReachStmts([MacroStmt(p)]), fnName) == [PanicIssue(fnName, "panic!", fnName)]
  {
    var s1 := [MacroStmt(p)];
    var n := S(MacroStmt(p));
    assert s1[..0] == [];
    assert ReachStmt(MacroStmt(p)) == [n];
    assert ReachStmts(s1) == ReachStmts([]) + [n];
    assert [n][..0] == [];
    assert PanicKind(n) == Some("panic!");
    assert IssuesAt([n], fnName) == IssuesAt([], fnName) + [PanicIssue(fnName, "panic!", fnName)];
  }

  /** `let x: T = None;` raises nothing. */
  lemma LetNoneQuiet(xTy: Type, none: Expr, fnName: string)
    requires none.Path?
    ensures IssuesAt(ReachStmt(Local(Some(xTy), Some(none))), fnName) == []
  {
    var letNone := Local(Some(xTy), Some(none));
    assert ReachExpr(none) == [E(none)];
    assert ReachOpt(Some(none)) == [E(none)];
    assert ReachStmt(letNone) == [S(letNone), E(none)];
    assert [S(letNone), E(none)][..1] == [S(letNone)];
    assert [S(letNone)][..0] == [];
  }

  /** `let _ = x.unwrap();` raises exactly one `unwrap` issue. */
  lemma UnwrapLet(t: string, fnName: string)
    ensures IssuesAt(ReachStmt(Local(None, Some(MethodCall(Path(["x"]), "unwrap", [], t)))), fnName)
      == [PanicIssue(fnName, "unwrap", fnName)]
  {
    var call := MethodCall(Path(["x"]), "unwrap", [], t);
    var letX := Local(None, Some(call));
    assert ReachExpr(Path(["x"])) == [E(Path(["x"]))];
    assert ReachExpr(call) == [E(call), E(Path(["x"]))];
    var r := [S(letX), E(call), E(Path(["x"]))];
    assert ReachStmt(letX) == r;
    assert r[..2] == [S(letX), E(call)];
    assert r[..2][..1] == [S(letX)];
    assert [S(letX)][..0] == [];
    assert PanicKind(E(Path(["x"]))) == None;
    assert PanicKind(E(call)) == Some("unwrap") && PanicKind(S(letX)) == None;
    assert IssuesAt([S(letX)], fnName) == [];
    assert IssuesAt(r[..2], fnName) == [PanicIssue(fnName, "unwrap", fnName)];
  }

  /** `let x: T = None; x.unwrap()` raises exactly one `unwrap` issue. */
  lemma UnwrapBody(xTy: Type, none: Expr, t: string, fnName: string)
    requires none.Path?
    ensures IssuesAt(ReachStmts([Local(Some(xTy), Some(none)), Local(None, Some(MethodCall(Path(["x"]), "unwrap", [], t)))]), fnName)
      == [PanicIssue(fnName, "unwrap", fnName)]
  {
    var letNone := Local(Some(xTy), Some(none));
    var letX := Local(None, Some(MethodCall(Path(["x"]), "unwrap", [], t)));
    var s2 := [letNone, letX];
    LetNoneQuiet(xTy, none, fnName);
    UnwrapLet(t, fnName);
    assert s2[..1] == [letNone] && [letNone][..0] == [];
    assert ReachStmts([letNone]) == ReachStmts([]) + ReachStmt(letNone);
    assert ReachStmts(s2) == ReachStmts([letNone]) + ReachStmt(letX);
    assert ReachStmts(s2) == ReachStmt(letNone) + ReachStmt(letX);
    IssuesAtConcat(ReachStmt(letNone), ReachStmt(letX), fnName);
  }

  /** `let _ = x.expect(msg);` raises exactly one `expect` issue; the message literal raises none. */
  lemma ExpectLet(msg: Expr, t: string, fnName: string)
    requires msg.Lit?
    ensures IssuesAt(ReachStmt(Local(None, Some(MethodCall(Path(["x"]), "expect", [msg], t)))), fnName)
      == [PanicIssue(fnName, "expect", fnName)]
  {
    var call := MethodCall(Path(["x"]), "expect", [msg], t);
    var letX := Local(None, Some(call));
    assert [msg][..0] == [];
    assert ReachExpr(msg) == [E(msg)];
    assert ReachExprs([msg]) == ReachExprs([]) + ReachExpr(msg);
    assert ReachExpr(Path(["x"])) == [E(Path(["x"]))];
    assert ReachExpr(call) == [E(call), E(Path(["x"])), E(msg)];
    var r := [S(letX), E(call), E(Path(["x"])), E(msg)];
    assert ReachStmt(letX) == r;
    assert r[..3] == [S(letX), E(call), E(Path(["x"]))];
    assert r[..3][..2] == [S(letX), E(call)];
    assert r[..3][..2][..1] == [S(letX)];
    assert [S(letX)][..0] == [];
    assert PanicKind(E(msg)) == None && PanicKind(E(Path(["x"]))) == None;
    assert PanicKind(E(call)) == Some("expect") && PanicKind(S(letX)) == None;
    assert IssuesAt([S(letX)], fnName) == [];
    assert IssuesAt(r[..2], fnName) == [PanicIssue(fnName, "expect", fnName)];
    assert IssuesAt(r[..3], fnName) == IssuesAt(r[..2], fnName);
  }

  /** `let x: T = None; x.expect(msg)` raises exactly one `expect` issue. */
  lemma ExpectBody(xTy: Type, none: Expr, msg: Expr, t: string, fnName: string)
    requires none.Path? && msg.Lit?
    ensures IssuesAt(ReachStmts([Local(Some(xTy), Some(none)), Local(None, Some(MethodCall(Path(["x"]), "expect", [msg], t)))]), fnName)
      == [PanicIssue(fnName, "expect", fnName)]
  {
    var letNone := Local(Some(xTy), Some(none));
    var letX := Local(None, Some(MethodCall(Path(["x"]), "expect", [msg], t)));
    var s3 := [letNone, letX];
    LetNoneQuiet(xTy, none, fnName);
    ExpectLet(msg, t, fnName);
    assert s3[..1] == [letNone] && [letNone][..0] == [];
    assert ReachStmts([letNone]) == ReachStmts([]) + ReachStmt(letNone);
    assert ReachStmts(s3) == ReachStmts([letNone]) + ReachStmt(letX);
    assert ReachStmts(s3) == ReachStmt(letNone) + ReachStmt(letX);
    IssuesAtConcat(ReachStmt(letNone), ReachStmt(letX), fnName);
  }

  /** A body returning `Ok(())` raises nothing: neither the call nor its unit argument `()`. */
  lemma OkBodyQuiet(okCall: Expr, fnName: string)
    requires okCall.Call? && okCall.args == [OtherExpr([])]
    ensures IssuesAt(ReachStmts([ExprStmt(okCall)]), fnName) == []
  {
    var unit := OtherExpr([]);
    var st := ExprStmt(okCall);
    var s4 := [st];
    assert ReachExpr(unit) == [E(unit)];
    assert ReachExprs([unit]) == [E(unit)] by {
      assert [unit][..0] == [];
      assert ReachExprs([unit]) == ReachExprs([]) + ReachExpr(unit);
    }
    assert ReachExpr(okCall) == [E(okCall), E(unit)];
    var r := [S(st), E(okCall), E(unit)];
    assert ReachStmt(st) == r;
    assert ReachStmts(s4) == r by {
      assert s4[..0] == [];
      assert ReachStmts(s4) == ReachStmts([]) + ReachStmt(st);
    }
    assert r[..2] == [S(st), E(okCall)];
    assert r[..2][..1] == [S(st)];
    assert [S(st)][..0] == [];
    assert PanicKind(S(st)) == None && PanicKind(E(okCall)) == None && PanicKind(E(unit)) == None;
    assert IssuesAt([S(st)], fnName) == [];
    assert IssuesAt(r[..2], fnName) == [];
  }

  /**
   * The three offending functions of the panic test each raise one issue of
   * their own kind, in declaration order; the function returning `Ok(())`
   * raises none.
   */
  lemma ThreeKindsExample(f1: FnDecl, f2: FnDecl, f3: FnDecl, f4: FnDecl,
                          xTy: Type, none: Expr, msg: Expr, okCall: Expr, p: MacroCall, t1: string, t2: string)
    requires IsPanicMacro(p) && none.Path? && msg.Lit? && okCall.Call? && okCall.args == [OtherExpr([])]
    requires f1.name == "unsafe_fn" && f1.body == Block([MacroStmt(p)])
    requires f2.name == "unsafe_unwrap" &&
      f2.body == Block([Local(Some(xTy), Some(none)), Local(None, Some(MethodCall(Path(["x"]), "unwrap", [], t1)))])
    requires f3.name == "unsafe_expect" &&
      f3.body == Block([Local(Some(xTy), Some(none)), Local(None, Some(MethodCall(Path(["x"]), "expect", [msg], t2)))])
    requires f4.name == "safe_fn" && f4.body == Block([ExprStmt(okCall)])
    ensures FilePanics([Impl([ImplFn(f1), ImplFn(f2), ImplFn(f3), ImplFn(f4)])])
      == [PanicIssue("unsafe_fn", "panic!", "unsafe_fn"),
          PanicIssue("unsafe_unwrap", "unwrap", "unsafe_unwrap"),
          PanicIssue("unsafe_expect", "expect", "unsafe_expect")]
  {
    PanicBody(p, f1.name);
    UnwrapBody(xTy, none, t1, f2.name);
    ExpectBody(xTy, none, msg, t2, f3.name);
    OkBodyQuiet(okCall, f4.name);
    var ms := [ImplFn(f1), ImplFn(f2), ImplFn(f3), ImplFn(f4)];
    assert ms[..3] == [ImplFn(f1), ImplFn(f2), ImplFn(f3)];
    assert ms[..3][..2] == [ImplFn(f1), ImplFn(f2)];
    assert ms[..3][..2][..1] == [ImplFn(f1)];
    assert [ImplFn(f1)][..0] == [];
    assert ImplPanics([ImplFn(f1)]) == [PanicIssue("unsafe_fn", "panic!", "unsafe_fn")];
    assert ImplPanics(ms[..2]) == [PanicIssue("unsafe_fn", "panic!", "unsafe_fn"),
                                   PanicIssue("unsafe_unwrap", "unwrap", "unsafe_unwrap")];
    assert ImplPanics(ms[..3]) == [PanicIssue("unsafe_fn", "panic!", "unsafe_fn"),
                                   PanicIssue("unsafe_unwrap", "unwrap", "unsafe_unwrap"),
                                   PanicIssue("unsafe_expect", "expect", "unsafe_expect")];
    assert ImplPanics(ms) == [PanicIssue("unsafe_fn", "panic!", "unsafe_fn"),
                              PanicIssue("unsafe_unwrap", "unwrap", "unsafe_unwrap"),
                              PanicIssue("unsafe_expect", "expect", "unsafe_expect")];
    assert [Impl(ms)][..0] == [];
  }
}
