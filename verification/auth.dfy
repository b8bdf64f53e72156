// Authorization-gap detection (tooling/sanctifier-core/src/lib.rs): a public
// contract function that writes to storage without ever requiring
// authorization. Two flags are threaded through the hand-written descent of
// scan.dfy; a function is reported when the mutation flag ends up set and
// the authorization flag does not.

module AuthGaps {
  import opened Results
  import opened Syntax
  import opened Walk
  import opened ScanWalk
  import opened Text

  predicate IsAuthName(name: string)
  {
    name == "require_auth" || name == "require_auth_for_args"
  }

  predicate IsStorageWrite(methodName: string)
  {
    methodName == "set" || methodName == "update" || methodName == "remove"
  }

  /**
   * The string the storage test runs over: the rendering of the whole
   * method call followed by the tokens `. receiver`.
   */
  function ReceiverRendering(callText: string): string
  {
    callText + " . receiver"
  }

  predicate MentionsStorage(text: string)
  {
    Contains(text, "storage") || Contains(text, "persistent") ||
    Contains(text, "temporary") || Contains(text, "instance")
  }

  /** The node on its own sets `has_mutation`. */
  predicate SetsMutation(n: Node)
  {
    n.E? && n.e.MethodCall? && IsStorageWrite(n.e.methodName) &&
    MentionsStorage(ReceiverRendering(n.e.text))
  }

  /** A call whose callee is a path ending in an authorization function. */
  predicate IsAuthCall(e: Expr)
  {
    e.Call? && e.func.Path? && |e.func.path| > 0 && IsAuthName(e.func.path[|e.func.path| - 1])
  }

  /** The node on its own sets `has_auth`. */
  predicate SetsAuth(n: Node)
  {
    (n.E? && (IsAuthCall(n.e) || (n.e.MethodCall? && IsAuthName(n.e.methodName)))) ||
    (n.S? && n.s.MacroStmt? &&
      (IsIdent(n.s.mac.path, "require_auth") || IsIdent(n.s.mac.path, "require_auth_for_args")))
  }

  predicate AnyMutation(ns: seq<Node>)
  {
    exists i :: 0 <= i < |ns| && SetsMutation(ns[i])
  }

  predicate AnyAuth(ns: seq<Node>)
  {
    exists i :: 0 <= i < |ns| && SetsAuth(ns[i])
  }

  lemma AnyConcat(a: seq<Node>, b: seq<Node>)
    ensures AnyMutation(a + b) <==> AnyMutation(a) || AnyMutation(b)
    ensures AnyAuth(a + b) <==> AnyAuth(a) || AnyAuth(b)
  {
    if AnyMutation(a + b) {
      var i :| 0 <= i < |a + b| && SetsMutation((a + b)[i]);
      if i >= |a| {
        assert b[i - |a|] == (a + b)[i];
      }
    }
    if AnyMutation(b) {
      var i :| 0 <= i < |b| && SetsMutation(b[i]);
      assert (a + b)[|a| + i] == b[i];
    }
    if AnyAuth(a + b) {
      var i :| 0 <= i < |a + b| && SetsAuth((a + b)[i]);
      if i >= |a| {
        assert b[i - |a|] == (a + b)[i];
      }
    }
    if AnyAuth(b) {
      var i :| 0 <= i < |b| && SetsAuth(b[i]);
      assert (a + b)[|a| + i] == b[i];
    }
    if AnyMutation(a) {
      var i :| 0 <= i < |a| && SetsMutation(a[i]);
      assert (a + b)[i] == a[i];
    }
    if AnyAuth(a) {
      var i :| 0 <= i < |a| && SetsAuth(a[i]);
      assert (a + b)[i] == a[i];
    }
  }

  // ---------------------------------------------------------------------
  // The descent, with the two flags passed in and out

  /** `check_expr`: the flags after scanning `e`; a flag once set stays set. */
  method CheckExpr(e: Expr, hasMutation: bool, hasAuth: bool) returns (mutation: bool, auth: bool)
    ensures mutation == (hasMutation || AnyMutation(ReachExpr(e)))
    ensures auth == (hasAuth || AnyAuth(ReachExpr(e)))
    decreases e
  {
    mutation, auth := hasMutation, hasAuth;
    var own := [E(e)];
    assert own[0] == E(e);
    assert SetsMutation(E(e)) <==> AnyMutation(own);
    assert SetsAuth(E(e)) <==> AnyAuth(own);
    match e {
      case Call(func, args, _) =>
        if IsAuthCall(e) {
          auth := true;
        }
        mutation, auth := CheckExprs(args, mutation, auth);
        AnyConcat(own, ReachExprs(args));
      case MethodCall(receiver, methodName, args, text) =>
        if IsStorageWrite(methodName) && MentionsStorage(ReceiverRendering(text)) {
          mutation := true;
        }
        if IsAuthName(methodName) {
          auth := true;
        }
        mutation, auth := CheckExpr(receiver, mutation, auth);
        mutation, auth := CheckExprs(args, mutation, auth);
        AnyConcat(own, ReachExpr(receiver) + ReachExprs(args));
        AnyConcat(ReachExpr(receiver), ReachExprs(args));
      case BlockExpr(b) =>
        mutation, auth := CheckFnBody(b.stmts, mutation, auth);
        AnyConcat(own, ReachStmts(b.stmts));
      case If(cond, thenBranch, elseBranch) =>
        mutation, auth := CheckExpr(cond, mutation, auth);
        mutation, auth := CheckFnBody(thenBranch.stmts, mutation, auth);
        if elseBranch.Some? {
          mutation, auth := CheckExpr(elseBranch.value, mutation, auth);
        }
        AnyConcat(own, ReachExpr(cond) + ReachStmts(thenBranch.stmts) + ReachOpt(elseBranch));
        AnyConcat(ReachExpr(cond) + ReachStmts(thenBranch.stmts), ReachOpt(elseBranch));
        AnyConcat(ReachExpr(cond), ReachStmts(thenBranch.stmts));
      case Match(scrutinee, arms) =>
        mutation, auth := CheckExpr(scrutinee, mutation, auth);
        mutation, auth := CheckArms(arms, mutation, auth);
        AnyConcat(own, ReachExpr(scrutinee) + ReachArms(arms));
        AnyConcat(ReachExpr(scrutinee), ReachArms(arms));
      case _ =>
        assert ReachExpr(e) == own;
    }
  }

  /** The `for arg in args` loops of `check_expr`. */
  method CheckExprs(es: seq<Expr>, hasMutation: bool, hasAuth: bool) returns (mutation: bool, auth: bool)
    ensures mutation == (hasMutation || AnyMutation(ReachExprs(es)))
    ensures auth == (hasAuth || AnyAuth(ReachExprs(es)))
    decreases es
  {
    mutation, auth := hasMutation, hasAuth;
    for i := 0 to |es|
      invariant mutation == (hasMutation || AnyMutation(ReachExprs(es[..i])))
      invariant auth == (hasAuth || AnyAuth(ReachExprs(es[..i])))
    {
      assert es[..i + 1][..i] == es[..i];
      mutation, auth := CheckExpr(es[i], mutation, auth);
      AnyConcat(ReachExprs(es[..i]), ReachExpr(es[i]));
    }
    assert es[..|es|] == es;
  }

  /** The loop over the arms of a `match`: only arm bodies are scanned. */
  method CheckArms(arms: seq<Arm>, hasMutation: bool, hasAuth: bool) returns (mutation: bool, auth: bool)
    ensures mutation == (hasMutation || AnyMutation(ReachArms(arms)))
    ensures auth == (hasAuth || AnyAuth(ReachArms(arms)))
    decreases arms
  {
    mutation, auth := hasMutation, hasAuth;
    for i := 0 to |arms|
      invariant mutation == (hasMutation || AnyMutation(ReachArms(arms[..i])))
      invariant auth == (hasAuth || AnyAuth(ReachArms(arms[..i])))
    {
      assert arms[..i + 1][..i] == arms[..i];
      mutation, auth := CheckArm(arms[i], mutation, auth);
      AnyConcat(ReachArms(arms[..i]), ReachArm(arms[i]));
    }
    assert arms[..|arms|] == arms;
  }

  method CheckArm(a: Arm, hasMutation: bool, hasAuth: bool) returns (mutation: bool, auth: bool)
    ensures mutation == (hasMutation || AnyMutation(ReachArm(a)))
    ensures auth == (hasAuth || AnyAuth(ReachArm(a)))
    decreases a
  {
    mutation, auth := CheckExpr(a.armBody, hasMutation, hasAuth);
  }

  /** `check_fn_body`: the flags after scanning the statements of a block. */
  method CheckFnBody(stmts: seq<Stmt>, hasMutation: bool, hasAuth: bool) returns (mutation: bool, auth: bool)
    ensures mutation == (hasMutation || AnyMutation(ReachStmts(stmts)))
    ensures auth == (hasAuth || AnyAuth(ReachStmts(stmts)))
    decreases stmts
  {
    mutation, auth := hasMutation, hasAuth;
    for i := 0 to |stmts|
      invariant mutation == (hasMutation || AnyMutation(ReachStmts(stmts[..i])))
      invariant auth == (hasAuth || AnyAuth(ReachStmts(stmts[..i])))
    {
      assert stmts[..i + 1][..i] == stmts[..i];
      var s := stmts[i];
      mutation, auth := CheckStmt(s, mutation, auth);
      AnyConcat(ReachStmts(stmts[..i]), ReachStmt(s));
    }
    assert stmts[..|stmts|] == stmts;
  }

  /** One iteration of the loop in `check_fn_body`. */
  method CheckStmt(s: Stmt, hasMutation: bool, hasAuth: bool) returns (mutation: bool, auth: bool)
    ensures mutation == (hasMutation || AnyMutation(ReachStmt(s)))
    ensures auth == (hasAuth || AnyAuth(ReachStmt(s)))
    decreases s
  {
    mutation, auth := hasMutation, hasAuth;
    var own := [S(s)];
    assert own[0] == S(s);
    assert SetsMutation(S(s)) <==> AnyMutation(own);
    assert SetsAuth(S(s)) <==> AnyAuth(own);
    match s {
      case ExprStmt(e) =>
        mutation, auth := CheckExpr(e, mutation, auth);
        AnyConcat(own, ReachExpr(e));
      case Local(_, init, _) =>
        if init.Some? {
          mutation, auth := CheckExpr(init.value, mutation, auth);
        }
        AnyConcat(own, ReachOpt(init));
      case MacroStmt(m) =>
        if IsIdent(m.path, "require_auth") || IsIdent(m.path, "require_auth_for_args") {
          auth := true;
        }
        assert ReachStmt(s) == own;
      case ItemStmt(_) =>
        assert ReachStmt(s) == own;
    }
  }

  // ---------------------------------------------------------------------
  // The file scan

  /** A function whose body writes to storage and never requires authorization. */
  predicate HasGap(f: FnDecl)
  {
    AnyMutation(ReachStmts(f.body.stmts)) && !AnyAuth(ReachStmts(f.body.stmts))
  }

  /** The reported names among the members of one impl block, in order. */
  function ImplGaps(ms: seq<ImplItem>): seq<string>
  {
    if ms == [] then []
    else
      var m := ms[|ms| - 1];
      ImplGaps(ms[..|ms| - 1]) + (if m.ImplFn? && m.f.isPub && HasGap(m.f) then [m.f.name] else [])
  }

  /** The reported names for the top-level items: only impl blocks are looked into. */
  function FileGaps(items: seq<Item>): seq<string>
  {
    if items == [] then []
    else
      var item := items[|items| - 1];
      FileGaps(items[..|items| - 1]) + (if item.Impl? then ImplGaps(item.implItems) else [])
  }

  /** `scan_auth_gaps`: `file` is the parse result, `None` when the source does not parse. */
  method ScanAuthGaps(file: Option<File>) returns (gaps: seq<string>)
    ensures file.None? ==> gaps == []
    ensures file.Some? ==> gaps == FileGaps(file.value.items)
  {
    gaps := [];
    if file.None? {
      return;
    }
    var items := file.value.items;
    for i := 0 to |items|
      invariant gaps == FileGaps(items[..i])
    {
      assert items[..i + 1][..i] == items[..i];
      if items[i].Impl? {
        var ms := items[i].implItems;
        var found := [];
        for j := 0 to |ms|
          invariant found == ImplGaps(ms[..j])
        {
          assert ms[..j + 1][..j] == ms[..j];
          if ms[j].ImplFn? && ms[j].f.isPub {
            var f := ms[j].f;
            var hasMutation, hasAuth := CheckFnBody(f.body.stmts, false, false);
            if hasMutation && !hasAuth {
              found := found + [f.name];
            }
          }
        }
        assert ms[..|ms|] == ms;
        gaps := gaps + found;
      }
    }
    assert items[..|items|] == items;
  }

  // ---------------------------------------------------------------------
  // Properties

  /** A public impl function is reported exactly when it has a gap; nothing else is. */
  lemma {:induction false} ImplGapsIff(ms: seq<ImplItem>, name: string)
    ensures name in ImplGaps(ms) <==>
      exists j :: 0 <= j < |ms| && ms[j].ImplFn? && ms[j].f.isPub && HasGap(ms[j].f) && ms[j].f.name == name
  {
    if ms != [] {
      var k := |ms| - 1;
      ImplGapsIff(ms[..k], name);
      assert forall j :: 0 <= j < k ==> ms[..k][j] == ms[j];
    }
  }

  lemma {:induction false} FileGapsIff(items: seq<Item>, name: string)
    ensures name in FileGaps(items) <==>
      exists i :: 0 <= i < |items| && items[i].Impl? && name in ImplGaps(items[i].implItems)
  {
    if items != [] {
      var k := |items| - 1;
      FileGapsIff(items[..k], name);
      assert forall i :: 0 <= i < k ==> items[..k][i] == items[i];
    }
  }

  /** One entry per reporting function: the scan never lists more names than there are members. */
  lemma {:induction false} ImplGapsAtMostMembers(ms: seq<ImplItem>)
    ensures |ImplGaps(ms)| <= |ms|
  {
    if ms != [] {
      ImplGapsAtMostMembers(ms[..|ms| - 1]);
    }
  }

  /**
   * A `require_auth` call or `require_auth!` statement placed anywhere among
   * a function's top-level statements keeps it from being reported.
   */
  lemma AuthStatementSuppresses(f: FnDecl, before: seq<Stmt>, authStmt: Stmt, after: seq<Stmt>)
    requires f.body.stmts == before + [authStmt] + after
    requires SetsAuth(S(authStmt)) || (authStmt.ExprStmt? && SetsAuth(E(authStmt.expr)))
    ensures !HasGap(f)
  {
    var pre := before + [authStmt];
    ReachStmtsConcat(pre, after);
    ReachStmtsConcat(before, [authStmt]);
    assert [authStmt][..0] == [];
    assert ReachStmts([authStmt]) == ReachStmt(authStmt);
    var r := ReachStmt(authStmt);
    assert r[0] == S(authStmt);
    if authStmt.ExprStmt? && SetsAuth(E(authStmt.expr)) {
      assert ReachExpr(authStmt.expr)[0] == E(authStmt.expr);
      assert r[1] == E(authStmt.expr);
    }
    assert AnyAuth(r);
    AnyConcat(ReachStmts(before), r);
    assert AnyAuth(ReachStmts(pre));
    AnyConcat(ReachStmts(pre), ReachStmts(after));
    assert AnyAuth(ReachStmts(f.body.stmts));
  }

  /** A function that is not `pub` is never reported, whatever its body does. */
  lemma PrivateNeverReported(ms: seq<ImplItem>, name: string)
    requires forall j :: 0 <= j < |ms| && ms[j].ImplFn? ==> !ms[j].f.isPub
    ensures ImplGaps(ms) == []
  {
    if ImplGaps(ms) != [] {
      ImplGapsIff(ms, ImplGaps(ms)[0]);
      assert false;
    }
  }

  /** The scan meets the statement, the call, the receiver and the argument, in that order. */
  lemma CacheSetReach(text: string)
    ensures var call := MethodCall(Path(["cache"]), "set", [Path(["storage_key"])], text);
      ReachStmts([ExprStmt(call)]) == [S(ExprStmt(call)), E(call), E(Path(["cache"])), E(Path(["storage_key"]))]
  {
    var call := MethodCall(Path(["cache"]), "set", [Path(["storage_key"])], text);
    var ss := [ExprStmt(call)];
    assert ReachStmts(ss) == ReachStmt(ExprStmt(call)) by {
      assert ss[..0] == [] && ss[0] == ExprStmt(call);
    }
    assert ReachExpr(Path(["cache"])) == [E(Path(["cache"]))];
    assert ReachExprs([Path(["storage_key"])]) == [E(Path(["storage_key"]))] by {
      assert [Path(["storage_key"])][..0] == [];
      assert ReachExpr(Path(["storage_key"])) == [E(Path(["storage_key"]))];
    }
    assert ReachExpr(call) == [E(call)] + ReachExpr(Path(["cache"])) + ReachExprs([Path(["storage_key"])]);
  }

  /**
   * The storage test runs over the whole call, arguments included: a
   * `set` on a local map whose argument mentions `storage` counts as a
   * storage write even though the receiver `cache` does not.
   */
  lemma ArgumentTextCountsAsMutation(f: FnDecl, text: string)
    requires Contains(text, "storage")
    requires f.body.stmts == [ExprStmt(MethodCall(Path(["cache"]), "set", [Path(["storage_key"])], text))]
    ensures HasGap(f)
    ensures !MentionsStorage("cache")
  {
    var call := MethodCall(Path(["cache"]), "set", [Path(["storage_key"])], text);
    var r := ReachStmts(f.body.stmts);
    assert r == [S(ExprStmt(call)), E(call), E(Path(["cache"])), E(Path(["storage_key"]))] by {
      CacheSetReach(text);
    }
    assert SetsMutation(r[1]) by {
      ContainsAppend(text, " . receiver", "storage");
    }
    assert !AnyAuth(r);
    assert !MentionsStorage("cache") by {
      MissingFirstChar("cache", "storage");
      MissingFirstChar("cache", "persistent");
      MissingFirstChar("cache", "temporary");
      MissingFirstChar("cache", "instance");
    }
  }
}
