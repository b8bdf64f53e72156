// Unchecked-arithmetic detection (tooling/sanctifier-core/src/lib.rs,
// `scan_arithmetic_overflow` and `ArithVisitor`): the default traversal of
// the whole file, remembering the innermost enclosing function, flagging the
// overflow-prone binary operators whose operands are not string literals,
// and reporting each (function name, operator) pair at most once.

module ArithOverflow {
  import opened Results
  import opened Syntax
  import opened Walk
  import opened Text

  datatype ArithmeticIssue = ArithmeticIssue(functionName: string, operation: string, suggestion: string, location: string)

  /** The six operators that can overflow. */
  datatype ArithOp = OpAdd | OpSub | OpMul | OpAddAssign | OpSubAssign | OpMulAssign

  const SixOps: set<string> := {"+", "-", "*", "+=", "-=", "*="}

  /** The operator text of an issue. */
  function OpText(k: ArithOp): (r: string)
    ensures r in SixOps
  {
    match k
    case OpAdd => "+"
    case OpSub => "-"
    case OpMul => "*"
    case OpAddAssign => "+="
    case OpSubAssign => "-="
    case OpMulAssign => "*="
  }

  /** The text identifies the operator, so keying on the text keys on the operator. */
  lemma OpTextInjective(a: ArithOp, b: ArithOp)
    requires OpText(a) == OpText(b)
    ensures a == b
  {
    assert |OpText(a)| == |OpText(b)|;
    assert OpText(a)[0] == OpText(b)[0];
  }

  /** The suggestion text: the `checked_*` method to use instead. */
  function Suggestion(k: ArithOp): string
  {
    match k
    case OpAdd => "Use `." + "checked_add" + "(rhs)` or `.saturating_add(rhs)` to handle overflow"
    case OpSub => "Use `." + "checked_sub" + "(rhs)` or `.saturating_sub(rhs)` to handle underflow"
    case OpMul => "Use `." + "checked_mul" + "(rhs)` or `.saturating_mul(rhs)` to handle overflow"
    case OpAddAssign => "Replace `a += b` with `a = a." + "checked_add" + "(b).expect(\"overflow\")`"
    case OpSubAssign => "Replace `a -= b` with `a = a." + "checked_sub" + "(b).expect(\"underflow\")`"
    case OpMulAssign => "Replace `a *= b` with `a = a." + "checked_mul" + "(b).expect(\"overflow\")`"
  }

  /** `classify_op`: which operator, for the six that can overflow; comparisons, bitwise and the rest give `None`. */
  function ClassifyOp(op: BinOp): (r: Option<ArithOp>)
    ensures r.Some? <==> op in {Add, Sub, Mul, AddAssign, SubAssign, MulAssign}
  {
    match op
    case Add => Some(OpAdd)
    case Sub => Some(OpSub)
    case Mul => Some(OpMul)
    case AddAssign => Some(OpAddAssign)
    case SubAssign => Some(OpSubAssign)
    case MulAssign => Some(OpMulAssign)
    case _ => None
  }

  /** Each suggestion names the checked method of its own operation. */
  lemma SuggestionNamesCheckedMethod(k: ArithOp)
    ensures k in {OpAdd, OpAddAssign} ==> Contains(Suggestion(k), "checked_add")
    ensures k in {OpSub, OpSubAssign} ==> Contains(Suggestion(k), "checked_sub")
    ensures k in {OpMul, OpMulAssign} ==> Contains(Suggestion(k), "checked_mul")
  {
    match k
    case OpAdd => ContainsMiddle("Use `.", "checked_add", "(rhs)` or `.saturating_add(rhs)` to handle overflow");
    case OpSub => ContainsMiddle("Use `.", "checked_sub", "(rhs)` or `.saturating_sub(rhs)` to handle underflow");
    case OpMul => ContainsMiddle("Use `.", "checked_mul", "(rhs)` or `.saturating_mul(rhs)` to handle overflow");
    case OpAddAssign => ContainsMiddle("Replace `a += b` with `a = a.", "checked_add", "(b).expect(\"overflow\")`");
    case OpSubAssign => ContainsMiddle("Replace `a -= b` with `a = a.", "checked_sub", "(b).expect(\"underflow\")`");
    case OpMulAssign => ContainsMiddle("Replace `a *= b` with `a = a.", "checked_mul", "(b).expect(\"overflow\")`");
  }

  /** An operator occurrence the visitor would flag if its pair were not yet seen. */
  datatype Candidate = Candidate(fnName: string, op: ArithOp, line: nat)

  predicate IsStringLiteral(e: Expr)
  {
    e.Lit? && e.lit.Str?
  }

  /** The context the children of `n` are visited in: entering a function names it. */
  function InnerContext(n: Node, ctx: Option<string>): Option<string>
  {
    match n
    case I(Fn(f)) => Some(f.name)
    case M(ImplFn(f)) => Some(f.name)
    case _ => ctx
  }

  /** `visit_expr_binary` before it descends: the candidate `n` raises itself, if any. */
  function OwnCandidate(n: Node, ctx: Option<string>): seq<Candidate>
  {
    match n
    case E(Binary(op, left, right, line)) =>
      if ctx.Some? && ClassifyOp(op).Some? && !IsStringLiteral(left) && !IsStringLiteral(right)
      then [Candidate(ctx.value, ClassifyOp(op).value, line)]
      else []
    case _ => []
  }

  /** The candidates met below and including `n` in traversal order, `ctx` being the enclosing function. */
  function Candidates(n: Node, ctx: Option<string>): seq<Candidate>
    decreases NodeSize(n), 0
  {
    ChildrenSmaller(n);
    OwnCandidate(n, ctx) + CandidatesAll(Children(n), InnerContext(n, ctx))
  }

  function CandidatesAll(ns: seq<Node>, ctx: Option<string>): seq<Candidate>
    decreases NodesSize(ns), 1
  {
    if ns == [] then []
    else
      SplitLast(ns);
      NodeSizePositive(ns[|ns| - 1]);
      CandidatesAll(ns[..|ns| - 1], ctx) + Candidates(ns[|ns| - 1], ctx)
  }

  lemma {:induction false} CandidatesAllConcat(a: seq<Node>, b: seq<Node>, ctx: Option<string>)
    ensures CandidatesAll(a + b, ctx) == CandidatesAll(a, ctx) + CandidatesAll(b, ctx)
    decreases |b|
  {
    if b == [] {
      assert a + b == a;
    } else {
      var k := |b| - 1;
      var ab := a + b;
      var last := Candidates(b[k], ctx);
      assert CandidatesAll(ab, ctx) == CandidatesAll(a + b[..k], ctx) + last by {
        assert ab[..|ab| - 1] == a + b[..k];
        assert ab[|ab| - 1] == b[k];
      }
      assert CandidatesAll(b, ctx) == CandidatesAll(b[..k], ctx) + last;
      CandidatesAllConcat(a, b[..k], ctx);
    }
  }

  // ---------------------------------------------------------------------
  // De-duplication on (function name, operator)

  function Key(c: Candidate): (string, string)
  {
    (c.fnName, OpText(c.op))
  }

  function IssueKey(i: ArithmeticIssue): (string, string)
  {
    (i.functionName, i.operation)
  }

  function KeysOf(cs: seq<Candidate>): set<(string, string)>
  {
    if cs == [] then {} else {Key(cs[0])} + KeysOf(cs[1..])
  }

  function IssueKeys(xs: seq<ArithmeticIssue>): set<(string, string)>
  {
    if xs == [] then {} else {IssueKey(xs[0])} + IssueKeys(xs[1..])
  }

  /** The issue for a candidate: it carries the candidate's pair and the suggestion for its operator. */
  function IssueOf(c: Candidate): (r: ArithmeticIssue)
    ensures IssueKey(r) == Key(c) && r.suggestion == Suggestion(c.op)
  {
    ArithmeticIssue(c.fnName, OpText(c.op), Suggestion(c.op), c.fnName + ":" + NatToString(c.line))
  }

  /** The location is the function name, a colon and digits that read back as the line. */
  lemma IssueLocation(c: Candidate)
    ensures |IssueOf(c).location| > |c.fnName| + 1
    ensures IssueOf(c).location[..|c.fnName| + 1] == c.fnName + ":"
    ensures DigitsValue(IssueOf(c).location[|c.fnName| + 1..]) == c.line
  {
    var loc := IssueOf(c).location;
    assert loc[..|c.fnName| + 1] == c.fnName + ":";
    assert loc[|c.fnName| + 1..] == NatToString(c.line);
    NatToStringRoundTrip(c.line);
  }

  /**
   * The issues the visitor pushes for the candidates `cs`, met in order,
   * starting from the pairs already in `seen`: one per pair not seen before,
   * for the first candidate carrying it.
   */
  function DedupFrom(cs: seq<Candidate>, seen: set<(string, string)>): (r: seq<ArithmeticIssue>)
    ensures |r| <= |cs|
  {
    if cs == [] then []
    else if Key(cs[0]) in seen then DedupFrom(cs[1..], seen)
    else [IssueOf(cs[0])] + DedupFrom(cs[1..], seen + {Key(cs[0])})
  }

  /** Exactly the pairs of `cs` not already seen are reported. */
  lemma {:induction false} DedupKeys(cs: seq<Candidate>, seen: set<(string, string)>)
    ensures IssueKeys(DedupFrom(cs, seen)) == KeysOf(cs) - seen
  {
    if cs != [] {
      if Key(cs[0]) in seen {
        DedupKeys(cs[1..], seen);
      } else {
        DedupKeys(cs[1..], seen + {Key(cs[0])});
        var rest := DedupFrom(cs[1..], seen + {Key(cs[0])});
        assert ([IssueOf(cs[0])] + rest)[1..] == rest;
      }
    }
  }

  /** No pair is reported twice. */
  lemma {:induction false} DedupDistinct(cs: seq<Candidate>, seen: set<(string, string)>)
    ensures forall i, j :: 0 <= i < j < |DedupFrom(cs, seen)| ==>
      IssueKey(DedupFrom(cs, seen)[i]) != IssueKey(DedupFrom(cs, seen)[j])
  {
    if cs != [] {
      if Key(cs[0]) in seen {
        DedupDistinct(cs[1..], seen);
      } else {
        var seen' := seen + {Key(cs[0])};
        DedupDistinct(cs[1..], seen');
        DedupKeys(cs[1..], seen');
        DistinctCons(IssueOf(cs[0]), DedupFrom(cs[1..], seen'));
      }
    }
  }

  /** Every issue is the issue of one of the candidates. */
  lemma {:induction false} DedupSources(cs: seq<Candidate>, seen: set<(string, string)>, i: nat)
    requires i < |DedupFrom(cs, seen)|
    ensures exists j :: 0 <= j < |cs| && DedupFrom(cs, seen)[i] == IssueOf(cs[j])
  {
    var rest := cs[1..];
    if Key(cs[0]) in seen {
      assert DedupFrom(cs, seen) == DedupFrom(rest, seen);
      DedupSources(rest, seen, i);
      var j :| 0 <= j < |rest| && DedupFrom(rest, seen)[i] == IssueOf(rest[j]);
      assert rest[j] == cs[j + 1];
    } else {
      var seen' := seen + {Key(cs[0])};
      assert DedupFrom(cs, seen) == [IssueOf(cs[0])] + DedupFrom(rest, seen');
      if i == 0 {
        assert DedupFrom(cs, seen)[0] == IssueOf(cs[0]);
      } else {
        assert DedupFrom(cs, seen)[i] == DedupFrom(rest, seen')[i - 1];
        DedupSources(rest, seen', i - 1);
        var j :| 0 <= j < |rest| && DedupFrom(rest, seen')[i - 1] == IssueOf(rest[j]);
        assert rest[j] == cs[j + 1];
      }
    }
  }

  lemma DistinctCons(x: ArithmeticIssue, rest: seq<ArithmeticIssue>)
    requires IssueKey(x) !in IssueKeys(rest)
    requires forall i, j :: 0 <= i < j < |rest| ==> IssueKey(rest[i]) != IssueKey(rest[j])
    ensures forall i, j :: 0 <= i < j < |[x] + rest| ==> IssueKey(([x] + rest)[i]) != IssueKey(([x] + rest)[j])
  {
    forall i, j | 0 <= i < j < |[x] + rest|
      ensures IssueKey(([x] + rest)[i]) != IssueKey(([x] + rest)[j])
    {
      if i == 0 {
        IssueKeysHas(rest, j - 1);
      } else {
        assert ([x] + rest)[i] == rest[i - 1] && ([x] + rest)[j] == rest[j - 1];
      }
    }
  }

  lemma {:induction false} IssueKeysHas(xs: seq<ArithmeticIssue>, k: nat)
    requires k < |xs|
    ensures IssueKey(xs[k]) in IssueKeys(xs)
  {
    if k > 0 {
      IssueKeysHas(xs[1..], k - 1);
    }
  }

  lemma {:induction false} KeysOfConcat(a: seq<Candidate>, b: seq<Candidate>)
    ensures KeysOf(a + b) == KeysOf(a) + KeysOf(b)
  {
    if a != [] {
      assert (a + b)[1..] == a[1..] + b;
      KeysOfConcat(a[1..], b);
    } else {
      assert a + b == b;
    }
  }

  /** De-duplicating a concatenation: the second part starts from what the first part added to `seen`. */
  lemma {:induction false} DedupConcat(a: seq<Candidate>, b: seq<Candidate>, seen: set<(string, string)>)
    ensures DedupFrom(a + b, seen) == DedupFrom(a, seen) + DedupFrom(b, seen + KeysOf(a))
  {
    if a == [] {
      assert a + b == b;
      assert seen + KeysOf(a) == seen;
    } else {
      assert (a + b)[0] == a[0];
      assert (a + b)[1..] == a[1..] + b;
      if Key(a[0]) in seen {
        DedupConcat(a[1..], b, seen);
        assert seen + KeysOf(a[1..]) == seen + KeysOf(a);
      } else {
        DedupConcat(a[1..], b, seen + {Key(a[0])});
        assert seen + {Key(a[0])} + KeysOf(a[1..]) == seen + KeysOf(a);
      }
    }
  }

  lemma IssueAssoc(a: seq<ArithmeticIssue>, b: seq<ArithmeticIssue>, c: seq<ArithmeticIssue>)
    ensures a + b + c == a + (b + c)
  {
  }

  /** One candidate: reported unless its pair was seen. */
  lemma DedupOne(c: Candidate, seen: set<(string, string)>)
    ensures DedupFrom([c], seen) == if Key(c) in seen then [] else [IssueOf(c)]
    ensures KeysOf([c]) == {Key(c)}
  {
    assert [c][1..] == [];
  }

  /** A node's report is its own candidate's, then its children's from what that added to `seen`. */
  lemma NodeStep(n: Node, ctx: Option<string>, seen: set<(string, string)>, issues: seq<ArithmeticIssue>)
    ensures var own, below := OwnCandidate(n, ctx), CandidatesAll(Children(n), InnerContext(n, ctx));
      issues + DedupFrom(own, seen) + DedupFrom(below, seen + KeysOf(own)) ==
        issues + DedupFrom(Candidates(n, ctx), seen) &&
      seen + KeysOf(own) + KeysOf(below) == seen + KeysOf(Candidates(n, ctx))
  {
    var own, below := OwnCandidate(n, ctx), CandidatesAll(Children(n), InnerContext(n, ctx));
    assert Candidates(n, ctx) == own + below;
    DedupConcat(own, below, seen);
    KeysOfConcat(own, below);
    IssueAssoc(issues, DedupFrom(own, seen), DedupFrom(below, seen + KeysOf(own)));
  }

  /** Visiting one more sibling extends the report by that sibling's candidates. */
  lemma SiblingStep(ns: seq<Node>, i: nat, ctx: Option<string>, seen: set<(string, string)>, issues: seq<ArithmeticIssue>)
    requires i < |ns|
    ensures var done, next := CandidatesAll(ns[..i], ctx), Candidates(ns[i], ctx);
      issues + DedupFrom(done, seen) + DedupFrom(next, seen + KeysOf(done)) ==
        issues + DedupFrom(CandidatesAll(ns[..i + 1], ctx), seen) &&
      seen + KeysOf(done) + KeysOf(next) == seen + KeysOf(CandidatesAll(ns[..i + 1], ctx))
  {
    var done, next := CandidatesAll(ns[..i], ctx), Candidates(ns[i], ctx);
    assert CandidatesAll(ns[..i + 1], ctx) == done + next by {
      var pre := ns[..i + 1];
      assert pre[..|pre| - 1] == ns[..i];
      assert pre[|pre| - 1] == ns[i];
    }
    DedupConcat(done, next, seen);
    KeysOfConcat(done, next);
    IssueAssoc(issues, DedupFrom(done, seen), DedupFrom(next, seen + KeysOf(done)));
  }

  // ---------------------------------------------------------------------
  // The visitor

  /** `ArithVisitor`: the issues so far, the enclosing function, and the pairs already reported. */
  class ArithVisitor {
    var issues: seq<ArithmeticIssue>
    var currentFn: Option<string>
    var seen: set<(string, string)>

    constructor()
      ensures issues == [] && currentFn == None && seen == {}
    {
      issues := [];
      currentFn := None;
      seen := {};
    }

    /** `visit_expr_binary`'s own step: report the operator unless its pair was seen. */
    method Flag(n: Node)
      modifies this
      ensures currentFn == old(currentFn)
      ensures issues == old(issues) + DedupFrom(OwnCandidate(n, old(currentFn)), old(seen))
      ensures seen == old(seen) + KeysOf(OwnCandidate(n, old(currentFn)))
    {
      if n.E? && n.e.Binary? && currentFn.Some? {
        var fnName := currentFn.value;
        var classified := ClassifyOp(n.e.op);
        if classified.Some? && !IsStringLiteral(n.e.left) && !IsStringLiteral(n.e.right) {
          ghost var c := Candidate(fnName, classified.value, n.e.line);
          assert OwnCandidate(n, currentFn) == [c];
          DedupOne(c, seen);
          var opStr := OpText(classified.value);
          var key := (fnName, opStr);
          assert key == Key(c);
          if key !in seen {
            seen := seen + {key};
            issues := issues + [ArithmeticIssue(fnName, opStr, Suggestion(classified.value),
                                                fnName + ":" + NatToString(n.e.line))];
          }
        } else {
          assert OwnCandidate(n, currentFn) == [];
        }
      } else {
        assert OwnCandidate(n, currentFn) == [];
      }
    }

    method VisitNode(n: Node)
      modifies this
      ensures currentFn == old(currentFn)
      ensures issues == old(issues) + DedupFrom(Candidates(n, old(currentFn)), old(seen))
      ensures seen == old(seen) + KeysOf(Candidates(n, old(currentFn)))
      decreases NodeSize(n), 0
    {
      ghost var ctx := currentFn;
      Flag(n);
      var prev := currentFn;
      if n.I? && n.item.Fn? {
        currentFn := Some(n.item.f.name);
      } else if n.M? && n.implItem.ImplFn? {
        currentFn := Some(n.implItem.f.name);
      }
      assert currentFn == InnerContext(n, ctx);
      ChildrenSmaller(n);
      VisitNodes(Children(n));
      currentFn := prev;
      NodeStep(n, ctx, old(seen), old(issues));
    }

    method VisitNodes(ns: seq<Node>)
      modifies this
      ensures currentFn == old(currentFn)
      ensures issues == old(issues) + DedupFrom(CandidatesAll(ns, old(currentFn)), old(seen))
      ensures seen == old(seen) + KeysOf(CandidatesAll(ns, old(currentFn)))
      decreases NodesSize(ns), 1
    {
      ghost var ctx := currentFn;
      for i := 0 to |ns|
        invariant currentFn == ctx
        invariant issues == old(issues) + DedupFrom(CandidatesAll(ns[..i], ctx), old(seen))
        invariant seen == old(seen) + KeysOf(CandidatesAll(ns[..i], ctx))
      {
        PrefixStep(ns, i);
        ElementSize(ns, i);
        VisitNode(ns[i]);
        SiblingStep(ns, i, ctx, old(seen), old(issues));
      }
      assert ns[..|ns|] == ns;
    }
  }

  /** The issues of a whole file: traversal starts outside any function with nothing seen. */
  function FileIssues(items: seq<Item>): seq<ArithmeticIssue>
  {
    DedupFrom(CandidatesAll(Is(items), None), {})
  }

  /** `scan_arithmetic_overflow`: `file` is the parse result, `None` when the source does not parse. */
  method ScanArithmeticOverflow(file: Option<File>) returns (issues: seq<ArithmeticIssue>)
    ensures file.None? ==> issues == []
    ensures file.Some? ==> issues == FileIssues(file.value.items)
  {
    if file.None? {
      return [];
    }
    var visitor := new ArithVisitor();
    visitor.VisitNodes(Is(file.value.items));
    issues := visitor.issues;
  }

  // ---------------------------------------------------------------------
  // Properties

  /** The names of the functions among `ns`, free or in an impl block. */
  function FnNames(ns: seq<Node>): set<string>
  {
    if ns == [] then {}
    else
      var n := ns[|ns| - 1];
      FnNames(ns[..|ns| - 1]) +
      (match n
       case I(Fn(f)) => {f.name}
       case M(ImplFn(f)) => {f.name}
       case _ => {})
  }

  lemma {:induction false} FnNamesConcat(a: seq<Node>, b: seq<Node>)
    ensures FnNames(a + b) == FnNames(a) + FnNames(b)
    decreases |b|
  {
    if b == [] {
      assert a + b == a;
    } else {
      var k := |b| - 1;
      assert (a + b)[..|a + b| - 1] == a + b[..k];
      assert (a + b)[|a + b| - 1] == b[k];
      FnNamesConcat(a, b[..k]);
    }
  }

  /** Every candidate names the enclosing function `ctx` or a function met on the way down. */
  predicate NamedBy(cs: seq<Candidate>, ctx: Option<string>, names: set<string>)
  {
    forall i :: 0 <= i < |cs| ==> ctx == Some(cs[i].fnName) || cs[i].fnName in names
  }

  /** Candidates named within `inner` are named within `ctx` once `inner` itself is among the names. */
  lemma NamedByShift(cs: seq<Candidate>, inner: Option<string>, ctx: Option<string>, small: set<string>, names: set<string>)
    requires NamedBy(cs, inner, small) && small <= names
    requires inner == ctx || (inner.Some? && inner.value in names)
    ensures NamedBy(cs, ctx, names)
  {
  }

  lemma NamedByConcat(a: seq<Candidate>, b: seq<Candidate>, ctx: Option<string>, na: set<string>, nb: set<string>)
    requires NamedBy(a, ctx, na) && NamedBy(b, ctx, nb)
    ensures NamedBy(a + b, ctx, na + nb)
  {
    var all := a + b;
    forall i | 0 <= i < |all|
      ensures ctx == Some(all[i].fnName) || all[i].fnName in na + nb
    {
      if i >= |a| {
        assert all[i] == b[i - |a|];
      } else {
        assert all[i] == a[i];
      }
    }
  }

  lemma {:induction false} CandidatesNamed(n: Node, ctx: Option<string>)
    ensures NamedBy(Candidates(n, ctx), ctx, FnNames(Preorder(n)))
    decreases NodeSize(n), 0
  {
    ChildrenSmaller(n);
    var inner := InnerContext(n, ctx);
    var own := OwnCandidate(n, ctx);
    var below := CandidatesAll(Children(n), inner);
    var names := FnNames(Preorder(n));
    var belowNames := FnNames(PreorderAll(Children(n)));
    assert belowNames <= names && (inner == ctx || inner.value in names) by {
      assert Preorder(n) == [n] + PreorderAll(Children(n));
      FnNamesConcat([n], PreorderAll(Children(n)));
      assert [n][..0] == [];
      if inner != ctx {
        assert (n.I? && n.item.Fn?) || (n.M? && n.implItem.ImplFn?);
      }
    }
    assert NamedBy(below, ctx, names) by {
      CandidatesAllNamed(Children(n), inner);
      NamedByShift(below, inner, ctx, belowNames, names);
    }
    assert NamedBy(own, ctx, {});
    NamedByConcat(own, below, ctx, {}, names);
    assert {} + names == names;
  }

  lemma {:induction false} CandidatesAllNamed(ns: seq<Node>, ctx: Option<string>)
    ensures NamedBy(CandidatesAll(ns, ctx), ctx, FnNames(PreorderAll(ns)))
    decreases NodesSize(ns), 1
  {
    if ns != [] {
      var k := |ns| - 1;
      SplitLast(ns);
      NodeSizePositive(ns[k]);
      var a, b := CandidatesAll(ns[..k], ctx), Candidates(ns[k], ctx);
      var na, nb := FnNames(PreorderAll(ns[..k])), FnNames(Preorder(ns[k]));
      assert CandidatesAll(ns, ctx) == a + b;
      assert FnNames(PreorderAll(ns)) == na + nb by {
        assert PreorderAll(ns) == PreorderAll(ns[..k]) + Preorder(ns[k]);
        FnNamesConcat(PreorderAll(ns[..k]), Preorder(ns[k]));
      }
      CandidatesAllNamed(ns[..k], ctx);
      CandidatesNamed(ns[k], ctx);
      NamedByConcat(a, b, ctx, na, nb);
    }
  }

  /**
   * Properties of a whole file's report: each (function, operator) pair at
   * most once, only the six overflow-prone operators, and every reported
   * function is a function of the file (nothing outside a function is flagged).
   */
  lemma FileIssuesShape(items: seq<Item>)
    ensures forall i, j :: 0 <= i < j < |FileIssues(items)| ==>
      IssueKey(FileIssues(items)[i]) != IssueKey(FileIssues(items)[j])
    ensures forall i :: 0 <= i < |FileIssues(items)| ==>
      FileIssues(items)[i].operation in SixOps &&
      FileIssues(items)[i].functionName in FnNames(PreorderAll(Is(items)))
  {
    var cs := CandidatesAll(Is(items), None);
    var r := FileIssues(items);
    DedupDistinct(cs, {});
    CandidatesAllNamed(Is(items), None);
    forall i | 0 <= i < |r|
      ensures r[i].operation in SixOps && r[i].functionName in FnNames(PreorderAll(Is(items)))
    {
      DedupSources(cs, {}, i);
      var j :| 0 <= j < |cs| && r[i] == IssueOf(cs[j]);
    }
  }

  /** A binary operator with a string-literal operand raises nothing of its own. */
  lemma StringLiteralNotFlagged(op: BinOp, left: Expr, right: Expr, line: nat, ctx: Option<string>)
    requires IsStringLiteral(left) || IsStringLiteral(right)
    ensures Candidates(E(Binary(op, left, right, line)), ctx)
      == CandidatesAll([E(left), E(right)], ctx)
  {
  }

  /** Outside every function even `1 + 2` is not flagged. */
  lemma NoFunctionNoCandidate(op: BinOp, left: Expr, right: Expr, line: nat)
    ensures OwnCandidate(E(Binary(op, left, right, line)), None) == []
  {
  }

  /** A variable raises nothing. */
  lemma PathQuiet(e: Expr, ctx: Option<string>)
    requires e.Path?
    ensures Candidates(E(e), ctx) == []
  {
    assert Children(E(e)) == [];
    assert OwnCandidate(E(e), ctx) == [];
  }

  /** Two siblings: the candidates of the first, then those of the second. */
  lemma CandidatesAllPair(x: Node, y: Node, ctx: Option<string>)
    ensures CandidatesAll([x, y], ctx) == Candidates(x, ctx) + Candidates(y, ctx)
  {
    assert CandidatesAll([x], ctx) == Candidates(x, ctx) by {
      assert [x][..0] == [];
    }
    var xy := [x, y];
    assert xy[..|xy| - 1] == [x] && xy[|xy| - 1] == y;
  }

  /** Inside a function, an addition of two non-literals raises itself and then its operands' candidates. */
  lemma AddCandidates(left: Expr, right: Expr, line: nat, fnName: string)
    requires !IsStringLiteral(left) && !IsStringLiteral(right)
    ensures Candidates(E(Binary(Add, left, right, line)), Some(fnName))
      == [Candidate(fnName, OpAdd, line)] + Candidates(E(left), Some(fnName)) + Candidates(E(right), Some(fnName))
  {
    var ctx := Some(fnName);
    var n := E(Binary(Add, left, right, line));
    assert Children(n) == [E(left), E(right)];
    assert OwnCandidate(n, ctx) == [Candidate(fnName, OpAdd, line)];
    assert InnerContext(n, ctx) == ctx;
    CandidatesAllPair(E(left), E(right), ctx);
  }

  /** `a + b + c` in one function: two candidates, one issue. */
  lemma SumThreeOneIssue(fnName: string, a: Expr, b: Expr, c: Expr, l1: nat, l2: nat)
    requires a.Path? && b.Path? && c.Path?
    ensures DedupFrom(Candidates(E(Binary(Add, Binary(Add, a, b, l1), c, l2)), Some(fnName)), {})
      == [IssueOf(Candidate(fnName, OpAdd, l2))]
  {
    var ctx := Some(fnName);
    var k := Candidate(fnName, OpAdd, l2);
    var k1 := Candidate(fnName, OpAdd, l1);
    assert Candidates(E(Binary(Add, a, b, l1)), ctx) == [k1] by {
      PathQuiet(a, ctx);
      PathQuiet(b, ctx);
      AddCandidates(a, b, l1, fnName);
    }
    assert Candidates(E(Binary(Add, Binary(Add, a, b, l1), c, l2)), ctx) == [k, k1] by {
      PathQuiet(c, ctx);
      AddCandidates(Binary(Add, a, b, l1), c, l2, fnName);
    }
    RepeatedPairOnce(k, k1);
  }

  /** A single node: its own candidates. */
  lemma CandidatesAllSingle(x: Node, ctx: Option<string>)
    ensures CandidatesAll([x], ctx) == Candidates(x, ctx)
  {
    assert [x][..0] == [];
  }

  /** A node with one child and no candidate of its own: the child's candidates, in the inner context. */
  lemma CandidatesOneChild(n: Node, c: Node, ctx: Option<string>)
    requires Children(n) == [c] && OwnCandidate(n, ctx) == []
    ensures Candidates(n, ctx) == Candidates(c, InnerContext(n, ctx))
  {
    CandidatesAllSingle(c, InnerContext(n, ctx));
  }

  /** `a + b` as a statement in function `fnName`: one candidate. */
  lemma AddStmtCandidates(a: Expr, b: Expr, line: nat, fnName: string)
    requires a.Path? && b.Path?
    ensures Candidates(S(ExprStmt(Binary(Add, a, b, line))), Some(fnName)) == [Candidate(fnName, OpAdd, line)]
  {
    var ctx := Some(fnName);
    var add := E(Binary(Add, a, b, line));
    assert Candidates(add, ctx) == [Candidate(fnName, OpAdd, line)] by {
      PathQuiet(a, ctx);
      PathQuiet(b, ctx);
      AddCandidates(a, b, line, fnName);
    }
    CandidatesOneChild(S(ExprStmt(Binary(Add, a, b, line))), add, ctx);
  }

  /**
   * A function inside an inline module (`#[cfg(test)] mod tests { … }`, say)
   * is visited like a top-level one: `a + b` in its body is one issue.
   */
  lemma ModFunctionFlagged(f: FnDecl, a: Expr, b: Expr, line: nat)
    requires a.Path? && b.Path?
    requires f.body == Block([ExprStmt(Binary(Add, a, b, line))])
    ensures FileIssues([Mod([Fn(f)])]) == [IssueOf(Candidate(f.name, OpAdd, line))]
  {
    var c := Candidate(f.name, OpAdd, line);
    var st := S(ExprStmt(Binary(Add, a, b, line)));
    var fn := I(Fn(f));
    var md := I(Mod([Fn(f)]));
    AddStmtCandidates(a, b, line, f.name);
    assert Candidates(fn, None) == [c] by {
      assert Children(fn) == [st];
      CandidatesOneChild(fn, st, None);
    }
    assert Candidates(md, None) == [c] by {
      assert Children(md) == [fn];
      CandidatesOneChild(md, fn, None);
    }
    assert CandidatesAll(Is([Mod([Fn(f)])]), None) == [c] by {
      assert Is([Mod([Fn(f)])]) == [md];
      CandidatesAllSingle(md, None);
    }
    assert [c][1..] == [];
  }

  /**
   * The default body of a trait method is not a function the visitor tracks:
   * at the top of a file, `a + b` in it is not flagged.
   */
  lemma TraitDefaultNotFlagged(a: Expr, b: Expr, line: nat)
    requires a.Path? && b.Path?
    ensures FileIssues([Trait([TraitFn(Some(Block([ExprStmt(Binary(Add, a, b, line))])))])]) == []
  {
    var add := E(Binary(Add, a, b, line));
    var st := S(ExprStmt(Binary(Add, a, b, line)));
    var tf := T(TraitFn(Some(Block([ExprStmt(Binary(Add, a, b, line))]))));
    var tr := I(Trait([TraitFn(Some(Block([ExprStmt(Binary(Add, a, b, line))])))]));
    assert Candidates(add, None) == [] by {
      PathQuiet(a, None);
      PathQuiet(b, None);
      assert Children(add) == [E(a), E(b)];
      CandidatesAllPair(E(a), E(b), None);
    }
    assert Candidates(st, None) == [] by {
      assert Children(st) == [add];
      CandidatesOneChild(st, add, None);
    }
    assert Candidates(tf, None) == [] by {
      assert Children(tf) == [st];
      CandidatesOneChild(tf, st, None);
    }
    assert Candidates(tr, None) == [] by {
      assert Children(tr) == [tf];
      CandidatesOneChild(tr, tf, None);
    }
    assert CandidatesAll(Is([Trait([TraitFn(Some(Block([ExprStmt(Binary(Add, a, b, line))])))])]), None) == [] by {
      assert Is([Trait([TraitFn(Some(Block([ExprStmt(Binary(Add, a, b, line))])))])]) == [tr];
      CandidatesAllSingle(tr, None);
    }
  }

  /** A second candidate with the same pair adds nothing. */
  lemma RepeatedPairOnce(c1: Candidate, c2: Candidate)
    requires Key(c1) == Key(c2)
    ensures DedupFrom([c1, c2], {}) == [IssueOf(c1)]
  {
    assert [c1, c2][1..] == [c2] && [c2][1..] == [];
    assert DedupFrom([c2], {Key(c1)}) == [];
  }

  /** Comparisons and bitwise operators are never flagged. */
  lemma ComparisonsNotFlagged(op: BinOp, left: Expr, right: Expr, line: nat, ctx: Option<string>)
    requires op in {Eq, Lt, Le, Ne, Ge, Gt, BitAnd, BitOr, BitXor, Shl, Shr}
    ensures OwnCandidate(E(Binary(op, left, right, line)), ctx) == []
  {
  }
}
