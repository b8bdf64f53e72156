// The visitor-based unsafe-pattern scan (tooling/sanctifier-core/src/lib.rs,
// `analyze_unsafe_patterns` and `UnsafeVisitor`): the default traversal of
// the whole file, recording every `.unwrap()`, `.expect()` and `panic!` it
// meets, with the line left at 0. Unlike the panic scan of panics.dfy it
// enters every node kind and every item, free functions included.

module UnsafePatterns {
  import opened Results
  import opened Syntax
  import opened Walk
  import opened ScanWalk
  import opened Panics

  datatype PatternType = PanicPattern | UnwrapPattern | ExpectPattern

  datatype UnsafePattern = UnsafePattern(patternType: PatternType, line: nat, snippet: string)

  /** The issue type the panic scan gives to the same kind of node. */
  function KindName(t: PatternType): string
  {
    match t
    case PanicPattern => "panic!"
    case UnwrapPattern => "unwrap"
    case ExpectPattern => "expect"
  }

  /** The pattern the visitor records on standing on `n`, if any; the snippet is the node's own text. */
  function PatternAt(n: Node): (r: Option<UnsafePattern>)
    ensures r.Some? <==> PanicKind(n).Some?
    ensures r.Some? ==> PanicKind(n) == Some(KindName(r.value.patternType)) && r.value.line == 0
  {
    match n
    case E(MethodCall(_, name, _, text)) =>
      if name == "unwrap" then Some(UnsafePattern(UnwrapPattern, 0, text))
      else if name == "expect" then Some(UnsafePattern(ExpectPattern, 0, text))
      else None
    case E(MacroExpr(m)) => if IsPanicMacro(m) then Some(UnsafePattern(PanicPattern, 0, m.text)) else None
    case S(MacroStmt(m)) => if IsPanicMacro(m) then Some(UnsafePattern(PanicPattern, 0, m.text)) else None
    case _ => None
  }

  /**
   * The patterns recorded along the node sequence `ns`: one per panic site,
   * in the same order and of the same kind as the panic scan would name it.
   */
  function PatternsOf(ns: seq<Node>): (r: seq<UnsafePattern>)
    ensures |r| == |PanicSites(ns)|
    ensures forall i :: 0 <= i < |r| ==>
      r[i].line == 0 && PanicKind(PanicSites(ns)[i]) == Some(KindName(r[i].patternType))
  {
    if ns == [] then []
    else
      var n := ns[|ns| - 1];
      PatternsOf(ns[..|ns| - 1]) + (if PatternAt(n).Some? then [PatternAt(n).value] else [])
  }

  /** The last node of a non-empty sequence adds its own pattern, if any. */
  lemma PatternsOfLast(ns: seq<Node>, front: seq<Node>, x: Node)
    requires ns == front + [x]
    ensures PatternsOf(ns) == PatternsOf(front) + (if PatternAt(x).Some? then [PatternAt(x).value] else [])
  {
    assert ns[..|ns| - 1] == front && ns[|ns| - 1] == x;
  }

  lemma {:induction false} PatternsOfConcat(a: seq<Node>, b: seq<Node>)
    ensures PatternsOf(a + b) == PatternsOf(a) + PatternsOf(b)
    decreases |b|
  {
    if b == [] {
      assert a + b == a;
    } else {
      var k := |b| - 1;
      var last := if PatternAt(b[k]).Some? then [PatternAt(b[k]).value] else [];
      PatternsOfLast(a + b, a + b[..k], b[k]);
      PatternsOfLast(b, b[..k], b[k]);
      PatternsOfConcat(a, b[..k]);
      PatternAssoc(PatternsOf(a), PatternsOf(b[..k]), last);
    }
  }

  lemma PatternAssoc(a: seq<UnsafePattern>, b: seq<UnsafePattern>, c: seq<UnsafePattern>)
    ensures a + b + c == a + (b + c)
  {
  }

  /** `UnsafeVisitor`: the default traversal, pushing a pattern before descending into a node. */
  class UnsafeVisitor {
    var patterns: seq<UnsafePattern>

    constructor()
      ensures patterns == []
    {
      patterns := [];
    }

    method VisitNode(n: Node)
      modifies this
      ensures patterns == old(patterns) + PatternsOf(Preorder(n))
      decreases NodeSize(n), 0
    {
      var p := PatternAt(n);
      if p.Some? {
        patterns := patterns + [p.value];
      }
      ghost var own := PatternsOf([n]);
      assert [n][..0] == [];
      assert patterns == old(patterns) + own;
      ChildrenSmaller(n);
      VisitNodes(Children(n));
      ghost var below := PatternsOf(PreorderAll(Children(n)));
      assert Preorder(n) == [n] + PreorderAll(Children(n));
      PatternsOfConcat([n], PreorderAll(Children(n)));
      PatternAssoc(old(patterns), own, below);
    }

    method VisitNodes(ns: seq<Node>)
      modifies this
      ensures patterns == old(patterns) + PatternsOf(PreorderAll(ns))
      decreases NodesSize(ns), 1
    {
      for i := 0 to |ns|
        invariant patterns == old(patterns) + PatternsOf(PreorderAll(ns[..i]))
      {
        PrefixStep(ns, i);
        ElementSize(ns, i);
        VisitNode(ns[i]);
        assert ns[..i + 1] == ns[..i] + [ns[i]];
        PreorderAllConcat(ns[..i], [ns[i]]);
        PreorderAllSingle(ns[i]);
        PatternsOfConcat(PreorderAll(ns[..i]), Preorder(ns[i]));
        PatternAssoc(old(patterns), PatternsOf(PreorderAll(ns[..i])), PatternsOf(Preorder(ns[i])));
      }
      assert ns[..|ns|] == ns;
    }
  }

  /** `analyze_unsafe_patterns`: `file` is the parse result, `None` when the source does not parse. */
  method AnalyzeUnsafePatterns(file: Option<File>) returns (ps: seq<UnsafePattern>)
    ensures file.None? ==> ps == []
    ensures file.Some? ==> ps == PatternsOf(PreorderAll(Is(file.value.items)))
    ensures forall i :: 0 <= i < |ps| ==> ps[i].line == 0
  {
    if file.None? {
      return [];
    }
    var visitor := new UnsafeVisitor();
    visitor.VisitNodes(Is(file.value.items));
    ps := visitor.patterns;
  }

  // ---------------------------------------------------------------------
  // Comparing the two scans

  /** Filtering counts: a panic site occurs as often in `PanicSites(ns)` as in `ns`, anything else never. */
  lemma {:induction false} SitesCount(ns: seq<Node>, x: Node)
    ensures multiset(PanicSites(ns))[x] == if PanicKind(x).Some? then multiset(ns)[x] else 0
  {
    if ns != [] {
      var k := |ns| - 1;
      assert ns == ns[..k] + [ns[k]];
      SitesCount(ns[..k], x);
    }
  }

  /** Whatever occurs at least as often in `b` as in `a`, so do its panic sites. */
  lemma SitesWithin(a: seq<Node>, b: seq<Node>)
    requires multiset(a) <= multiset(b)
    ensures multiset(PanicSites(a)) <= multiset(PanicSites(b))
    ensures |PanicSites(a)| <= |PanicSites(b)|
  {
    forall x
      ensures multiset(PanicSites(a))[x] <= multiset(PanicSites(b))[x]
    {
      SitesCount(a, x);
      SitesCount(b, x);
    }
    var ma, mb := multiset(PanicSites(a)), multiset(PanicSites(b));
    assert mb == ma + (mb - ma);
  }

  /**
   * Every issue the panic scan reports stands on a node the unsafe-pattern
   * visitor also records, so the visitor finds at least as many patterns.
   */
  lemma PanicIssuesAmongPatterns(items: seq<Item>)
    ensures multiset(PanicSites(FileReach(items))) <= multiset(PanicSites(PreorderAll(Is(items))))
    ensures |FilePanics(items)| <= |PatternsOf(PreorderAll(Is(items)))|
  {
    FileReachWithin(items);
    SitesWithin(FileReach(items), PreorderAll(Is(items)));
  }

  /** A `panic!` in a free function: the visitor records it, the panic scan does not. */
  lemma FreeFunctionOnlyPattern(p: MacroCall, f: FnDecl)
    requires IsPanicMacro(p) && f.body == Block([MacroStmt(p)])
    ensures FilePanics([Fn(f)]) == []
    ensures PatternsOf(PreorderAll(Is([Fn(f)]))) == [UnsafePattern(PanicPattern, 0, p.text)]
  {
    var st := S(MacroStmt(p));
    var fi := I(Fn(f));
    assert [Fn(f)][..0] == [];
    assert Is([Fn(f)]) == [fi];
    assert Children(fi) == [st];
    PreorderAllSingle(st);
    assert Children(st) == [];
    assert Preorder(st) == [st];
    assert Preorder(fi) == [fi, st];
    PreorderAllSingle(fi);
    assert [fi, st][..1] == [fi] && [fi][..0] == [];
    assert PatternsOf([fi]) == [];
  }

  /** A `panic!` in the default body of a trait method: the visitor records it, the panic scan does not. */
  lemma TraitDefaultPattern(p: MacroCall)
    requires IsPanicMacro(p)
    ensures FilePanics([Trait([TraitFn(Some(Block([MacroStmt(p)])))])]) == []
    ensures PatternsOf(PreorderAll(Is([Trait([TraitFn(Some(Block([MacroStmt(p)])))])]))) == [UnsafePattern(PanicPattern, 0, p.text)]
  {
    var st := S(MacroStmt(p));
    var tf := T(TraitFn(Some(Block([MacroStmt(p)]))));
    var tr := I(Trait([TraitFn(Some(Block([MacroStmt(p)])))]));
    assert Is([Trait([TraitFn(Some(Block([MacroStmt(p)])))])]) == [tr];
    PreorderAllSingle(tr);
    assert Preorder(st) == [st] by {
      assert Children(st) == [];
    }
    assert Preorder(tf) == [tf, st] by {
      assert Children(tf) == [st];
      PreorderOne(tf, st);
    }
    assert Preorder(tr) == [tr, tf, st] by {
      assert Children(tr) == [tf];
      PreorderOne(tr, tf);
    }
    var ns := [tr, tf, st];
    assert ns[..2] == [tr, tf] && [tr, tf][..1] == [tr] && [tr][..0] == [];
    assert PatternsOf([tr, tf]) == [];
  }
}
