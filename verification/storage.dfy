// The storage-key collision detector (tooling/sanctifier-core/src/
// storage_collision.rs): the default traversal records every string used as
// a storage key (string constants, `Symbol::new(&env, "…")`,
// `symbol_short!("…")`) in a map from the string to its occurrences; a final
// pass reports every occurrence of every string that occurs more than once.

module StorageCollision {
  import opened Results
  import opened Syntax
  import opened Walk
  import opened Text

  /** One occurrence of a key string: how it was written, where, and on which line. */
  datatype KeyInfo = KeyInfo(value: string, keyType: string, location: string, line: nat)

  datatype StorageCollisionIssue = StorageCollisionIssue(keyValue: string, keyType: string, location: string, message: string)

  type Keys = map<string, seq<KeyInfo>>

  // ---------------------------------------------------------------------
  // What the traversal records

  /** The key `n` records, if any: a string constant, a `Symbol::new` call, or a `symbol_short!` macro. */
  function RecordAt(n: Node): (r: Option<KeyInfo>)
    ensures r.Some? && r.value.keyType == "const" ==> n.I? && n.item.Const? && r.value.location == n.item.constName
    ensures r.Some? && !n.I? ==> r.value.location == "inline"
    ensures r.Some? ==> n.I? || (n.E? && (n.e.Call? || n.e.MacroExpr?))
  {
    match n
    case I(Const(name, value, line)) =>
      if value.Lit? && value.lit.Str? then Some(KeyInfo(value.lit.text, "const", name, line)) else None
    case E(Call(func, args, line)) =>
      if func.Path? && |func.path| >= 2 && func.path[0] == "Symbol" && func.path[1] == "new" &&
         |args| >= 2 && args[1].Lit? && args[1].lit.Str?
      then Some(KeyInfo(args[1].lit.text, "Symbol::new", "inline", line))
      else None
    case E(MacroExpr(m)) =>
      if m.path != [] && m.path[|m.path| - 1] == "symbol_short"
      then Some(KeyInfo(TrimMatches(m.tokens, '"'), "symbol_short!", "inline", m.line))
      else None
    case _ => None
  }

  /** The keys recorded along the traversal order `ns`. */
  function RecordsAlong(ns: seq<Node>): seq<KeyInfo>
  {
    if ns == [] then []
    else
      var r := RecordAt(ns[|ns| - 1]);
      RecordsAlong(ns[..|ns| - 1]) + (if r.Some? then [r.value] else [])
  }

  lemma {:induction false} RecordsAlongConcat(a: seq<Node>, b: seq<Node>)
    ensures RecordsAlong(a + b) == RecordsAlong(a) + RecordsAlong(b)
    decreases |b|
  {
    if b == [] {
      assert a + b == a;
    } else {
      var k := |b| - 1;
      var ab := a + b;
      assert ab[..|ab| - 1] == a + b[..k];
      assert ab[|ab| - 1] == b[k];
      RecordsAlongConcat(a, b[..k]);
    }
  }

  lemma RecordsOne(n: Node)
    ensures RecordsAlong([n]) == if RecordAt(n).Some? then [RecordAt(n).value] else []
  {
    assert [n][..0] == [];
  }

  /** A node that records nothing adds nothing in front of a traversal. */
  lemma RecordsAlongHeaded(n: Node, p: seq<Node>)
    requires RecordAt(n).None?
    ensures RecordsAlong([n] + p) == RecordsAlong(p)
  {
    RecordsAlongConcat([n], p);
    RecordsOne(n);
  }

  /** The map after `add_key` of `info`: its list grows by `info` at the end. */
  function AddInfo(keys: Keys, info: KeyInfo): Keys
  {
    keys[info.value := (if info.value in keys then keys[info.value] else []) + [info]]
  }

  function AddAll(keys: Keys, infos: seq<KeyInfo>): Keys
  {
    if infos == [] then keys else AddInfo(AddAll(keys, infos[..|infos| - 1]), infos[|infos| - 1])
  }

  lemma {:induction false} AddAllConcat(keys: Keys, a: seq<KeyInfo>, b: seq<KeyInfo>)
    ensures AddAll(keys, a + b) == AddAll(AddAll(keys, a), b)
    decreases |b|
  {
    if b == [] {
      assert a + b == a;
    } else {
      var k := |b| - 1;
      var ab := a + b;
      assert ab[..|ab| - 1] == a + b[..k];
      assert ab[|ab| - 1] == b[k];
      AddAllConcat(keys, a, b[..k]);
    }
  }

  /** The occurrences of `v` among `infos`, in order. */
  function OccurrencesOf(infos: seq<KeyInfo>, v: string): seq<KeyInfo>
  {
    if infos == [] then []
    else OccurrencesOf(infos[..|infos| - 1], v) + (if infos[|infos| - 1].value == v then [infos[|infos| - 1]] else [])
  }

  lemma {:induction false} OccurrencesConcat(a: seq<KeyInfo>, b: seq<KeyInfo>, v: string)
    ensures OccurrencesOf(a + b, v) == OccurrencesOf(a, v) + OccurrencesOf(b, v)
    decreases |b|
  {
    if b == [] {
      assert a + b == a;
    } else {
      var k := |b| - 1;
      var ab := a + b;
      assert ab[..|ab| - 1] == a + b[..k];
      assert ab[|ab| - 1] == b[k];
      OccurrencesConcat(a, b[..k], v);
    }
  }

  lemma OccurrencesOne(x: KeyInfo, v: string)
    ensures OccurrencesOf([x], v) == if x.value == v then [x] else []
  {
    assert [x][..0] == [];
  }

  /**
   * Adding a sequence of keys groups them by value, keeping order: the list
   * of `v` is its old list followed by the occurrences of `v` in `infos`.
   */
  lemma {:induction false} AddAllGroups(keys: Keys, infos: seq<KeyInfo>, v: string)
    ensures v in AddAll(keys, infos) <==> v in keys || OccurrencesOf(infos, v) != []
    ensures v in AddAll(keys, infos) ==>
      AddAll(keys, infos)[v] == (if v in keys then keys[v] else []) + OccurrencesOf(infos, v)
  {
    if infos != [] {
      var k := |infos| - 1;
      AddAllGroups(keys, infos[..k], v);
    }
  }

  /** Every list of a grouped map is non-empty and holds only occurrences of its own value. */
  lemma {:induction false} OccurrencesMatch(infos: seq<KeyInfo>, v: string)
    ensures forall j :: 0 <= j < |OccurrencesOf(infos, v)| ==> OccurrencesOf(infos, v)[j].value == v
    ensures |OccurrencesOf(infos, v)| <= |infos|
  {
    if infos != [] {
      OccurrencesMatch(infos[..|infos| - 1], v);
    }
  }

  // ---------------------------------------------------------------------
  // The final pass

  /** How another occurrence is cited in a message. */
  function Describe(info: KeyInfo): string
  {
    info.location + " (line " + NatToString(info.line) + ")"
  }

  /** The citations of every occurrence except the `i`-th, in order. */
  function Others(infos: seq<KeyInfo>, i: nat): (r: seq<string>)
    requires i < |infos|
    ensures |r| == |infos| - 1
    ensures forall j :: 0 <= j < |r| ==> r[j] == Describe(infos[if j < i then j else j + 1])
  {
    var rest := infos[..i] + infos[i + 1..];
    seq(|rest|, j requires 0 <= j < |rest| => Describe(rest[j]))
  }

  function CollisionMessage(v: string, others: seq<string>): string
  {
    "Potential storage key collision: value '" + v + "' is also used in: " + Join(others, ", ")
  }

  /** The issue for the `i`-th occurrence of `v`. */
  function IssueAt(v: string, infos: seq<KeyInfo>, i: nat): StorageCollisionIssue
    requires i < |infos|
  {
    StorageCollisionIssue(v, infos[i].keyType, infos[i].location + ":" + NatToString(infos[i].line),
      CollisionMessage(v, Others(infos, i)))
  }

  /** The issues for one value: none when it occurs once, one per occurrence otherwise. */
  function ValueIssues(v: string, infos: seq<KeyInfo>): (r: seq<StorageCollisionIssue>)
    ensures |infos| <= 1 ==> r == []
    ensures |infos| > 1 ==> |r| == |infos| && forall i :: 0 <= i < |r| ==>
      r[i].keyValue == v && r[i].keyType == infos[i].keyType &&
      r[i].location == infos[i].location + ":" + NatToString(infos[i].line)
  {
    if |infos| > 1 then seq(|infos|, i requires 0 <= i < |infos| => IssueAt(v, infos, i)) else []
  }

  /** The occurrences of `v` in the map; none when it is not a key. */
  function ListOf(keys: Keys, v: string): seq<KeyInfo>
  {
    if v in keys then keys[v] else []
  }

  /** The issues of every value, in the iteration order `order` of the map. */
  function AllIssues(keys: Keys, order: seq<string>): seq<StorageCollisionIssue>
  {
    if order == [] then []
    else
      var v := order[|order| - 1];
      AllIssues(keys, order[..|order| - 1]) + ValueIssues(v, ListOf(keys, v))
  }

  /** `order` lists every value of the map exactly once: an iteration order of the map. */
  predicate IsOrderOf(order: seq<string>, keys: Keys)
  {
    (forall v | v in keys :: v in order) &&
    (forall j | 0 <= j < |order| :: order[j] in keys) &&
    (forall i, j :: 0 <= i < j < |order| ==> order[i] != order[j])
  }

  /** `StorageVisitor`: the issues found so far and the occurrences of each key. */
  class StorageVisitor {
    var collisions: seq<StorageCollisionIssue>
    var keys: Keys

    constructor()
      ensures collisions == [] && keys == map[]
    {
      collisions := [];
      keys := map[];
    }

    /** `add_key`: the occurrence goes at the end of its value's list; other lists stay as they were. */
    method AddKey(value: string, keyType: string, location: string, line: nat)
      modifies this
      ensures collisions == old(collisions)
      ensures keys == AddInfo(old(keys), KeyInfo(value, keyType, location, line))
      ensures keys.Keys == old(keys).Keys + {value}
      ensures forall v :: v in old(keys) && v != value ==> keys[v] == old(keys)[v]
    {
      var info := KeyInfo(value, keyType, location, line);
      var list := if value in keys then keys[value] else [];
      keys := keys[value := list + [info]];
    }

    method VisitNode(n: Node)
      modifies this
      ensures collisions == old(collisions)
      ensures keys == AddAll(old(keys), RecordsAlong(Preorder(n)))
      decreases NodeSize(n), 0
    {
      var r := RecordAt(n);
      if r.Some? {
        AddKey(r.value.value, r.value.keyType, r.value.location, r.value.line);
      }
      ghost var own := RecordsAlong([n]);
      RecordsOne(n);
      assert keys == AddAll(old(keys), own) by {
        if r.Some? {
          assert own == [r.value];
          assert own[..0] == [];
        }
      }
      ChildrenSmaller(n);
      VisitNodes(Children(n));
      assert Preorder(n) == [n] + PreorderAll(Children(n));
      RecordsAlongConcat([n], PreorderAll(Children(n)));
      AddAllConcat(old(keys), own, RecordsAlong(PreorderAll(Children(n))));
    }

    method VisitNodes(ns: seq<Node>)
      modifies this
      ensures collisions == old(collisions)
      ensures keys == AddAll(old(keys), RecordsAlong(PreorderAll(ns)))
      decreases NodesSize(ns), 1
    {
      for i := 0 to |ns|
        invariant collisions == old(collisions)
        invariant keys == AddAll(old(keys), RecordsAlong(PreorderAll(ns[..i])))
      {
        PrefixStep(ns, i);
        ElementSize(ns, i);
        VisitNode(ns[i]);
        assert ns[..i + 1] == ns[..i] + [ns[i]];
        PreorderAllConcat(ns[..i], [ns[i]]);
        PreorderAllSingle(ns[i]);
        RecordsAlongConcat(PreorderAll(ns[..i]), Preorder(ns[i]));
        AddAllConcat(old(keys), RecordsAlong(PreorderAll(ns[..i])), RecordsAlong(Preorder(ns[i])));
      }
      assert ns[..|ns|] == ns;
    }

    /** `final_check`, the map iterated in the order `order`. */
    method FinalCheck(order: seq<string>)
      modifies this
      requires IsOrderOf(order, keys)
      ensures keys == old(keys)
      ensures collisions == old(collisions) + AllIssues(keys, order)
    {
      var ks := keys;
      for k := 0 to |order|
        invariant keys == ks
        invariant collisions == old(collisions) + AllIssues(ks, order[..k])
      {
        AllIssuesStep(ks, order, k);
        var value := order[k];
        var infos := ks[value];
        assert infos == ListOf(ks, value);
        if |infos| > 1 {
          ReportValue(value, infos);
        }
        IssueAssoc(old(collisions), AllIssues(ks, order[..k]), ValueIssues(value, infos));
      }
      assert order[..|order|] == order;
    }

    /** The inner loop of `final_check`: one issue per occurrence of a repeated value. */
    method ReportValue(value: string, infos: seq<KeyInfo>)
      modifies this
      requires |infos| > 1
      ensures keys == old(keys)
      ensures collisions == old(collisions) + ValueIssues(value, infos)
    {
      for i := 0 to |infos|
        invariant keys == old(keys)
        invariant collisions == old(collisions) + ValueIssues(value, infos)[..i]
      {
        var current := infos[i];
        var others := Others(infos, i);
        var issue := StorageCollisionIssue(value, current.keyType,
          current.location + ":" + NatToString(current.line), CollisionMessage(value, others));
        assert issue == IssueAt(value, infos, i);
        ValueIssuesStep(value, infos, i);
        collisions := collisions + [issue];
      }
      assert ValueIssues(value, infos)[..|infos|] == ValueIssues(value, infos);
    }
  }

  lemma IssueAssoc(a: seq<StorageCollisionIssue>, b: seq<StorageCollisionIssue>, c: seq<StorageCollisionIssue>)
    ensures a + b + c == a + (b + c)
  {
  }

  lemma AllIssuesStep(keys: Keys, order: seq<string>, k: nat)
    requires k < |order|
    ensures AllIssues(keys, order[..k + 1]) == AllIssues(keys, order[..k]) + ValueIssues(order[k], ListOf(keys, order[k]))
  {
    assert order[..k + 1][..k] == order[..k];
  }

  lemma ValueIssuesStep(v: string, infos: seq<KeyInfo>, i: nat)
    requires 1 < |infos| && i < |infos|
    ensures ValueIssues(v, infos)[..i + 1] == ValueIssues(v, infos)[..i] + [IssueAt(v, infos, i)]
  {
  }

  /** The grouped occurrences of a parsed file. */
  function FileKeys(items: seq<Item>): Keys
  {
    AddAll(map[], RecordsAlong(PreorderAll(Is(items))))
  }

  /**
   * `scan_storage_collisions`: `file` is the parse result, `None` when the
   * source does not parse; `order` is the order the map is iterated in.
   */
  method ScanStorageCollisions(file: Option<File>, order: seq<string>) returns (issues: seq<StorageCollisionIssue>)
    requires file.Some? ==> IsOrderOf(order, FileKeys(file.value.items))
    ensures file.None? ==> issues == []
    ensures file.Some? ==> issues == AllIssues(FileKeys(file.value.items), order)
  {
    if file.None? {
      return [];
    }
    var visitor := new StorageVisitor();
    visitor.VisitNodes(Is(file.value.items));
    visitor.FinalCheck(order);
    issues := visitor.collisions;
  }

  // ---------------------------------------------------------------------
  // Properties of the final pass

  /** The number of issues about `v`. */
  function CountValue(issues: seq<StorageCollisionIssue>, v: string): nat
  {
    if issues == [] then 0
    else CountValue(issues[..|issues| - 1], v) + (if issues[|issues| - 1].keyValue == v then 1 else 0)
  }

  lemma {:induction false} CountValueConcat(a: seq<StorageCollisionIssue>, b: seq<StorageCollisionIssue>, v: string)
    ensures CountValue(a + b, v) == CountValue(a, v) + CountValue(b, v)
    decreases |b|
  {
    if b == [] {
      assert a + b == a;
    } else {
      var k := |b| - 1;
      var ab := a + b;
      assert ab[..|ab| - 1] == a + b[..k];
      assert ab[|ab| - 1] == b[k];
      CountValueConcat(a, b[..k], v);
    }
  }

  /** Every issue of one value is about that value. */
  lemma {:induction false} CountUniform(issues: seq<StorageCollisionIssue>, w: string, v: string)
    requires forall i :: 0 <= i < |issues| ==> issues[i].keyValue == w
    ensures CountValue(issues, v) == if v == w then |issues| else 0
  {
    if issues != [] {
      CountUniform(issues[..|issues| - 1], w, v);
    }
  }

  /** A value is in a sequence exactly when it is in the sequence without its last element or is that element. */
  lemma InSnoc(order: seq<string>, v: string)
    requires order != []
    ensures v in order <==> v in order[..|order| - 1] || v == order[|order| - 1]
  {
    assert order == order[..|order| - 1] + [order[|order| - 1]];
  }

  /** In a sequence without repetitions, the last element is not among the others. */
  lemma LastNotEarlier(order: seq<string>)
    requires order != []
    requires forall i, j :: 0 <= i < j < |order| ==> order[i] != order[j]
    ensures order[|order| - 1] !in order[..|order| - 1]
  {
    var k := |order| - 1;
    forall j | 0 <= j < k
      ensures order[..k][j] != order[k]
    {
      assert order[..k][j] == order[j];
    }
  }

  /**
   * Whatever the iteration order, a value gets exactly as many issues as it
   * has occurrences when it has at least two, and none otherwise.
   */
  lemma {:induction false} IssuesPerValue(keys: Keys, order: seq<string>, v: string)
    requires forall j :: 0 <= j < |order| ==> order[j] in keys
    requires forall i, j :: 0 <= i < j < |order| ==> order[i] != order[j]
    ensures CountValue(AllIssues(keys, order), v) ==
      if v in order && |keys[v]| > 1 then |keys[v]| else 0
  {
    if order != [] {
      var k := |order| - 1;
      var w := order[k];
      var front := order[..k];
      assert forall j :: 0 <= j < |front| ==> front[j] in keys;
      assert forall i, j :: 0 <= i < j < |front| ==> front[i] != front[j];
      IssuesPerValue(keys, front, v);
      var a, b := AllIssues(keys, front), ValueIssues(w, ListOf(keys, w));
      assert AllIssues(keys, order) == a + b;
      CountValueConcat(a, b, v);
      CountUniform(b, w, v);
      InSnoc(order, v);
      LastNotEarlier(order);
    }
  }

  /** Every issue is about a value of the map that occurs at least twice. */
  lemma {:induction false} IssuesAreCollisions(keys: Keys, order: seq<string>)
    requires forall j :: 0 <= j < |order| ==> order[j] in keys
    ensures forall i :: 0 <= i < |AllIssues(keys, order)| ==>
      AllIssues(keys, order)[i].keyValue in keys && |keys[AllIssues(keys, order)[i].keyValue]| > 1
  {
    if order != [] {
      var k := |order| - 1;
      IssuesAreCollisions(keys, order[..k]);
      var a, b := AllIssues(keys, order[..k]), ValueIssues(order[k], ListOf(keys, order[k]));
      var all: seq<StorageCollisionIssue> := a + b;
      forall i | 0 <= i < |all|
        ensures all[i].keyValue in keys && |keys[all[i].keyValue]| > 1
      {
        if i >= |a| {
          assert all[i] == b[i - |a|];
        } else {
          assert all[i] == a[i];
        }
      }
    }
  }

  /** The message of an issue cites each other occurrence, so it holds one citation fewer than there are occurrences. */
  lemma MessageCitesOthers(v: string, infos: seq<KeyInfo>, i: nat)
    requires i < |infos|
    ensures IssueAt(v, infos, i).message ==
      "Potential storage key collision: value '" + v + "' is also used in: " + Join(Others(infos, i), ", ")
    ensures |Others(infos, i)| == |infos| - 1
    ensures forall j :: 0 <= j < i ==> Others(infos, i)[j] == Describe(infos[j])
    ensures forall j :: i < j < |infos| ==> Others(infos, i)[j - 1] == Describe(infos[j])
  {
    var r := Others(infos, i);
    forall j | i < j < |infos|
      ensures r[j - 1] == Describe(infos[j])
    {
      assert r[j - 1] == Describe(infos[j - 1 + 1]);
    }
  }

  // ---------------------------------------------------------------------
  // The collision test: two equal constants and two equal `symbol_short!` keys

  lemma ConstRecords(name: string, text: string, line: nat)
    ensures RecordsAlong(Preorder(I(Const(name, Lit(Str(text)), line)))) == [KeyInfo(text, "const", name, line)]
  {
    var n := I(Const(name, Lit(Str(text)), line));
    var lit := E(Lit(Str(text)));
    assert Children(lit) == [];
    assert Preorder(lit) == [lit];
    PreorderAllSingle(lit);
    assert Children(n) == [lit];
    assert Preorder(n) == [n] + [lit];
    RecordsAlongConcat([n], [lit]);
    RecordsOne(n);
    RecordsOne(lit);
  }

  /** A string constant inside an inline module is recorded like a top-level one. */
  lemma ModConstRecords(name: string, text: string, line: nat)
    ensures RecordsAlong(Preorder(I(Mod([Const(name, Lit(Str(text)), line)])))) == [KeyInfo(text, "const", name, line)]
  {
    var c := I(Const(name, Lit(Str(text)), line));
    var md := I(Mod([Const(name, Lit(Str(text)), line)]));
    assert Children(md) == [c];
    PreorderOne(md, c);
    ConstRecords(name, text, line);
    RecordsAlongHeaded(md, Preorder(c));
  }

  /** An associated `const` of an impl block is not an item `const`: its string value records nothing. */
  lemma ImplConstNotRecorded(text: string)
    ensures RecordsAlong(Preorder(M(ImplConst(Lit(Str(text)))))) == []
  {
    var c := M(ImplConst(Lit(Str(text))));
    var lit := E(Lit(Str(text)));
    assert Children(c) == [lit];
    PreorderOne(c, lit);
    assert Preorder(lit) == [lit] by {
      assert Children(lit) == [];
    }
    RecordsAlongHeaded(c, [lit]);
    RecordsOne(lit);
  }

  lemma LetMacroRecords(m: MacroCall)
    requires m.path == ["symbol_short"]
    ensures RecordsAlong(Preorder(S(Local(None, Some(MacroExpr(m)))))) ==
      [KeyInfo(TrimMatches(m.tokens, '"'), "symbol_short!", "inline", m.line)]
  {
    var st := S(Local(None, Some(MacroExpr(m))));
    var mac := E(MacroExpr(m));
    assert Preorder(st) == [st] + [mac] by {
      assert Preorder(mac) == [mac] by {
        assert Children(mac) == [];
      }
      assert Children(st) == [mac];
      PreorderAllSingle(mac);
    }
    RecordsAlongConcat([st], [mac]);
    assert RecordsAlong([st]) == [] by {
      RecordsOne(st);
    }
    assert RecordsAlong([mac]) == [KeyInfo(TrimMatches(m.tokens, '"'), "symbol_short!", "inline", m.line)] by {
      RecordsOne(mac);
    }
  }

  lemma ImplRecords(f: FnDecl, m1: MacroCall, m2: MacroCall)
    requires m1.path == ["symbol_short"] && m2.path == ["symbol_short"]
    requires f.body == Block([Local(None, Some(MacroExpr(m1))), Local(None, Some(MacroExpr(m2)))])
    ensures RecordsAlong(Preorder(I(Impl([ImplFn(f)])))) ==
      [KeyInfo(TrimMatches(m1.tokens, '"'), "symbol_short!", "inline", m1.line),
       KeyInfo(TrimMatches(m2.tokens, '"'), "symbol_short!", "inline", m2.line)]
  {
    var s1, s2 := S(Local(None, Some(MacroExpr(m1)))), S(Local(None, Some(MacroExpr(m2))));
    var r1 := KeyInfo(TrimMatches(m1.tokens, '"'), "symbol_short!", "inline", m1.line);
    var r2 := KeyInfo(TrimMatches(m2.tokens, '"'), "symbol_short!", "inline", m2.line);
    var fnNode := M(ImplFn(f));
    assert RecordsAlong(Preorder(fnNode)) == [r1, r2] by {
      var p1, p2 := Preorder(s1), Preorder(s2);
      assert Preorder(fnNode) == [fnNode] + (p1 + p2) by {
        assert Children(fnNode) == [s1, s2] by {
          var stmts := f.body.stmts;
          assert stmts[1..][1..] == [];
          assert Ss(stmts[1..]) == [s2];
        }
        PreorderTwo(fnNode, s1, s2);
      }
      assert RecordsAlong(p1) == [r1] by { LetMacroRecords(m1); }
      assert RecordsAlong(p2) == [r2] by { LetMacroRecords(m2); }
      RecordsAlongHeaded(fnNode, p1 + p2);
      RecordsAlongConcat(p1, p2);
    }
    var implNode := I(Impl([ImplFn(f)]));
    assert Preorder(implNode) == [implNode] + Preorder(fnNode) by {
      assert Children(implNode) == [fnNode];
      PreorderOne(implNode, fnNode);
    }
    RecordsAlongHeaded(implNode, Preorder(fnNode));
  }

  lemma TestFileRecords(items: seq<Item>, f: FnDecl, m1: MacroCall, m2: MacroCall, l1: nat, l2: nat)
    requires m1.path == ["symbol_short"] && m2.path == ["symbol_short"]
    requires f.body == Block([Local(None, Some(MacroExpr(m1))), Local(None, Some(MacroExpr(m2)))])
    requires items == [Const("KEY1", Lit(Str("collision")), l1), Const("KEY2", Lit(Str("collision")), l2), Impl([ImplFn(f)])]
    ensures RecordsAlong(PreorderAll(Is(items))) ==
      [KeyInfo("collision", "const", "KEY1", l1), KeyInfo("collision", "const", "KEY2", l2),
       KeyInfo(TrimMatches(m1.tokens, '"'), "symbol_short!", "inline", m1.line),
       KeyInfo(TrimMatches(m2.tokens, '"'), "symbol_short!", "inline", m2.line)]
  {
    var c1, c2, im := I(items[0]), I(items[1]), I(items[2]);
    assert PreorderAll(Is(items)) == Preorder(c1) + Preorder(c2) + Preorder(im) by {
      assert Is(items) == [c1, c2, im] by {
        assert items[1..][1..][1..] == [];
        assert Is(items[1..][1..]) == [im];
        assert Is(items[1..]) == [c2, im];
      }
      PreorderAllThree(c1, c2, im);
    }
    assert RecordsAlong(Preorder(c1) + Preorder(c2) + Preorder(im)) ==
      RecordsAlong(Preorder(c1)) + RecordsAlong(Preorder(c2)) + RecordsAlong(Preorder(im)) by {
      RecordsAlongConcat(Preorder(c1) + Preorder(c2), Preorder(im));
      RecordsAlongConcat(Preorder(c1), Preorder(c2));
    }
    ConstRecords("KEY1", "collision", l1);
    ConstRecords("KEY2", "collision", l2);
    ImplRecords(f, m1, m2);
  }

  /**
   * The collision test: the two constants and the two `symbol_short!("other")`
   * keys give four issues in either iteration order, two per value.
   */
  lemma CollisionTestFourIssues(items: seq<Item>, f: FnDecl, m1: MacroCall, m2: MacroCall, l1: nat, l2: nat, order: seq<string>)
    requires m1.path == ["symbol_short"] && m2.path == ["symbol_short"]
    requires m1.tokens == "\"other\"" && m2.tokens == "\"other\""
    requires f.body == Block([Local(None, Some(MacroExpr(m1))), Local(None, Some(MacroExpr(m2)))])
    requires items == [Const("KEY1", Lit(Str("collision")), l1), Const("KEY2", Lit(Str("collision")), l2), Impl([ImplFn(f)])]
    requires order == ["collision", "other"] || order == ["other", "collision"]
    ensures IsOrderOf(order, FileKeys(items))
    ensures |AllIssues(FileKeys(items), order)| == 4
    ensures CountValue(AllIssues(FileKeys(items), order), "collision") == 2
    ensures CountValue(AllIssues(FileKeys(items), order), "other") == 2
  {
    TestFileRecords(items, f, m1, m2, l1, l2);
    TrimQuotedOther();
    var c1, c2 := KeyInfo("collision", "const", "KEY1", l1), KeyInfo("collision", "const", "KEY2", l2);
    var o1, o2 := KeyInfo("other", "symbol_short!", "inline", m1.line), KeyInfo("other", "symbol_short!", "inline", m2.line);
    var keys := FileKeys(items);
    assert keys == AddAll(map[], [c1, c2, o1, o2]);
    TwoValuesFourKeys(c1, c2, o1, o2);
    assert IsOrderOf(order, keys);
    IssuesPerValue(keys, order, "collision");
    IssuesPerValue(keys, order, "other");
    AllIssuesTwoValues(keys, order);
  }

  lemma TrimQuotedOther()
    ensures TrimMatches("\"other\"", '"') == "other"
  {
    assert "\"other\""[1..] == "other\"";
    assert "other\""[..|"other\""| - 1] == "other";
  }

  /** Two keys of one value and two of another group into two lists of two. */
  lemma TwoValuesFourKeys(c1: KeyInfo, c2: KeyInfo, o1: KeyInfo, o2: KeyInfo)
    requires c1.value == "collision" && c2.value == "collision"
    requires o1.value == "other" && o2.value == "other"
    ensures forall v :: v in AddAll(map[], [c1, c2, o1, o2]) <==> v == "collision" || v == "other"
    ensures "collision" in AddAll(map[], [c1, c2, o1, o2]) && AddAll(map[], [c1, c2, o1, o2])["collision"] == [c1, c2]
    ensures "other" in AddAll(map[], [c1, c2, o1, o2]) && AddAll(map[], [c1, c2, o1, o2])["other"] == [o1, o2]
  {
    var infos := [c1, c2, o1, o2];
    assert "collision" != "other" by {
      assert "collision"[0] != "other"[0];
    }
    forall v
      ensures v in AddAll(map[], infos) <==> v == "collision" || v == "other"
    {
      AddAllGroups(map[], infos, v);
      FourOccurrences(c1, c2, o1, o2, v);
    }
    AddAllGroups(map[], infos, "collision");
    FourOccurrences(c1, c2, o1, o2, "collision");
    AddAllGroups(map[], infos, "other");
    FourOccurrences(c1, c2, o1, o2, "other");
  }

  /** The occurrences of `v` among four keys, one by one. */
  lemma FourOccurrences(x1: KeyInfo, x2: KeyInfo, x3: KeyInfo, x4: KeyInfo, v: string)
    ensures OccurrencesOf([x1, x2, x3, x4], v) ==
      (if x1.value == v then [x1] else []) + (if x2.value == v then [x2] else []) +
      (if x3.value == v then [x3] else []) + (if x4.value == v then [x4] else [])
  {
    assert [x1, x2, x3, x4] == [x1] + [x2] + [x3] + [x4];
    OccurrencesConcat([x1] + [x2] + [x3], [x4], v);
    OccurrencesConcat([x1] + [x2], [x3], v);
    OccurrencesConcat([x1], [x2], v);
    OccurrencesOne(x1, v);
    OccurrencesOne(x2, v);
    OccurrencesOne(x3, v);
    OccurrencesOne(x4, v);
  }

  /** With two values, the issues are those of the first followed by those of the second. */
  lemma AllIssuesTwoValues(keys: Keys, order: seq<string>)
    requires |order| == 2 && order[0] in keys && order[1] in keys
    ensures |AllIssues(keys, order)| == |ValueIssues(order[0], keys[order[0]])| + |ValueIssues(order[1], keys[order[1]])|
    ensures |AllIssues(keys, order)| == CountValue(AllIssues(keys, order), order[0]) + CountValue(AllIssues(keys, order), order[1]) ||
      order[0] == order[1]
  {
    var a, b := ValueIssues(order[0], ListOf(keys, order[0])), ValueIssues(order[1], ListOf(keys, order[1]));
    assert AllIssues(keys, order) == a + b by {
      assert order[..1] == [order[0]] && order[..1][..0] == [];
      assert AllIssues(keys, order[..1]) == AllIssues(keys, []) + a;
    }
    if order[0] != order[1] {
      CountValueConcat(a, b, order[0]);
      CountValueConcat(a, b, order[1]);
      CountUniform(a, order[0], order[0]);
      CountUniform(a, order[0], order[1]);
      CountUniform(b, order[1], order[0]);
      CountUniform(b, order[1], order[1]);
    }
  }
}
