// Ledger-entry size estimation (tooling/sanctifier-core/src/lib.rs): a
// byte-size table for field types, the size of `#[contracttype]` structs
// and enums, the classifier that compares a size with the configured ledger
// limit, and the file pass that reports every type at or near the limit.

module LedgerSize {
  import opened Results
  import opened Syntax

  // ---------------------------------------------------------------------
  // Configuration

  datatype CustomRule = CustomRule(name: string, pattern: string)

  /** `approachingThreshold` is a fraction of the limit (an `f64` in the analyzer, exact here). */
  datatype SanctifyConfig = SanctifyConfig(
    ignorePaths: seq<string>,
    enabledRules: seq<string>,
    ledgerLimit: nat,
    approachingThreshold: real,
    strictMode: bool,
    customRules: seq<CustomRule>)

  function DefaultConfig(): SanctifyConfig
  {
    SanctifyConfig(
      ["target", ".git"],
      ["auth_gaps", "panics", "arithmetic", "ledger_size", "events"],
      64000, 0.8, false, [])
  }

  /** An attribute written as a bare path that names `contracttype` in any segment. */
  predicate IsContracttype(a: Attr)
  {
    a.PathAttr? && "contracttype" in a.segments
  }

  predicate HasContracttype(attrs: seq<Attr>)
  {
    exists i :: 0 <= i < |attrs| && IsContracttype(attrs[i])
  }

  // ---------------------------------------------------------------------
  // Type sizes

  /** The estimated serialized size of a field type, keyed on the last path segment. */
  function TypeSize(ty: Type): nat
    decreases ty
  {
    match ty
    case PathType(segs) =>
      if segs == [] then 8
      else
        var seg := segs[|segs| - 1];
        var name := seg.ident;
        var args := seg.arguments;
        if name in {"u32", "i32", "bool"} then 4
        else if name in {"u64", "i64"} then 8
        else if name in {"u128", "i128", "I128", "U128"} then 16
        else if name == "Address" then 32
        else if name in {"Bytes", "BytesN", "String", "Symbol"} then 64
        else if name == "Vec" then
          if args.AngleBracketed? && |args.args| > 0 && args.args[0].TypeArg?
          then 8 + TypeSize(args.args[0].ty) else 128
        else if name == "Map" then
          if args.AngleBracketed? && TypeArgsSize(args.args) > 0
          then 16 + TypeArgsSize(args.args) * 2 else 128
        else if name == "Option" then
          if args.AngleBracketed? && |args.args| > 0 && args.args[0].TypeArg?
          then 1 + TypeSize(args.args[0].ty) else 32
        else 32
    case ArrayType(elem, len) =>
      if len.Some? then len.value * TypeSize(elem) else 64
    case OtherType => 8
  }

  /** The sum of the sizes of the type arguments, skipping lifetimes and constants. */
  function TypeArgsSize(args: seq<GenericArg>): nat
    decreases args
  {
    if args == [] then 0 else ArgSize(args[0]) + TypeArgsSize(args[1..])
  }

  function ArgSize(a: GenericArg): nat
    decreases a
  {
    if a.TypeArg? then TypeSize(a.ty) else 0
  }

  /** `name<T>` as a type. */
  function Generic(name: string, targs: seq<Type>): Type
  {
    PathType([Segment(name, AngleBracketed(TypeArgs(targs)))])
  }

  function TypeArgs(targs: seq<Type>): (r: seq<GenericArg>)
    ensures |r| == |targs|
    ensures forall i :: 0 <= i < |targs| ==> r[i] == TypeArg(targs[i])
  {
    if targs == [] then [] else [TypeArg(targs[0])] + TypeArgs(targs[1..])
  }

  function Plain(name: string): Type
  {
    PathType([Segment(name, NoArgs)])
  }

  /** Only the last segment counts: `soroban_sdk::Address` is sized like `Address`. */
  lemma SizeByLastSegment(prefix: seq<Segment>, seg: Segment)
    ensures TypeSize(PathType(prefix + [seg])) == TypeSize(PathType([seg]))
  {
    assert (prefix + [seg])[|prefix + [seg]| - 1] == seg;
  }

  /** The scalar and host-object entries of the size table. */
  lemma ScalarSizes(name: string)
    ensures name in {"u32", "i32", "bool"} ==> TypeSize(Plain(name)) == 4
    ensures name in {"u64", "i64"} ==> TypeSize(Plain(name)) == 8
    ensures name in {"u128", "i128", "I128", "U128"} ==> TypeSize(Plain(name)) == 16
    ensures name == "Address" ==> TypeSize(Plain(name)) == 32
    ensures name in {"Bytes", "BytesN", "String", "Symbol"} ==> TypeSize(Plain(name)) == 64
    ensures name in {"Vec", "Map"} ==> TypeSize(Plain(name)) == 128
    ensures name !in {"u32", "i32", "bool", "u64", "i64", "u128", "i128", "I128", "U128",
                      "Address", "Bytes", "BytesN", "String", "Symbol", "Vec", "Map"} ==>
              TypeSize(Plain(name)) == 32
    ensures TypeSize(PathType([])) == 8 && TypeSize(OtherType) == 8
  {
  }

  /** `Vec<T>` and `Option<T>` add a fixed overhead to their element; without one they get a flat size. */
  lemma ContainerSizes(t: Type)
    ensures TypeSize(Generic("Vec", [t])) == 8 + TypeSize(t)
    ensures TypeSize(Generic("Option", [t])) == 1 + TypeSize(t)
    ensures TypeSize(Plain("Vec")) == 128 && TypeSize(Plain("Option")) == 32
  {
    var args := TypeArgs([t]);
    assert args[0] == TypeArg(t);
  }

  lemma {:induction false} TypeArgsSizeOfTypes(targs: seq<Type>)
    ensures TypeArgsSize(TypeArgs(targs)) == FieldsSize(targs)
  {
    if targs != [] {
      var r := TypeArgs(targs);
      assert r[1..] == TypeArgs(targs[1..]);
      TypeArgsSizeOfTypes(targs[1..]);
      FieldsSizeCons(targs);
    }
  }

  /**
   * `Map<K, V>` costs 16 plus twice its arguments; when the arguments add up
   * to nothing (no arguments, or zero-length arrays) it falls back to 128.
   */
  lemma MapSize(k: Type, v: Type)
    ensures TypeSize(Generic("Map", [k, v])) ==
      if TypeSize(k) + TypeSize(v) > 0 then 16 + 2 * (TypeSize(k) + TypeSize(v)) else 128
    ensures TypeSize(Plain("Map")) == 128
  {
    var m := Generic("Map", [k, v]);
    var seg := m.segments[0];
    assert m.segments[|m.segments| - 1] == seg;
    TypeArgsSizeOfTypes([k, v]);
    assert [k, v][..1] == [k];
    assert [k][..0] == [];
    assert FieldsSize([k]) == TypeSize(k);
    assert FieldsSize([k, v]) == TypeSize(k) + TypeSize(v);
    assert TypeArgsSize(seg.arguments.args) == TypeSize(k) + TypeSize(v);
  }

  /** A fixed-length array costs its length times its element; an unknown length costs 64. */
  lemma ArraySize(elem: Type, n: nat)
    ensures TypeSize(ArrayType(elem, Some(n))) == n * TypeSize(elem)
    ensures TypeSize(ArrayType(elem, Some(1))) == TypeSize(elem)
    ensures TypeSize(ArrayType(elem, None)) == 64
  {
  }

  // ---------------------------------------------------------------------
  // Struct and enum sizes

  /** The sum of the field sizes. */
  function FieldsSize(fields: seq<Type>): nat
  {
    if fields == [] then 0 else FieldsSize(fields[..|fields| - 1]) + TypeSize(fields[|fields| - 1])
  }

  lemma {:induction false} FieldsSizeConcat(a: seq<Type>, b: seq<Type>)
    ensures FieldsSize(a + b) == FieldsSize(a) + FieldsSize(b)
  {
    if b == [] {
      assert a + b == a;
    } else {
      var k := |b| - 1;
      assert (a + b)[..|a + b| - 1] == a + b[..k];
      assert (a + b)[|a + b| - 1] == b[k];
      FieldsSizeConcat(a, b[..k]);
    }
  }

  lemma FieldsSizeCons(fields: seq<Type>)
    requires fields != []
    ensures FieldsSize(fields) == TypeSize(fields[0]) + FieldsSize(fields[1..])
  {
    assert fields == [fields[0]] + fields[1..];
    FieldsSizeConcat([fields[0]], fields[1..]);
    assert [fields[0]][..0] == [];
  }

  /** Each field is part of the struct's size. */
  lemma FieldWithinStruct(fields: seq<Type>, i: nat)
    requires i < |fields|
    ensures TypeSize(fields[i]) <= FieldsSize(fields)
  {
    var pre := fields[..i + 1];
    assert FieldsSize(pre) == FieldsSize(fields[..i]) + TypeSize(fields[i]) by {
      assert pre[..i] == fields[..i] && pre[i] == fields[i];
    }
    assert fields == pre + fields[i + 1..];
    FieldsSizeConcat(pre, fields[i + 1..]);
  }

  /** `estimate_struct_size`: the fields' sizes added up one by one. */
  method EstimateStructSize(fields: seq<Type>) returns (total: nat)
    ensures total == FieldsSize(fields)
    ensures forall i :: 0 <= i < |fields| ==> TypeSize(fields[i]) <= total
  {
    total := 0;
    for i := 0 to |fields|
      invariant total == FieldsSize(fields[..i])
    {
      assert fields[..i + 1][..i] == fields[..i];
      total := total + TypeSize(fields[i]);
    }
    assert fields[..|fields|] == fields;
    forall i | 0 <= i < |fields|
      ensures TypeSize(fields[i]) <= total
    {
      FieldWithinStruct(fields, i);
    }
  }

  /** The largest variant payload (0 for an enum without variants). */
  function MaxVariant(variants: seq<seq<Type>>): (m: nat)
    ensures forall i :: 0 <= i < |variants| ==> FieldsSize(variants[i]) <= m
    ensures (variants == [] && m == 0) ||
            (exists i :: 0 <= i < |variants| && m == FieldsSize(variants[i]))
  {
    if variants == [] then 0
    else
      var front := variants[..|variants| - 1];
      var last := FieldsSize(variants[|variants| - 1]);
      var m := MaxVariant(front);
      assert forall i :: 0 <= i < |front| ==> variants[i] == front[i];
      if m >= last then m else last
  }

  const DISCRIMINANT_SIZE: nat := 4

  /**
   * `estimate_enum_size`: the discriminant plus the largest variant, each
   * variant's fields added up as for a struct.
   */
  method EstimateEnumSize(variants: seq<seq<Type>>) returns (size: nat)
    ensures size == DISCRIMINANT_SIZE + MaxVariant(variants)
    ensures size >= DISCRIMINANT_SIZE
    ensures forall i :: 0 <= i < |variants| ==> size >= DISCRIMINANT_SIZE + FieldsSize(variants[i])
  {
    var maxVariant: nat := 0;
    for i := 0 to |variants|
      invariant maxVariant == MaxVariant(variants[..i])
    {
      var variantSize := EstimateStructSize(variants[i]);
      assert variants[..i + 1][..i] == variants[..i];
      maxVariant := if maxVariant >= variantSize then maxVariant else variantSize;
    }
    assert variants[..|variants|] == variants;
    size := DISCRIMINANT_SIZE + maxVariant;
  }

  // ---------------------------------------------------------------------
  // Classification

  datatype SizeWarningLevel = ApproachingLimit | ExceedsLimit

  /** `classify_size`: how a size compares with the limit. */
  function ClassifySize(size: nat, limit: nat, approaching: real, strict: bool, strictThreshold: nat)
    : Option<SizeWarningLevel>
  {
    if size >= limit then Some(ExceedsLimit)
    else if strict && size >= strictThreshold then Some(ExceedsLimit)
    else if size as real >= limit as real * approaching then Some(ApproachingLimit)
    else None
  }

  /** Severity order: no warning, approaching, exceeding. */
  function Severity(level: Option<SizeWarningLevel>): nat
  {
    match level
    case None => 0
    case Some(ApproachingLimit) => 1
    case Some(ExceedsLimit) => 2
  }

  /** A larger size is never classified less severely. */
  lemma ClassifyMonotone(small: nat, large: nat, limit: nat, approaching: real, strict: bool, strictThreshold: nat)
    requires small <= large
    ensures Severity(ClassifySize(small, limit, approaching, strict, strictThreshold))
         <= Severity(ClassifySize(large, limit, approaching, strict, strictThreshold))
  {
    assert small as real <= large as real;
  }

  /** Strict mode can only raise the severity. */
  lemma StrictNeverLowers(size: nat, limit: nat, approaching: real, strictThreshold: nat)
    ensures Severity(ClassifySize(size, limit, approaching, false, strictThreshold))
         <= Severity(ClassifySize(size, limit, approaching, true, strictThreshold))
  {
  }

  /** The three outcomes, each by its own condition. */
  lemma ClassifyCases(size: nat, limit: nat, approaching: real, strict: bool, strictThreshold: nat)
    ensures ClassifySize(size, limit, approaching, strict, strictThreshold) == Some(ExceedsLimit)
        <==> size >= limit || (strict && size >= strictThreshold)
    ensures ClassifySize(size, limit, approaching, strict, strictThreshold) == Some(ApproachingLimit)
        <==> size < limit && !(strict && size >= strictThreshold) && size as real >= limit as real * approaching
    ensures ClassifySize(size, limit, approaching, strict, strictThreshold) == None
        <==> size < limit && !(strict && size >= strictThreshold) && size as real < limit as real * approaching
  {
  }

  /** With the default configuration a size warns from 51200 bytes and exceeds from 64000. */
  lemma DefaultBands(size: nat)
    ensures var c := DefaultConfig();
      var level := ClassifySize(size, c.ledgerLimit, c.approachingThreshold, c.strictMode, StrictThreshold(c));
      (level == Some(ExceedsLimit) <==> size >= 64000) &&
      (level == Some(ApproachingLimit) <==> 51200 <= size < 64000) &&
      (level == None <==> size < 51200)
  {
  }

  // ---------------------------------------------------------------------
  // The file pass

  datatype SizeWarning = SizeWarning(structName: string, estimatedSize: nat, limit: nat, level: SizeWarningLevel)

  /** In strict mode, half of the limit already counts as exceeding it. */
  function StrictThreshold(config: SanctifyConfig): nat
  {
    config.ledgerLimit / 2
  }

  /** A `#[contracttype]` struct or enum: the types whose size is checked. */
  predicate IsSized(item: Item)
  {
    (item.Struct? && HasContracttype(item.structAttrs)) || (item.Enum? && HasContracttype(item.enumAttrs))
  }

  function SizedName(item: Item): string
    requires IsSized(item)
  {
    if item.Struct? then item.structName else item.enumName
  }

  function SizedSize(item: Item): nat
    requires IsSized(item)
  {
    if item.Struct? then FieldsSize(item.fields) else DISCRIMINANT_SIZE + MaxVariant(item.variants)
  }

  /** The warning one top-level item produces, if any. */
  function ItemWarning(config: SanctifyConfig, item: Item): Option<SizeWarning>
  {
    if !IsSized(item) then None
    else
      var size := SizedSize(item);
      match ClassifySize(size, config.ledgerLimit, config.approachingThreshold, config.strictMode, StrictThreshold(config))
      case None => None
      case Some(level) => Some(SizeWarning(SizedName(item), size, config.ledgerLimit, level))
  }

  /** The warnings for the top-level items, in order. */
  function LedgerWarnings(config: SanctifyConfig, items: seq<Item>): seq<SizeWarning>
  {
    if items == [] then []
    else
      var front := LedgerWarnings(config, items[..|items| - 1]);
      match ItemWarning(config, items[|items| - 1])
      case None => front
      case Some(w) => front + [w]
  }

  /** `analyze_ledger_size`: `file` is the parse result, `None` when the source does not parse. */
  method AnalyzeLedgerSize(config: SanctifyConfig, file: Option<File>) returns (warnings: seq<SizeWarning>)
    ensures file.None? ==> warnings == []
    ensures file.Some? ==> warnings == LedgerWarnings(config, file.value.items)
  {
    warnings := [];
    if file.None? {
      return;
    }
    var items := file.value.items;
    for i := 0 to |items|
      invariant warnings == LedgerWarnings(config, items[..i])
    {
      assert items[..i + 1][..i] == items[..i];
      var w := CheckItem(config, items[i]);
      if w.Some? {
        warnings := warnings + [w.value];
      }
    }
    assert items[..|items|] == items;
  }

  /** One iteration of the file pass: estimate a sized item and classify it. */
  method CheckItem(config: SanctifyConfig, item: Item) returns (w: Option<SizeWarning>)
    ensures w == ItemWarning(config, item)
  {
    var size: nat;
    var name: string;
    if item.Struct? && HasContracttype(item.structAttrs) {
      size := EstimateStructSize(item.fields);
      name := item.structName;
    } else if item.Enum? && HasContracttype(item.enumAttrs) {
      size := EstimateEnumSize(item.variants);
      name := item.enumName;
    } else {
      return None;
    }
    var limit := config.ledgerLimit;
    var level := ClassifySize(size, limit, config.approachingThreshold, config.strictMode, limit / 2);
    w := if level.Some? then Some(SizeWarning(name, size, limit, level.value)) else None;
  }

  /**
   * Exactly the sized items that classify as approaching or exceeding are
   * reported, each with its own name, size and level, and nothing else.
   */
  lemma {:induction false} WarningsAreClassified(config: SanctifyConfig, items: seq<Item>, w: SizeWarning)
    ensures w in LedgerWarnings(config, items) <==>
      exists i :: 0 <= i < |items| && IsSized(items[i]) &&
        w == SizeWarning(SizedName(items[i]), SizedSize(items[i]), config.ledgerLimit, w.level) &&
        ClassifySize(SizedSize(items[i]), config.ledgerLimit, config.approachingThreshold,
                     config.strictMode, StrictThreshold(config)) == Some(w.level)
  {
    if items != [] {
      var k := |items| - 1;
      var front := items[..k];
      WarningsAreClassified(config, front, w);
      assert forall i :: 0 <= i < k ==> items[i] == front[i];
    }
  }

  /** At most one warning per item. */
  lemma {:induction false} AtMostOneWarningPerItem(config: SanctifyConfig, items: seq<Item>)
    ensures |LedgerWarnings(config, items)| <= |items|
  {
    if items != [] {
      AtMostOneWarningPerItem(config, items[..|items| - 1]);
    }
  }

  function ContracttypeStruct(name: string, fields: seq<Type>): Item
  {
    Struct(name, [PathAttr(["contracttype"])], fields)
  }

  /** A struct holding one `Bytes` field exceeds a 50-byte limit with 64 bytes. */
  lemma BytesExceedsSmallLimit()
    ensures LedgerWarnings(DefaultConfig().(ledgerLimit := 50),
                           [ContracttypeStruct("ExceedsLimit", [Plain("Bytes")])])
         == [SizeWarning("ExceedsLimit", 64, 50, ExceedsLimit)]
  {
    var s := ContracttypeStruct("ExceedsLimit", [Plain("Bytes")]);
    assert IsContracttype(s.structAttrs[0]);
    assert FieldsSize([Plain("Bytes")]) == 64 by {
      assert [Plain("Bytes")][..0] == [];
    }
  }

  /** A `u32` struct (4 bytes) and a `Bytes` + `u128` struct (80 bytes) stay far below 64000. */
  lemma SmallStructsPass()
    ensures LedgerWarnings(DefaultConfig(),
                           [Struct("MyContract", [PathAttr(["contract"])], []),
                            ContracttypeStruct("SmallData", [Plain("u32")]),
                            ContracttypeStruct("BigData", [Plain("Bytes"), Plain("u128")])]) == []
  {
    var items := [Struct("MyContract", [PathAttr(["contract"])], []),
                  ContracttypeStruct("SmallData", [Plain("u32")]),
                  ContracttypeStruct("BigData", [Plain("Bytes"), Plain("u128")])];
    assert !IsContracttype(items[0].structAttrs[0]);
    assert !IsSized(items[0]);
    assert IsContracttype(items[1].structAttrs[0]);
    assert IsContracttype(items[2].structAttrs[0]);
    assert [Plain("u32")][..0] == [];
    assert [Plain("Bytes"), Plain("u128")][..1] == [Plain("Bytes")];
    assert [Plain("Bytes")][..0] == [];
    assert FieldsSize([Plain("u32")]) == 4;
    assert FieldsSize([Plain("Bytes")]) == 64;
    assert FieldsSize([Plain("Bytes"), Plain("u128")]) == 80;
    assert SizedSize(items[1]) == 4;
    assert SizedSize(items[2]) == 80;
    assert ItemWarning(DefaultConfig(), items[0]) == None;
    assert ItemWarning(DefaultConfig(), items[1]) == None;
    assert ItemWarning(DefaultConfig(), items[2]) == None;
    assert items[..2][..1] == items[..1];
    assert items[..1][..0] == [];
    assert items[..|items| - 1] == items[..2];
    assert LedgerWarnings(DefaultConfig(), items[..1]) == [];
    assert LedgerWarnings(DefaultConfig(), items[..2]) == [];
  }
}
