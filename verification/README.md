# Sanctifier analyzer core, modelled in Dafny

Sanctifier is a static analyzer for Soroban smart contracts written in Rust.
Its engine (`tooling/sanctifier-core`) parses a contract source file and runs
a set of independent detectors over the syntax tree. This project models
those detectors:

- the ledger-size estimator and its classifier;
- the authorization-gap scan;
- the panic scan and the unsafe-pattern visitor;
- the arithmetic-overflow visitor;
- the complexity metrics;
- the gas estimator;
- the storage-key collision detector.

It also models the two sample contracts the repository ships with
checked arithmetic:

- the constant-product AMM math (`contracts/amm-pool`);
- the pure i128 token balance functions (`contracts/kani-poc`).

Layout, one module per file:

- `syntax.dfy` (`Results`, `Syntax`): the parsed file as datatypes.
  - `File` holds `Item`s, `ImplItem`s hold `FnDecl`s, and there are `Stmt`, `Expr` and `Type`.
  - Items include inline `mod` bodies, `trait`s with their methods' default bodies and const defaults, `static`s, and impl `const`s; a `let` carries its `else` branch.
  - Rendered token text (what `quote!` prints) is kept as a string field of the node it belongs to.
- `walk.dfy` (`Walk`): the default `syn::visit` traversal.
  - `Children(n)` gives the direct sub-nodes of a node. It enters function bodies, impl blocks, inline `mod` bodies, trait method default bodies, `const` and `static` values, impl `const` values, and `let` initializers with their `else` branch.
  - `Preorder(n)` gives the order in which a default visitor meets nodes.
  - A measure, `NodeSize`, makes every visitor's recursion terminate.
- `scan.dfy` (`ScanWalk`): the hand-written partial walk shared by the panic scan and the auth scan.
  - It descends only into call arguments, method receivers and arguments, blocks, `if`, `match` arms and `let` initializers.
  - It is proved to meet a sub-multiset of what the default traversal meets.
- Every detector follows its source's shape.
  - Hand-written recursion becomes methods threading the issue list or the two flags.
  - Each `syn::visit` visitor becomes a `class` with the visitor's fields.
  - Its `VisitNode`/`VisitNodes` methods are proved equal to a specification fold over the traversal order.
  - Loops become `for`/`while` loops with invariants.
- `text.dfy` (`Text`): the string helpers the detectors use.
  - `contains`, decimal rendering, ASCII lower-casing, `join` and `trim_matches`.

Inputs outside the model:

- Parsing (`syn::parse_str`) happens before the model starts. Each detector takes `Option<File>`, and `None` means the source did not parse; every detector then returns its empty result.
- Source line numbers of nodes are plain fields of the tree.
- The iteration order of the collision detector's `HashMap` is a parameter `order`. The precondition `IsOrderOf` requires it to list every key exactly once.

## Model

| member | source | states |
|---|---|---|
| LedgerSize.SizeByLastSegment | tooling/sanctifier-core/src/lib.rs:833-837 | a path type is sized by its last segment only: any prefix gives the same size |
| LedgerSize.ScalarSizes | tooling/sanctifier-core/src/lib.rs:837-892 | u32/i32/bool give 4, u64/i64 give 8, u128/i128/I128/U128 give 16, Address gives 32, Bytes/BytesN/String/Symbol give 64; any other bare name gives 32 (or 128 for a bare Vec/Map); an empty path or a non-path, non-array type gives 8 |
| LedgerSize.ContainerSizes | tooling/sanctifier-core/src/lib.rs:843-873 | `Vec<T>` is 8 + size(T) and `Option<T>` is 1 + size(T); without type arguments they are 128 and 32 |
| LedgerSize.MapSize | tooling/sanctifier-core/src/lib.rs:851-865 | `Map<K, V>` is 16 + 2·(size K + size V) when that sum is positive, else 128; a bare `Map` is 128 |
| LedgerSize.TypeArgsSizeOfTypes | tooling/sanctifier-core/src/lib.rs:853-859 | summing the sizes of the type arguments equals summing the sizes of the types they carry |
| LedgerSize.TypeArgs | tooling/sanctifier-core/src/lib.rs:853-859 | wrapping types as generic arguments keeps their number and order |
| LedgerSize.ArraySize | tooling/sanctifier-core/src/lib.rs:881-890 | `[T; n]` with a literal length is n·size(T); an array of one element costs its element; an unknown length is 64 |
| LedgerSize.FieldsSizeConcat | tooling/sanctifier-core/src/lib.rs:815-831 | the size of a field list is additive over concatenation |
| LedgerSize.FieldWithinStruct | tooling/sanctifier-core/src/lib.rs:815-831 | each field's size is at most the struct's size |
| LedgerSize.EstimateStructSize | tooling/sanctifier-core/src/lib.rs:815-831 | the loop's total is the sum of the field sizes, so it is at least every field's size (0 for a unit struct) |
| LedgerSize.MaxVariant | tooling/sanctifier-core/src/lib.rs:794-811 | the largest variant payload is at least every variant's field sum and equals one of them (0 without variants) |
| LedgerSize.EstimateEnumSize | tooling/sanctifier-core/src/lib.rs:792-813 | the loop's result is 4 + the largest variant sum, hence at least 4 and at least 4 + every variant's sum |
| LedgerSize.ClassifyCases | tooling/sanctifier-core/src/lib.rs:247-263 | ExceedsLimit iff size ≥ limit or (strict and size ≥ strict threshold); ApproachingLimit iff neither holds and size ≥ limit·approaching; no level iff neither holds and size < limit·approaching |
| LedgerSize.ClassifySize | tooling/sanctifier-core/src/lib.rs:247-263 | the level for a size: ExceedsLimit, ApproachingLimit or none, in the bands that ClassifyCases states |
| LedgerSize.ClassifyMonotone | tooling/sanctifier-core/src/lib.rs:247-263 | a larger size is never classified less severely |
| LedgerSize.StrictNeverLowers | tooling/sanctifier-core/src/lib.rs:254-257 | strict mode can only raise the severity |
| LedgerSize.DefaultBands | tooling/sanctifier-core/src/lib.rs:215-235 | with the default configuration (64000 bytes, 0.8, not strict) a size exceeds from 64000 and approaches from 51200 |
| LedgerSize.AnalyzeLedgerSize | tooling/sanctifier-core/src/lib.rs:515-580 | an unparsable source gives no warnings; otherwise the loop's warnings are the file's per-item warnings in order |
| LedgerSize.CheckItem | tooling/sanctifier-core/src/lib.rs:534-576 | one loop iteration: a `#[contracttype]` struct or enum is estimated and classified; anything else gives nothing |
| LedgerSize.LedgerWarnings | tooling/sanctifier-core/src/lib.rs:534-576 | the warnings of the items, in item order, one per classified `#[contracttype]` item (WarningsAreClassified states which) |
| LedgerSize.WarningsAreClassified | tooling/sanctifier-core/src/lib.rs:534-576 | a warning is reported iff some `#[contracttype]` item has that name, size and limit, and the classifier gives its level |
| LedgerSize.AtMostOneWarningPerItem | tooling/sanctifier-core/src/lib.rs:534-576 | there are never more warnings than items |
| LedgerSize.BytesExceedsSmallLimit | tooling/sanctifier-core/src/lib.rs:1085-1100 | a `#[contracttype]` struct with one `Bytes` field under limit 50 gives exactly one ExceedsLimit warning of size 64 |
| LedgerSize.SmallStructsPass | tooling/sanctifier-core/src/lib.rs:1055-1082 | the 4-byte and 80-byte structs under the default limit give no warning, and the `#[contract]` struct is not sized |
| Naming.CaseInsensitive | tooling/sanctifier-core/src/lib.rs:121-138 | both name tests give the same answer on the lower-cased name |
| Naming.IsInitFn | tooling/sanctifier-core/src/lib.rs:135-138 | `initialize`, `init` or `initialise` in any letter case |
| Naming.IsUpgradeOrAdminFn | tooling/sanctifier-core/src/lib.rs:121-133 | one of the seven admin names in any letter case, or a name containing `upgrade` and also `contract` or `wasm` |
| Naming.InitIsNotAdmin | tooling/sanctifier-core/src/lib.rs:121-138 | no initializer name is also an upgrade or admin name |
| Naming.UpgradeContractRecognised | tooling/sanctifier-core/src/lib.rs:132 | `upgrade_contract` is recognised by the upgrade-and-contract rule |
| Naming.UpgradeTokenNotRecognised | tooling/sanctifier-core/src/lib.rs:132 | `upgrade_token` is not recognised: it mentions neither contract nor wasm |
| Text.ToLowerIdempotent | tooling/sanctifier-core/src/lib.rs:122 | lower-casing twice is lower-casing once |
| Text.ToLower | tooling/sanctifier-core/src/lib.rs:122 | lower-casing keeps the length and maps each character independently |
| Text.NatToString | tooling/sanctifier-core/src/lib.rs:1024 | the decimal rendering is a non-empty string of digits |
| Text.NatToStringRoundTrip | tooling/sanctifier-core/src/lib.rs:1024 | the decimal rendering of a number reads back as that number |
| Text.NatToStringInjective | tooling/sanctifier-core/src/lib.rs:1024 | different numbers render differently |
| Text.TrimMatches | tooling/sanctifier-core/src/storage_collision.rs:118 | the trimmed string is no longer than the input, and it is empty or neither starts nor ends with the trimmed character |
| Text.TrimMatchesSlice | tooling/sanctifier-core/src/storage_collision.rs:118 | the trimmed string is `s[i..j]` where everything before `i` and from `j` on is the trimmed character; with TrimMatches' own contract, exactly the leading and trailing runs are removed |
| Text.ContainsIff | tooling/sanctifier-core/src/lib.rs:471 | `contains` holds iff the substring occurs at some position |
| Text.Contains | tooling/sanctifier-core/src/lib.rs:471 | whether `sub` occurs in `s` (ContainsIff states it) |
| Text.Join | tooling/sanctifier-core/src/storage_collision.rs:60 | the parts with the separator between consecutive parts |
| AuthGaps.CheckExpr | tooling/sanctifier-core/src/lib.rs:451-499 | the flags after the scan are the flags before, or-ed with "a node the scan reaches writes storage" and "a node the scan reaches requires auth" |
| AuthGaps.CheckExprs | tooling/sanctifier-core/src/lib.rs:462-464 | the argument loop or-s in the mutation and auth flags of every argument |
| AuthGaps.CheckArms | tooling/sanctifier-core/src/lib.rs:491-495 | the arm loop or-s in what each arm body sets; guards are not scanned |
| AuthGaps.CheckArm | tooling/sanctifier-core/src/lib.rs:494 | one arm: the flags of its body |
| AuthGaps.CheckFnBody | tooling/sanctifier-core/src/lib.rs:432-449 | the statement loop or-s in what each statement sets; a `require_auth!` statement sets the auth flag |
| AuthGaps.CheckStmt | tooling/sanctifier-core/src/lib.rs:434-446 | one statement: expression and `let` initializer scanned, macro statement checked for `require_auth` |
| AuthGaps.ScanAuthGaps | tooling/sanctifier-core/src/lib.rs:300-326 | an unparsable source gives no names; otherwise the names of the public impl functions with a gap, in declaration order |
| AuthGaps.ImplGaps | tooling/sanctifier-core/src/lib.rs:310-321 | the names reported for one impl block, in order (ImplGapsIff states which) |
| AuthGaps.FileGaps | tooling/sanctifier-core/src/lib.rs:308-324 | the names reported for the file, impl block by impl block (FileGapsIff states which) |
| AuthGaps.ImplGapsIff | tooling/sanctifier-core/src/lib.rs:310-321 | a name is reported for an impl block iff a public function of that name writes storage and never requires auth |
| AuthGaps.FileGapsIff | tooling/sanctifier-core/src/lib.rs:308-324 | a name is reported for the file iff some impl block reports it; free functions are never looked into |
| AuthGaps.ImplGapsAtMostMembers | tooling/sanctifier-core/src/lib.rs:310-321 | at most one name per member: no function is reported twice |
| AuthGaps.AuthStatementSuppresses | tooling/sanctifier-core/src/lib.rs:441-444 | a `require_auth` statement anywhere in the body suppresses the report, before or after the write |
| AuthGaps.PrivateNeverReported | tooling/sanctifier-core/src/lib.rs:312 | an impl block with no public function reports nothing |
| AuthGaps.ArgumentTextCountsAsMutation | tooling/sanctifier-core/src/lib.rs:470-471 | the storage test runs on the whole call's rendering: `cache.set(storage_key)` counts as a write although its receiver does not mention storage |
| AuthGaps.AnyConcat | tooling/sanctifier-core/src/lib.rs:432-499 | whether a node list writes or authorizes is the or of its parts |
| ScanWalk.ReachStmtsConcat | tooling/sanctifier-core/src/lib.rs:357-380 | the statement walk is additive over concatenation |
| ScanWalk.ReachExprWithin | tooling/sanctifier-core/src/lib.rs:382-428 | every node the hand-written walk meets below an expression, the default traversal meets at least as often |
| ScanWalk.ReachStmtWithin | tooling/sanctifier-core/src/lib.rs:357-380 | the same for a statement |
| ScanWalk.FileReachWithin | tooling/sanctifier-core/src/lib.rs:343-352 | the same for a whole file: the panic scan sees a sub-multiset of what the visitors see |
| Walk.Children | tooling/sanctifier-core/src/lib.rs:669 | the sub-nodes the default `syn::visit` functions descend into, in source order; ChildrenSmaller states that they are smaller |
| Walk.Preorder | tooling/sanctifier-core/src/lib.rs:669 | the nodes a visitor meets from `visit_file` on, parent before children |
| Panics.PanicSites | tooling/sanctifier-core/src/lib.rs:382-428 | the panic sites among the nodes are no more than the nodes, and each is a `panic!`, `unwrap` or `expect` |
| Panics.IssuesAt | tooling/sanctifier-core/src/lib.rs:369-400 | one issue per panic site, each naming the enclosing function as both function and location, with type `panic!`, `unwrap` or `expect` |
| Panics.IssuesAtConcat | tooling/sanctifier-core/src/lib.rs:357-428 | the issues of consecutive node lists are concatenated without merging |
| Panics.CheckExprPanics | tooling/sanctifier-core/src/lib.rs:382-428 | the issue list is extended by exactly the issues of the nodes the walk reaches below the expression, in the order met |
| Panics.CheckExprsPanics | tooling/sanctifier-core/src/lib.rs:403-410 | the argument loops extend the list by each argument's issues in turn |
| Panics.CheckArmsPanics | tooling/sanctifier-core/src/lib.rs:422-424 | the arm loop extends the list by each arm body's issues |
| Panics.CheckArmPanics | tooling/sanctifier-core/src/lib.rs:423 | one arm: its body's issues |
| Panics.CheckFnPanics | tooling/sanctifier-core/src/lib.rs:357-380 | the statement loop extends the list by each statement's issues |
| Panics.CheckStmtPanics | tooling/sanctifier-core/src/lib.rs:359-377 | one statement: expression, `let` initializer, or a `panic!` statement raising one issue |
| Panics.ImplPanics | tooling/sanctifier-core/src/lib.rs:345-350 | every function of an impl block is scanned, public or not; one issue per reached site, each with function equal to location |
| Panics.FilePanics | tooling/sanctifier-core/src/lib.rs:343-352 | the file's issues are one per site reached in impl functions, with function equal to location |
| Panics.ScanPanics | tooling/sanctifier-core/src/lib.rs:336-355 | an unparsable source gives no issues; otherwise the loops produce the file's issues |
| Panics.CheckImplPanics | tooling/sanctifier-core/src/lib.rs:345-350 | the loop over one impl block appends every function's issues, public or not, in declaration order |
| Panics.NoImplNoIssues | tooling/sanctifier-core/src/lib.rs:344 | a file without impl blocks has no issues, whatever its free functions contain |
| Panics.ImplPanicsAppend | tooling/sanctifier-core/src/lib.rs:345-350 | adding a function to an impl block adds exactly that function's issues |
| Panics.PanicBody | tooling/sanctifier-core/src/lib.rs:1212-1214 | a body of one `panic!` statement gives one `panic!` issue |
| Panics.LetNoneQuiet | tooling/sanctifier-core/src/lib.rs:1217 | `let x: T = None;` raises nothing |
| Panics.UnwrapBody | tooling/sanctifier-core/src/lib.rs:1216-1219 | `let x = None; let y = x.unwrap();` gives one `unwrap` issue |
| Panics.UnwrapLet | tooling/sanctifier-core/src/lib.rs:1218 | `let y = x.unwrap();` gives one `unwrap` issue; the receiver raises none |
| Panics.ExpectLet | tooling/sanctifier-core/src/lib.rs:1223 | `let y = x.expect(msg);` gives one `expect` issue and the literal argument raises none |
| Panics.ExpectBody | tooling/sanctifier-core/src/lib.rs:1221-1224 | `let x = None; let y = x.expect(msg);` gives one `expect` issue |
| Panics.OkBodyQuiet | tooling/sanctifier-core/src/lib.rs:1226-1228 | a body `Ok(())`, a call whose one argument is the unit tuple, raises nothing |
| Panics.ThreeKindsExample | tooling/sanctifier-core/src/lib.rs:1207-1238 | the four-function impl block, `safe_fn` returning `Ok(())`, gives exactly three issues, one of each kind, in declaration order |
| UnsafePatterns.PatternAt | tooling/sanctifier-core/src/lib.rs:903-929 | a node yields a pattern iff it is a panic site, of the matching kind, with line 0 |
| UnsafePatterns.PatternsOf | tooling/sanctifier-core/src/lib.rs:898-930 | one pattern per panic site along the traversal, same order and kind, every line 0 |
| UnsafePatterns.PatternsOfConcat | tooling/sanctifier-core/src/lib.rs:898-930 | patterns of consecutive node lists are concatenated |
| UnsafePatterns.UnsafeVisitor.VisitNode | tooling/sanctifier-core/src/lib.rs:903-929 | the visitor appends exactly the patterns of the node's traversal, the node's own first |
| UnsafePatterns.UnsafeVisitor.VisitNodes | tooling/sanctifier-core/src/lib.rs:917 | visiting a node list appends the patterns of each node in turn |
| UnsafePatterns.AnalyzeUnsafePatterns | tooling/sanctifier-core/src/lib.rs:660-671 | an unparsable source gives no patterns; otherwise the patterns of the whole file's traversal, each with line 0 |
| UnsafePatterns.SitesCount | tooling/sanctifier-core/src/lib.rs:903-929 | a node occurs among the panic sites as often as in the list if it is a site, never otherwise |
| UnsafePatterns.SitesWithin | tooling/sanctifier-core/src/lib.rs:903-929 | filtering panic sites preserves multiset inclusion |
| UnsafePatterns.PanicIssuesAmongPatterns | tooling/sanctifier-core/src/lib.rs:898-930 | every panic-scan issue stands on a node the visitor records, so the visitor finds at least as many |
| UnsafePatterns.FreeFunctionOnlyPattern | tooling/sanctifier-core/src/lib.rs:343-352 | a `panic!` in a free function is recorded by the visitor but not by the panic scan |
| UnsafePatterns.TraitDefaultPattern | tooling/sanctifier-core/src/lib.rs:898-930 | a `panic!` in a trait method's default body is recorded by the visitor but not by the panic scan |
| ArithOverflow.OpText | tooling/sanctifier-core/src/lib.rs:962-990 | the operator text is one of + - * += -= *= |
| ArithOverflow.OpTextInjective | tooling/sanctifier-core/src/lib.rs:962-990 | the operator text identifies the operator, so de-duplication keyed on text is keyed on the operator |
| ArithOverflow.ClassifyOp | tooling/sanctifier-core/src/lib.rs:962-990 | an operator is classified iff it is one of the six that can overflow |
| ArithOverflow.SuggestionNamesCheckedMethod | tooling/sanctifier-core/src/lib.rs:964-987 | each suggestion names the `checked_*` method of its own operation |
| ArithOverflow.IssueOf | tooling/sanctifier-core/src/lib.rs:1020-1025 | an issue carries the candidate's function and operator and the suggestion for that operator |
| ArithOverflow.IssueLocation | tooling/sanctifier-core/src/lib.rs:1020-1025 | the location is the function name, a colon, and digits that read back as the line |
| ArithOverflow.DedupFrom | tooling/sanctifier-core/src/lib.rs:1015-1026 | de-duplication never yields more issues than candidates |
| ArithOverflow.DedupKeys | tooling/sanctifier-core/src/lib.rs:1015-1026 | the reported pairs are exactly the candidates' pairs not already seen |
| ArithOverflow.DedupDistinct | tooling/sanctifier-core/src/lib.rs:1015-1026 | no (function, operator) pair is reported twice |
| ArithOverflow.DedupSources | tooling/sanctifier-core/src/lib.rs:1015-1026 | every issue is the issue of some candidate |
| ArithOverflow.DedupConcat | tooling/sanctifier-core/src/lib.rs:1015-1026 | de-duplicating a concatenation is de-duplicating the second part with the first part's pairs seen |
| ArithOverflow.CandidatesAllConcat | tooling/sanctifier-core/src/lib.rs:993-1033 | candidates of consecutive node lists are concatenated |
| ArithOverflow.ArithVisitor.Flag | tooling/sanctifier-core/src/lib.rs:1010-1029 | the node's own step reports its operator unless its pair was seen, and records the pair |
| ArithOverflow.ArithVisitor.VisitNode | tooling/sanctifier-core/src/lib.rs:993-1033 | the function context is restored afterwards; issues grow by the de-duplicated candidates of the node's traversal; `seen` grows by their pairs |
| ArithOverflow.ArithVisitor.VisitNodes | tooling/sanctifier-core/src/lib.rs:993-1033 | the same for a node list |
| ArithOverflow.ScanArithmeticOverflow | tooling/sanctifier-core/src/lib.rs:686-699 | an unparsable source gives no issues; otherwise the visitor's issues over the file, starting outside any function with nothing seen |
| ArithOverflow.CandidatesNamed | tooling/sanctifier-core/src/lib.rs:995-1008 | every candidate names the enclosing function or a function met on the way down |
| ArithOverflow.FileIssuesShape | tooling/sanctifier-core/src/lib.rs:951-1033 | the file's issues have pairwise distinct pairs, a flagged operator, and a function name declared in the file |
| ArithOverflow.StringLiteralNotFlagged | tooling/sanctifier-core/src/lib.rs:1014 | an operator with a string-literal operand raises nothing of its own; its operands are still visited |
| ArithOverflow.NoFunctionNoCandidate | tooling/sanctifier-core/src/lib.rs:1011 | outside every function no operator is flagged |
| ArithOverflow.PathQuiet | tooling/sanctifier-core/src/lib.rs:1010-1032 | a variable raises nothing |
| ArithOverflow.AddCandidates | tooling/sanctifier-core/src/lib.rs:1010-1032 | an addition inside a function raises itself, then its operands' candidates |
| ArithOverflow.SumThreeOneIssue | tooling/sanctifier-core/src/lib.rs:1302-1317 | `a + b + c` gives one `+` issue |
| ArithOverflow.RepeatedPairOnce | tooling/sanctifier-core/src/lib.rs:1015-1017 | a second candidate with the same pair adds nothing |
| ArithOverflow.ComparisonsNotFlagged | tooling/sanctifier-core/src/lib.rs:1320-1340 | comparison, bitwise and shift operators are never flagged |
| ArithOverflow.ModFunctionFlagged | tooling/sanctifier-core/src/lib.rs:993-1033 | `a + b` in a function inside an inline `mod` gives one `+` issue for that function |
| ArithOverflow.TraitDefaultNotFlagged | tooling/sanctifier-core/src/lib.rs:993-1011 | `a + b` in a top-level trait method's default body is not flagged: no tracked function encloses it |
| Complexity.SumOwnConcat | tooling/sanctifier-core/src/complexity.rs:71-115 | per-node branch contributions add up over concatenation |
| Complexity.BranchesIsSum | tooling/sanctifier-core/src/complexity.rs:71-115 | the branch count below a node is the sum of the contributions of the nodes its traversal meets |
| Complexity.BranchesAllIsSum | tooling/sanctifier-core/src/complexity.rs:71-115 | the same for a node list |
| Complexity.DepthZeroIff | tooling/sanctifier-core/src/complexity.rs:71-107 | the nesting depth is 0 iff no `if`, `match`, loop or closure is met |
| Complexity.DepthAllZeroIff | tooling/sanctifier-core/src/complexity.rs:71-107 | the same for a node list |
| Complexity.NoNestingConcat | tooling/sanctifier-core/src/complexity.rs:71-107 | a concatenation nests iff one of its parts does |
| Complexity.FnComplexityVisitor.constructor | tooling/sanctifier-core/src/complexity.rs:54-56 | a fresh visitor has complexity 1 and depth 0 |
| Complexity.FnComplexityVisitor.Enter | tooling/sanctifier-core/src/complexity.rs:58-63 | the current depth rises by one and the deepest level becomes the larger of itself and the new depth |
| Complexity.FnComplexityVisitor.Exit | tooling/sanctifier-core/src/complexity.rs:65-67 | the current depth drops by one, staying at 0 at level 0 |
| Complexity.FnComplexityVisitor.VisitNode | tooling/sanctifier-core/src/complexity.rs:71-115 | complexity grows by the node's branch count; the current depth comes back to where it was; the deepest level is the larger of itself and current + the node's depth |
| Complexity.FnComplexityVisitor.VisitNodes | tooling/sanctifier-core/src/complexity.rs:71-115 | the same for a node list |
| Complexity.CountLocJoin | tooling/sanctifier-core/src/complexity.rs:355-357 | k newline-free lines joined by newlines, the last non-empty, count as k lines |
| Complexity.NewlinesInJoin | tooling/sanctifier-core/src/complexity.rs:355-357 | joining k newline-free lines puts k−1 newlines in the result |
| Complexity.CountLoc | tooling/sanctifier-core/src/complexity.rs:355-357 | the number of lines of a rendering: the newlines before its last character, plus one; 0 for an empty string (CountLocJoin states it) |
| Complexity.Truncate | tooling/sanctifier-core/src/complexity.rs:359-362 | the result is at most max characters; a fitting string is unchanged; otherwise it is its first max−1 characters followed by `…` |
| Complexity.TruncateIdempotent | tooling/sanctifier-core/src/complexity.rs:359-362 | truncating twice is truncating once |
| Complexity.WarningsCount | tooling/sanctifier-core/src/complexity.rs:139-163 | one warning per metric strictly above its threshold (10, 5, 4, 50): at most four, and none iff all are within bounds |
| Complexity.ParamsWarningPresent | tooling/sanctifier-core/src/complexity.rs:146-151 | more than five parameters puts a warning containing "parameters" among them |
| Complexity.Warnings | tooling/sanctifier-core/src/complexity.rs:139-163 | the warnings for the four metrics, in source order (WarningsCount states how many) |
| Complexity.AnalyzeFn | tooling/sanctifier-core/src/complexity.rs:132-173 | the metrics are those of a fresh visitor over the body, with the warnings in order; complexity is at least 1; depth is 0 iff the body has no nesting construct |
| Complexity.ThresholdWarnings | tooling/sanctifier-core/src/complexity.rs:139-163 | the four tests push the cyclomatic, parameter, nesting and length messages in that order, each only above its threshold |
| Complexity.EntriesAlongConcat | tooling/sanctifier-core/src/complexity.rs:184-199 | metrics entries along consecutive node lists are concatenated |
| Complexity.DepsAlongConcat | tooling/sanctifier-core/src/complexity.rs:177-182 | dependency counts along consecutive node lists add up |
| Complexity.FileVisitor.VisitNode | tooling/sanctifier-core/src/complexity.rs:176-200 | entries grow by one per public free function and per impl function along the traversal, in order; the count grows by the `use` and `extern crate` items met |
| Complexity.FileVisitor.VisitNodes | tooling/sanctifier-core/src/complexity.rs:176-200 | the same for a node list |
| Complexity.AnalyzeComplexity | tooling/sanctifier-core/src/complexity.rs:206-215 | the result carries the path, the dependency count and the function entries of the file's traversal |
| Complexity.StraightLineFunction | tooling/sanctifier-core/src/tests/complexity_tests.rs:13-23 | a branch-free body with two parameters and few lines has complexity 1 and no warnings |
| Complexity.IfBranches | tooling/sanctifier-core/src/complexity.rs:71-76 | an `if` adds one branch and one level to its condition and branch |
| Complexity.ForBranches | tooling/sanctifier-core/src/complexity.rs:84-89 | a `for` adds one branch and one level to its iterator and body |
| Complexity.PreludeSplit | tooling/sanctifier-core/src/complexity.rs:71-115 | counts of a leading node and the rest add up; depths take the larger |
| Complexity.SingleIfComplexityTwo | tooling/sanctifier-core/src/tests/complexity_tests.rs:26-37 | a body of one `if` has complexity 2 |
| Complexity.IfForIfDepthThree | tooling/sanctifier-core/src/tests/complexity_tests.rs:40-56 | `if { for { if {..} } }` followed by a plain expression nests exactly three deep |
| Complexity.MatchComplexity | tooling/sanctifier-core/src/tests/complexity_tests.rs:81-96 | a four-arm `match` gives complexity 4 |
| Complexity.TwoUsesTwoDependencies | tooling/sanctifier-core/src/tests/complexity_tests.rs:69-78 | two `use` items and a public function give two dependencies and one entry |
| Complexity.ModContentsCounted | tooling/sanctifier-core/src/complexity.rs:176-200 | a `use` and a public function inside an inline `mod` give one dependency and one entry |
| Complexity.ManyParamsCountsSix | tooling/sanctifier-core/src/tests/complexity_tests.rs:58-67 | the six-input signature of the parameter test is one entry reporting six parameters, not seven |
| Complexity.ManyParamsWarned | tooling/sanctifier-core/src/tests/complexity_tests.rs:58-67 | the same function reports six parameters and carries the parameters warning |
| GasEstimator.TypeSize | tooling/sanctifier-core/src/gas_estimator.rs:66-85 | the size is one of 4, 8, 16, 32, 64, 128; a non-path type or an empty path is 8 |
| GasEstimator.TypeSizeTable | tooling/sanctifier-core/src/gas_estimator.rs:66-85 | the size by the last segment's name: 4, 8, 16, 32 for `Address`, 64, 128 for `Vec`/`Map`, and 32 for every other name |
| GasEstimator.LoopParts | tooling/sanctifier-core/src/gas_estimator.rs:117-146 | a loop's body and its iterator or condition are smaller than the loop |
| GasEstimator.GasEstimationVisitor.constructor | tooling/sanctifier-core/src/gas_estimator.rs:58-64 | a fresh visitor starts at 50 instructions and 32 bytes |
| GasEstimator.GasEstimationVisitor.VisitNode | tooling/sanctifier-core/src/gas_estimator.rs:88-171 | the counters grow by the node's charges: a loop charges 50 plus ten times a fresh inner visitor's totals over its body, then visits only its iterator or condition |
| GasEstimator.GasEstimationVisitor.VisitNodes | tooling/sanctifier-core/src/gas_estimator.rs:88-171 | the same for a node list |
| GasEstimator.Report | tooling/sanctifier-core/src/gas_estimator.rs:33-40 | a report names its function and is at least 50 instructions and 32 bytes |
| GasEstimator.EstimateContract | tooling/sanctifier-core/src/gas_estimator.rs:19-48 | an unparsable source gives no reports; otherwise one per public impl function, in order |
| GasEstimator.ReportImplBlock | tooling/sanctifier-core/src/gas_estimator.rs:29-43 | the inner loop over one impl block yields exactly that block's reports: one per public function, each the visitor's totals from the entry costs |
| GasEstimator.ReportsBounded | tooling/sanctifier-core/src/gas_estimator.rs:19-48 | every report carries at least the entry costs |
| GasEstimator.ImplReportsBounded | tooling/sanctifier-core/src/gas_estimator.rs:29-42 | the same for one impl block |
| GasEstimator.FreeFunctionNoReport | tooling/sanctifier-core/src/gas_estimator.rs:28 | a free function adds no report |
| GasEstimator.ImplReportsStep | tooling/sanctifier-core/src/gas_estimator.rs:30-41 | a private impl function adds no report; a public one adds exactly its own |
| GasEstimator.FlatConcat | tooling/sanctifier-core/src/gas_estimator.rs:88-171 | flat per-node charges add up over concatenation |
| GasEstimator.NoLoopsConcat | tooling/sanctifier-core/src/gas_estimator.rs:117-146 | a concatenation is loop-free iff both parts are |
| GasEstimator.LoopPreorder | tooling/sanctifier-core/src/gas_estimator.rs:117-146 | a loop's traversal is the loop, its iterator or condition, then its body |
| GasEstimator.InstructionsFlat | tooling/sanctifier-core/src/gas_estimator.rs:88-171 | instructions are at least the flat sum of per-node charges along the traversal, and equal to it when no loop is met |
| GasEstimator.InstructionsAllFlat | tooling/sanctifier-core/src/gas_estimator.rs:88-171 | the same for a node list |
| GasEstimator.MemoryFlat | tooling/sanctifier-core/src/gas_estimator.rs:117-170 | memory is at least the flat sum of per-node charges, and equal to it when no loop is met |
| GasEstimator.MemoryAllFlat | tooling/sanctifier-core/src/gas_estimator.rs:117-170 | the same for a node list |
| GasEstimator.LoopedStorageRead | tooling/sanctifier-core/src/gas_estimator.rs:99-146 | `loop { store.get() }` costs 50 + 50 + 10·(50 + 1000) instructions and 32 + 10·32 bytes |
| StorageCollision.RecordAt | tooling/sanctifier-core/src/storage_collision.rs:70-127 | only consts, calls and macro expressions record keys; a const key is located at the const's name; the others are `inline` |
| StorageCollision.RecordsAlongConcat | tooling/sanctifier-core/src/storage_collision.rs:69-128 | records along consecutive node lists are concatenated |
| StorageCollision.AddAllConcat | tooling/sanctifier-core/src/storage_collision.rs:31-39 | adding two batches of keys is adding them one after the other |
| StorageCollision.OccurrencesConcat | tooling/sanctifier-core/src/storage_collision.rs:31-39 | occurrences of a value along consecutive batches are concatenated |
| StorageCollision.AddAllGroups | tooling/sanctifier-core/src/storage_collision.rs:31-39 | a value is a key after the adds iff it was one before or occurs in the batch; its list is the old list followed by its occurrences, in order |
| StorageCollision.OccurrencesMatch | tooling/sanctifier-core/src/storage_collision.rs:31-39 | a grouped list holds only occurrences of its own value |
| StorageCollision.StorageVisitor.constructor | tooling/sanctifier-core/src/storage_collision.rs:24-29 | a fresh visitor has no collisions and no keys |
| StorageCollision.StorageVisitor.AddKey | tooling/sanctifier-core/src/storage_collision.rs:31-39 | the occurrence goes at the end of its value's list; the key set gains the value; other lists are unchanged |
| StorageCollision.StorageVisitor.VisitNode | tooling/sanctifier-core/src/storage_collision.rs:69-128 | the map grows by the keys recorded along the node's traversal; collisions are unchanged |
| StorageCollision.StorageVisitor.VisitNodes | tooling/sanctifier-core/src/storage_collision.rs:69-128 | the same for a node list |
| StorageCollision.Others | tooling/sanctifier-core/src/storage_collision.rs:46-51 | the citations of every occurrence except the i-th, in order: one fewer than there are occurrences |
| StorageCollision.ValueIssues | tooling/sanctifier-core/src/storage_collision.rs:43-63 | a value seen once gives no issue; one seen N ≥ 2 times gives N issues, each carrying that occurrence's type and `location:line` |
| StorageCollision.StorageVisitor.FinalCheck | tooling/sanctifier-core/src/storage_collision.rs:41-66 | the keys are unchanged; collisions grow by the issues of every value, in iteration order |
| StorageCollision.StorageVisitor.ReportValue | tooling/sanctifier-core/src/storage_collision.rs:44-63 | the inner loop appends one issue per occurrence of a repeated value |
| StorageCollision.AllIssuesStep | tooling/sanctifier-core/src/storage_collision.rs:42-65 | each outer iteration appends the issues of one value |
| StorageCollision.ScanStorageCollisions | tooling/sanctifier-core/src/lib.rs:733-743 | an unparsable source gives no issues; otherwise the final check's issues over the file's keys |
| StorageCollision.CountValueConcat | tooling/sanctifier-core/src/storage_collision.rs:41-66 | issue counts per value add up over concatenation |
| StorageCollision.IssuesPerValue | tooling/sanctifier-core/src/storage_collision.rs:41-66 | for any iteration order, a value gets as many issues as its occurrences when it has at least two, and none otherwise |
| StorageCollision.IssuesAreCollisions | tooling/sanctifier-core/src/storage_collision.rs:43 | every issue is about a value that occurs at least twice |
| StorageCollision.MessageCitesOthers | tooling/sanctifier-core/src/storage_collision.rs:46-61 | the message names the value and cites exactly the other occurrences, each as `location (line k)` |
| StorageCollision.ConstRecords | tooling/sanctifier-core/src/storage_collision.rs:70-79 | a string const records one `const` key at its name |
| StorageCollision.LetMacroRecords | tooling/sanctifier-core/src/storage_collision.rs:106-127 | `let s = symbol_short!("..")` records one `symbol_short!` key with the quotes trimmed |
| StorageCollision.ModConstRecords | tooling/sanctifier-core/src/storage_collision.rs:70-79 | a string const inside an inline `mod` records one `const` key |
| StorageCollision.ImplConstNotRecorded | tooling/sanctifier-core/src/storage_collision.rs:69-79 | an impl block's associated const records nothing: only item consts are keys |
| StorageCollision.TestFileRecords | tooling/sanctifier-core/src/lib.rs:1410-1421 | the test file records the two consts and the two macros, in that order |
| StorageCollision.CollisionTestFourIssues | tooling/sanctifier-core/src/lib.rs:1407-1427 | whichever of the two iteration orders, the test file gives four issues, two for "collision" and two for "other" |
| AmmPool.SwapRejectsDegenerateInput | contracts/amm-pool/src/lib.rs:19-27 | a zero amount is refused with "Amount in must be positive", then a zero reserve with "Reserves must be positive"; a fee of 100% or more is refused |
| AmmPool.SwapOutput | contracts/amm-pool/src/lib.rs:13-53 | the constant-product output with the fee in basis points, and the source's refusals (SwapSucceedsIff states when it succeeds) |
| AmmPool.SwapSucceedsIff | contracts/amm-pool/src/lib.rs:19-52 | the swap succeeds iff the inputs are valid and the numerator and denominator fit a u128; "Denominator is zero" never happens |
| AmmPool.SwapOutputBelowReserve | contracts/amm-pool/src/lib.rs:30-52 | a successful output is strictly below the out reserve |
| AmmPool.SwapKeepsConstantProduct | contracts/amm-pool/tests/proptest_amm.rs:50-71 | after a successful swap the reserves' product never decreases |
| AmmPool.SwapMonotoneInAmount | contracts/amm-pool/tests/proptest_amm.rs:75-90 | a larger input never gives a smaller output |
| AmmPool.SwapMonotoneInFee | contracts/amm-pool/tests/proptest_amm.rs:326-341 | a larger fee never gives a larger output |
| AmmPool.SwapNotStrictlyMonotone | contracts/amm-pool/tests/proptest_amm.rs:75-90 | inputs 4999 and 5001 into reserves (999999, 1000) both give 4 |
| AmmPool.HighFeeNotStrictlyLower | contracts/amm-pool/tests/proptest_amm.rs:326-341 | fees 9999 and 30 on 100 into reserves (999999, 1000) both give 0 |
| AmmPool.SwapCanPayNothing | contracts/amm-pool/tests/proptest_amm.rs:26-46 | the swap (2, 1, 1, 0) succeeds with output 0 |
| AmmPool.SwapOutputNonZero | contracts/amm-pool/tests/proptest_amm.rs:36-41 | a swap that refuses a zero output: any success is strictly between 0 and the reserve and agrees with the plain swap |
| AmmPool.FloorSqrt | contracts/amm-pool/src/lib.rs:155-169 | the result r satisfies r² ≤ n < (r+1)² |
| AmmPool.FloorSqrtUnique | contracts/amm-pool/src/lib.rs:155-169 | that property determines the root |
| AmmPool.NewtonStepAbove | contracts/amm-pool/src/lib.rs:165 | a Newton step never goes below the floor root |
| AmmPool.NewtonStepDescends | contracts/amm-pool/src/lib.rs:163-166 | above the floor root a Newton step strictly decreases, so the loop ends |
| AmmPool.NewtonSumFits | contracts/amm-pool/src/lib.rs:165 | inside the loop `x + n / x` fits a u128 |
| AmmPool.NewtonSeedOverflowsOnlyAtMax | contracts/amm-pool/src/lib.rs:161 | the seed `(x + 1) / 2` overflows iff n is u128::MAX |
| AmmPool.NewtonSeedAsWritten | contracts/amm-pool/src/lib.rs:161 | the seed `(n + 1) / 2`, or the overflow panic (NewtonSeedOverflowsOnlyAtMax states when) |
| AmmPool.FirstDepositReachesOverflow | contracts/amm-pool/src/lib.rs:69-76 | a first deposit of u128::MAX and 1 passes the product check and reaches the overflowing seed |
| AmmPool.IntegerSqrt | contracts/amm-pool/src/lib.rs:155-169 | the loop returns the floor square root, with every intermediate within u128 |
| AmmPool.IntegerSqrtAsWritten | contracts/amm-pool/src/lib.rs:155-169 | `integer_sqrt` as written: the overflow panic at u128::MAX, else the floor root |
| AmmPool.MintRejectsDegenerateInput | contracts/amm-pool/src/lib.rs:64-88 | a zero amount, or a zero reserve for a later deposit, is refused with the source's messages |
| AmmPool.LiquidityMint | contracts/amm-pool/src/lib.rs:57-114 | the mint with the corrected root: the source's refusals, the first deposit's root and a later deposit's share |
| AmmPool.LiquidityMintAsWritten | contracts/amm-pool/src/lib.rs:57-114 | the mint as written: the same branches, with `integer_sqrt`'s overflow panic on the first deposit |
| AmmPool.MintAsWrittenAgrees | contracts/amm-pool/src/lib.rs:57-114 | the mint as written panics iff it is a first deposit whose product is u128::MAX, and otherwise equals LiquidityMint |
| AmmPool.FirstDepositPanicsAsWritten | contracts/amm-pool/src/lib.rs:69-76 | a first deposit of u128::MAX and 1 panics as written and succeeds with the corrected root |
| AmmPool.FirstMintIsGeometricMean | contracts/amm-pool/src/lib.rs:69-83 | with the corrected root, the first deposit succeeds iff the product fits a u128, and then mints the floor square root of the product, which is positive; as written the product u128::MAX panics instead (MintAsWrittenAgrees) |
| AmmPool.MintIsLargestProportionalShare | contracts/amm-pool/src/lib.rs:85-114 | a later deposit mints the largest amount within both deposit ratios |
| AmmPool.BurnRejectsDegenerateInput | contracts/amm-pool/src/lib.rs:125-133 | a zero liquidity, a zero supply, or liquidity above the supply is refused |
| AmmPool.LiquidityBurn | contracts/amm-pool/src/lib.rs:119-152 | each reserve's floor share of the burnt liquidity, and the source's refusals (BurnIsShareOfReserves states it) |
| AmmPool.BurnIsShareOfReserves | contracts/amm-pool/src/lib.rs:135-151 | each returned amount is positive, at most its reserve, and the floor of reserve·L/S |
| AmmPool.ShareAtMostWhole | contracts/amm-pool/src/lib.rs:135-145 | a floor share of a reserve is at most the reserve |
| AmmPool.MintThenBurnNeverProfits | contracts/amm-pool/tests/proptest_amm.rs:234-277 | burning the liquidity just minted never returns more than was deposited |
| AmmPool.LiquidityExamples | contracts/amm-pool/src/lib.rs:183-202 | the unit tests' values: mint 50, first mint 1000, burn (200, 400) |
| AmmPool.SwapExample | contracts/amm-pool/src/lib.rs:175-181 | the basic swap gives 90 |
| TokenBalances.TransferConserves | contracts/kani-poc/src/lib.rs:17-32 | a transfer succeeds iff the amount is positive and both new balances fit an i128; it then moves exactly the amount and keeps the sum |
| TokenBalances.Transfer | contracts/kani-poc/src/lib.rs:17-32 | `transfer_pure`: both new balances, or the refusal (TransferConserves states when and what) |
| TokenBalances.TransferProofAssumptionsSucceed | contracts/kani-poc/src/lib.rs:80-102 | under the conservation proof's assumptions the transfer always succeeds with the stated balances |
| TokenBalances.TransferAllowsOverdraft | contracts/kani-poc/src/lib.rs:104-115 | transferring 5 from an empty account succeeds with balances (−5, 5) |
| TokenBalances.TransferChecked | contracts/kani-poc/src/lib.rs:104-115 | a transfer that refuses an overdraft: a sender below the amount is refused; every other input gets the plain transfer's answer, and any success leaves the sender non-negative |
| TokenBalances.TransferCheckedSucceedsIff | contracts/kani-poc/src/lib.rs:104-115 | the checked transfer succeeds iff the amount is positive, the sender holds it and the receiver does not overflow, and then moves exactly the amount |
| TokenBalances.MintAdds | contracts/kani-poc/src/lib.rs:35-40 | mint succeeds iff the amount is positive and the sum fits, and adds exactly the amount |
| TokenBalances.Mint | contracts/kani-poc/src/lib.rs:35-40 | `mint_pure`: the new balance, or the refusal (MintAdds states it) |
| TokenBalances.BurnSubtracts | contracts/kani-poc/src/lib.rs:43-50 | burn succeeds iff the amount is positive and the difference fits, and subtracts exactly the amount |
| TokenBalances.Burn | contracts/kani-poc/src/lib.rs:43-50 | `burn_pure`: the new balance, or the refusal (BurnSubtracts states it) |
| TokenBalances.BurnAllowsNegative | contracts/kani-poc/src/lib.rs:43-50 | burning 5 from an empty balance succeeds with −5 |
| TokenBalances.BurnChecked | contracts/kani-poc/src/lib.rs:43-50 | a burn that refuses to go below zero: a balance below the amount is refused; every other input gets the plain burn's answer, and any success is non-negative |
| TokenBalances.BurnCheckedSucceedsIff | contracts/kani-poc/src/lib.rs:43-50 | the checked burn succeeds iff the amount is positive and at most the balance, and then subtracts exactly the amount |
| TokenBalances.MintThenBurnRestores | contracts/kani-poc/src/lib.rs:35-50 | burning what was just minted restores the balance |
| TokenBalances.ContractTransfer | contracts/kani-poc/src/lib.rs:61-63 | the contract's wrapper returns balances iff the pure transfer succeeds, and then exactly the pure transfer's pair, which keeps the sum |

## Left out

- Parsing and token rendering (`syn::parse_str`, `quote!`). The tree is the input.
  - Rendered text is a field of the node: a method call's text, a macro's tokens, a function's text.
  - `count_loc`'s input is a function's rendered text, and the model counts its lines (`CountLoc`); what `quote!` prints is not modelled.
- `with_panic_guard` and `catch_unwind` (tooling/sanctifier-core/src/lib.rs:14-23, 265-274). Every model function is total, and a parse failure is `None`.
- `f64` arithmetic in the ledger thresholds. `approaching_threshold` is an exact `real`, and the float-to-integer truncations at lib.rs:517, 528 and 530 are not modelled.
- `analyze_ledger_size_impl` (tooling/sanctifier-core/src/lib.rs:515-580) does not compile as written: it has nested `if let` blocks with conflicting `classify_size` arguments.
  - The model takes one coherent reading: `classify_size(size, limit, approaching_threshold, strict_mode, limit / 2)`, and it pushes a warning iff a level comes back.
  - The duplicated `approaching_threshold` field (lib.rs:192-196) is a single field.
- `analyze_custom_rules` (regular expressions): the regex engine is not part of this model.
- `analyze_upgrade_patterns` has two conflicting definitions (lib.rs:584-626, 745-788), so it is not modelled.
  - `is_init_fn` and `is_upgrade_or_admin_fn` are modelled (`Naming`).
- `scan_events`: it depends on types that the repository does not define.
- The stub `check_storage_collisions` (lib.rs:503-505) always answers `false`, so it is not modelled.
- `SanctifiedGuard`, `Error`, and the `TokenContract::set_admin` host call: they need the Soroban host.
- The report renderers in complexity.rs (218-349) are pure formatting. All command-line code is also left out.
- Machine widths of the analyzer's counters (`u32`, `usize`) are unbounded `nat`, so wrap-around in the gas and complexity counters is not modelled.
  - The AMM and token modules do model u128 and i128 bounds exactly.
- Complexity.Truncate: counts characters, not UTF-8 bytes.
  - The source compares byte length and slices at byte `max - 1`; it panics on a non-character boundary and when `max` is 0 for a non-empty string.
  - The model requires `max ≥ 1` whenever the string does not fit.
- StorageCollision.StorageVisitor.FinalCheck: the `HashMap` iteration order is the parameter `order`, so it does not model one particular hash order.
  - Every property proved about the issues (counts per value, messages) holds for every order.
- Complexity.AnalyzeFn: the parameter count is the number of signature inputs, held as a field of the function.
  - The signature itself is not modelled.
- Text.ToLower: lower-cases ASCII letters only. The source's `to_lowercase` (lib.rs:122) is Unicode-aware: the KELVIN SIGN becomes `k` and `İ` becomes two characters. The model keeps every other character unchanged, so a name that only Unicode lower-casing makes an admin or init name is not recognised.
- AmmPool.LiquidityMint: the first deposit takes the corrected floor root. The mint as written is `LiquidityMintAsWritten`, which panics on a first deposit whose product is u128::MAX; `MintAsWrittenAgrees` proves the two agree everywhere else.
- Walk.Children: the tree holds no expressions inside types (array lengths, const generic arguments), enum discriminants, attribute values, patterns or macros in item position, so an operator, call or macro written there is not reached by the visitors.
- UnsafePatterns.PatternAt: the tree holds macros only in expression and statement position, so a `panic!` that `visit_macro` would meet elsewhere (in item position, say) is not represented.

## Findings

| source | as written | input that shows it | evidently intended | confidence | as-written member | corrected member |
|---|---|---|---|---|---|---|
| contracts/amm-pool/src/lib.rs:161 | `integer_sqrt` seeds Newton's method with `(x + 1) / 2`, which overflows a u128 | n = u128::MAX, reached by a first deposit of u128::MAX and 1 | the floor square root for every u128, with a seed that cannot overflow such as `n / 2 + n % 2` | not executed; high | AmmPool.NewtonSeedOverflowsOnlyAtMax | AmmPool.IntegerSqrt |
| contracts/amm-pool/src/lib.rs:76 | the first deposit calls `integer_sqrt(product)`, which panics on the overflowing seed | reserves (0, 0), amounts u128::MAX and 1, total supply 0 | mint the floor root 2^64 − 1 | not executed; high | AmmPool.FirstDepositPanicsAsWritten | AmmPool.FirstMintIsGeometricMean |
| contracts/kani-poc/src/lib.rs:104-115 | the Kani proof asserts that a sender holding less than the amount is refused, but `checked_sub` on i128 only fails below i128::MIN | balances (0, 0), amount 5: Ok((−5, 5)) | an overdraft is refused with "Insufficient balance" | not executed; high | TokenBalances.TransferAllowsOverdraft | TokenBalances.TransferChecked |
| contracts/kani-poc/src/lib.rs:43-50 | `burn_pure` reports "Insufficient balance to burn" only on i128 underflow | balance 0, amount 5: Ok(−5) | a burn larger than the balance is refused | not executed; medium | TokenBalances.BurnAllowsNegative | TokenBalances.BurnChecked |
| contracts/amm-pool/tests/proptest_amm.rs:40 | the property asserts every successful swap output is positive | reserves (2, 1), amount 1, fee 0: Ok(0) | a zero output is refused (or the property drops the claim) | not executed; high | AmmPool.SwapCanPayNothing | AmmPool.SwapOutputNonZero |
| contracts/amm-pool/tests/proptest_amm.rs:88 | the property asserts a strictly larger output for a larger input | reserves (999999, 1000), fee 0, amounts 4999 and 5001: both 4 | output never decreases as the input grows | not executed; high | AmmPool.SwapNotStrictlyMonotone | AmmPool.SwapMonotoneInAmount |
| contracts/amm-pool/tests/proptest_amm.rs:340 | the property asserts a strictly smaller output under fee 9999 than under fee 30 | reserves (999999, 1000), amount 100: both 0 | output never increases as the fee grows | not executed; high | AmmPool.HighFeeNotStrictlyLower | AmmPool.SwapMonotoneInFee |
| tooling/sanctifier-core/src/tests/complexity_tests.rs:65 | the test expects `param_count == 7` ("env + 6") for a signature with six inputs | `many_params(env, a, b, c, d, e)`: six parameters | `param_count == 6`, with the parameters warning | not executed; high | Complexity.ManyParamsCountsSix | Complexity.ManyParamsWarned |
