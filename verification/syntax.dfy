// The parsed Rust syntax tree that every Sanctifier detector walks.
//
// Only the shapes the detectors look at are distinguished; everything else
// is an `Other…` constructor that still carries its sub-expressions, so the
// generic walk in walk.dfy reaches them. Text that the analyzer obtains by
// re-rendering a node with `quote!` is a field supplied by the front end.

module Results {
  datatype Option<T> = None | Some(value: T)

  datatype Result<T, E> = Ok(value: T) | Err(error: E)
}

module Syntax {
  import opened Results

  /** A generic argument inside `<…>`: only type arguments matter. */
  datatype GenericArg = TypeArg(ty: Type) | OtherArg

  datatype PathArguments = NoArgs | AngleBracketed(args: seq<GenericArg>) | Parenthesized

  datatype Segment = Segment(ident: string, arguments: PathArguments)

  /** `len` is the array length when it is an integer literal that fits a `usize`. */
  datatype Type =
    | PathType(segments: seq<Segment>)
    | ArrayType(elem: Type, len: Option<nat>)
    | OtherType

  /** `#[path]` attributes are `PathAttr`; list and name-value attributes are `OtherAttr`. */
  datatype Attr = PathAttr(segments: seq<string>) | OtherAttr

  datatype Literal = Str(text: string) | Int(digits: nat) | OtherLit

  datatype BinOp =
    | Add | Sub | Mul | Div | Rem | And | Or
    | BitXor | BitAnd | BitOr | Shl | Shr
    | Eq | Lt | Le | Ne | Ge | Gt
    | AddAssign | SubAssign | MulAssign | DivAssign | RemAssign
    | BitXorAssign | BitAndAssign | BitOrAssign | ShlAssign | ShrAssign

  /**
   * A macro invocation `path!(tokens)`. `tokens` is the rendered token
   * stream between the delimiters, `text` the rendering of the whole
   * invocation and `line` the line where it starts.
   */
  datatype MacroCall = MacroCall(path: seq<string>, tokens: string, text: string, line: nat)

  /** True when a path is the single identifier `name` (syn's `Path::is_ident`). */
  predicate IsIdent(path: seq<string>, name: string)
  {
    path == [name]
  }

  datatype Expr =
    | Call(func: Expr, args: seq<Expr>, line: nat)
      /** `text` is the rendering of the whole method call. */
    | MethodCall(receiver: Expr, methodName: string, args: seq<Expr>, text: string)
    | MacroExpr(mac: MacroCall)
    | BlockExpr(block: Block)
    | If(cond: Expr, thenBranch: Block, elseBranch: Option<Expr>)
    | Match(scrutinee: Expr, arms: seq<Arm>)
      /** `line` is the line where the left operand starts. */
    | Binary(op: BinOp, left: Expr, right: Expr, line: nat)
    | Lit(lit: Literal)
    | Path(path: seq<string>)
    | ForLoop(iter: Expr, body: Block)
    | While(cond: Expr, body: Block)
    | Loop(body: Block)
    | Closure(closureBody: Expr)
    | OtherExpr(children: seq<Expr>)

  datatype Arm = Arm(guard: Option<Expr>, armBody: Expr)

  datatype Block = Block(stmts: seq<Stmt>)

  /**
   * `let` binds with an optional type, an optional initializer and, for
   * `let … else`, the diverging `else` expression.
   */
  datatype Stmt =
    | Local(ty: Option<Type>, init: Option<Expr>, diverge: Option<Expr> := None)
    | ExprStmt(expr: Expr)
    | MacroStmt(mac: MacroCall)
    | ItemStmt(item: Item)

  /**
   * A function: its name, whether it is `pub`, the number of inputs in its
   * signature, its body and the rendering of the whole function (which the
   * line count of the complexity report is taken from).
   */
  datatype FnDecl = FnDecl(name: string, isPub: bool, paramCount: nat, body: Block, text: string)

  /** A member of an `impl` block: a method, an associated `const` with its value, or anything else. */
  datatype ImplItem = ImplFn(f: FnDecl) | ImplConst(implConstValue: Expr) | ImplOther

  /** A member of a `trait`: a method with its default body, if any, a `const` with its default value, if any. */
  datatype TraitItem = TraitFn(defaultBody: Option<Block>) | TraitConst(constDefault: Option<Expr>) | TraitOther

  datatype Item =
    | Struct(structName: string, structAttrs: seq<Attr>, fields: seq<Type>)
    | Enum(enumName: string, enumAttrs: seq<Attr>, variants: seq<seq<Type>>)
    | Fn(f: FnDecl)
    | Impl(implItems: seq<ImplItem>)
    | Const(constName: string, value: Expr, line: nat)
    | Static(staticValue: Expr)
      /** An inline module `mod m { … }`; `mod m;` without a body has no items. */
    | Mod(modItems: seq<Item>)
    | Trait(traitItems: seq<TraitItem>)
    | Use
    | ExternCrate
    | OtherItem

  datatype File = File(items: seq<Item>)
}
