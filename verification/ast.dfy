// Expression, statement and declaration nodes of the AST
// (compiler/src/ast/nodes/expression.h/.cc, statement.cc, declaration.cc,
// ast_node.h): per-kind equality, clone, the result-type slot and the
// Mangled mixin.
//
// Several comparisons in the source compare pointers rather than values
// (an optional `const Expression*` compared with std::equal_to, a vector of
// unique_ptr compared with ==, UnqualifiedID's prefix). On two separately
// built trees those comparisons fail whenever both pointers are present.
// Each equality below therefore takes a flag `asWritten`: true gives the
// source's behaviour on two distinct trees, false the evidently intended
// value comparison. The clone takes the same flag.
module Ast {
  import opened Basics
  import opened Ids
  import opened SourceLocs
  import Types
  import Misc

  type Type = Types.Type

  /** ExprType, plus the implicit-conversion node the type checker inserts. */
  datatype ExprKind =
    | StringLitKind | IntegerLitKind | FloatLitKind | BoolLitKind | CharLitKind | NilLitKind
    | GroupKind | IdentifierKind | UnqualifiedIdentifierKind | LocalIdentifierKind | BlockKind
    | CallKind | StaticCallKind | MethodCallKind | IndexKind | FieldAccessKind | UnaryKind
    | BinaryKind | CastKind | IfThenKind | IfElseKind | LoopKind | WhileKind | ForKind
    | ReturnKind | BreakKind | ContinueKind | ErrorKind | StructKind | ImplicitConversionKind

  datatype UnaryOp = LogicalNot | BitwiseNot | RefTo | MutRefTo | Negate | Dereference

  datatype BinaryOp =
    | Mul | Div | Mod | Add | Sub | Lt | Gt | LtEq | GtEq | Equals | NotEqual
    | LeftShift | RightShift | BitwiseAnd | BitwiseOr | BitwiseXor
    | LogicalAnd | LogicalOr | LogicalXor
    | Assignment | AddEq | SubEq | MulEq | DivEq | ModEq | LeftShiftEq | RightShiftEq
    | BitwiseAndEq | BitwiseOrEq | BitwiseXorEq

  datatype ForDirection = UpTo | DownTo

  /** One segment of a nested generic id: `Foo` and its parameters in `::Foo<i32>`. */
  datatype NestedGenericID = NestedGenericID(name: string, ids: seq<Type>)

  /**
   * An expression: where it was written, its kind-specific data, and the
   * result-type slot the type checker fills in.
   */
  datatype Expr = Expr(loc: SourceLoc, node: ExprNode, result: Option<Type>)

  /**
   * Kind-specific data. A float literal's value is kept as an opaque number;
   * a static call refers to its overload by an identity `overload`.
   */
  datatype ExprNode =
    | StringLit(text: string)
    | IntegerLit(intValue: nat)
    | FloatLit(floatValue: int, strLen: nat)
    | BoolLit(flag: bool)
    | CharLit(code: nat)
    | NilLit
    | Group(inner: Expr)
    | Identifier(id: QualifiedName, generics: seq<Type>, nested: Option<seq<NestedGenericID>>)
    | UnqualifiedIdentifier(uid: UnqualifiedID, generics: seq<Type>, nested: Option<seq<NestedGenericID>>)
    | LocalIdentifier(name: string)
    | Block(statements: seq<Stmt>)
    | Call(callee: Expr, args: seq<Expr>, generics: seq<Type>)
    | StaticCall(overload: nat, id: QualifiedName, args: seq<Expr>, generics: seq<Type>)
    | MethodCall(receiver: Expr, methodName: string, args: seq<Expr>, generics: seq<Type>)
    | Index(callee: Expr, args: seq<Expr>)
    | FieldAccess(receiver: Expr, fieldName: string)
    | Unary(uop: UnaryOp, inner: Expr)
    | Binary(bop: BinaryOp, lhs: Expr, rhs: Expr)
    | Cast(unsafe: bool, castee: Expr, castTo: Type)
    | IfThen(condition: Expr, trueBranch: Expr, falseBranch: Expr)
    | IfElse(condition: Expr, block: Expr, elifs: seq<ElifBlock>, elseBlock: Option<Expr>)
    | Loop(body: Expr)
    | While(condition: Expr, body: Expr)
    | For(loopVariable: string, direction: ForDirection, init: Expr, last: Expr, body: Expr)
    | Return(value: Option<Expr>)
    | Break(value: Option<Expr>)
    | Continue
    | ErrorExpr
    | Struct(structType: Type, fields: seq<FieldInitializer>)
    | ImplicitConversion(inner: Expr, castTo: Type)

  datatype ElifBlock = ElifBlock(condition: Expr, block: Expr)

  datatype FieldInitializer = FieldInitializer(loc: SourceLoc, name: string, init: Expr)

  /** A statement: its location and kind-specific data. */
  datatype Stmt = Stmt(loc: SourceLoc, node: StmtNode)

  datatype StmtNode =
    | Binding(name: string, mut: bool, initializer: Expr, hint: Option<Type>)
    | Assert(assertion: Expr, message: Expr)
    | ExpressionStmt(expr: Expr)

  /** Expression::type(). */
  function Kind(n: ExprNode): ExprKind
  {
    match n
    case StringLit(_) => StringLitKind
    case IntegerLit(_) => IntegerLitKind
    case FloatLit(_, _) => FloatLitKind
    case BoolLit(_) => BoolLitKind
    case CharLit(_) => CharLitKind
    case NilLit => NilLitKind
    case Group(_) => GroupKind
    case Identifier(_, _, _) => IdentifierKind
    case UnqualifiedIdentifier(_, _, _) => UnqualifiedIdentifierKind
    case LocalIdentifier(_) => LocalIdentifierKind
    case Block(_) => BlockKind
    case Call(_, _, _) => CallKind
    case StaticCall(_, _, _, _) => StaticCallKind
    case MethodCall(_, _, _, _) => MethodCallKind
    case Index(_, _) => IndexKind
    case FieldAccess(_, _) => FieldAccessKind
    case Unary(_, _) => UnaryKind
    case Binary(_, _, _) => BinaryKind
    case Cast(_, _, _) => CastKind
    case IfThen(_, _, _) => IfThenKind
    case IfElse(_, _, _, _) => IfElseKind
    case Loop(_) => LoopKind
    case While(_, _) => WhileKind
    case For(_, _, _, _, _) => ForKind
    case Return(_) => ReturnKind
    case Break(_) => BreakKind
    case Continue => ContinueKind
    case ErrorExpr => ErrorKind
    case Struct(_, _) => StructKind
    case ImplicitConversion(_, _) => ImplicitConversionKind
  }

  /** The error expression, always made at the nonexistent location. */
  const TheErrorExpr := Expr(Nonexistent, ErrorExpr, None)

  // ---- equality ----

  /** NestedGenericID's and NestedGenericIDList's operator==. */
  predicate NestedEqual(xs: seq<NestedGenericID>, ys: seq<NestedGenericID>)
  {
    |xs| == |ys|
    && forall i :: 0 <= i < |xs| ==> xs[i].name == ys[i].name && Types.ElementwiseEqual(xs[i].ids, ys[i].ids)
  }

  /** The unwrapping_equal of two optional nested id lists. */
  predicate OptNestedEqual(a: Option<seq<NestedGenericID>>, b: Option<seq<NestedGenericID>>)
  {
    if a.Some? && b.Some? then NestedEqual(a.value, b.value) else a.Some? == b.Some?
  }

  /** Unqualified ids: by value, or with the prefix compared as a pointer as written. */
  predicate UnqualifiedIdEqual(asWritten: bool, a: UnqualifiedID, b: UnqualifiedID)
  {
    if asWritten then UnqualifiedEqualAsWritten(a, b, false) else UnqualifiedEqual(a, b)
  }

  /**
   * Expression's operator==: the error expression equals everything;
   * otherwise internal_equals, which first requires the same kind.
   */
  predicate Equal(asWritten: bool, a: Expr, b: Expr)
    decreases a
  {
    if a.node.ErrorExpr? || b.node.ErrorExpr? then true
    else InternalEqual(asWritten, a.node, b.node)
  }

  /** type() == type() && internal_equals, per kind. */
  predicate InternalEqual(asWritten: bool, n: ExprNode, m: ExprNode)
    decreases n
  {
    match n
    case StringLit(t) => m.StringLit? && t == m.text
    case IntegerLit(v) => m.IntegerLit? && v == m.intValue
    case FloatLit(v, l) => m.FloatLit? && v == m.floatValue && l == m.strLen
    case BoolLit(v) => m.BoolLit? && v == m.flag
    case CharLit(v) => m.CharLit? && v == m.code
    case NilLit => m.NilLit?
    case Group(e) => m.Group? && Equal(asWritten, e, m.inner)
    case Identifier(id, g, nested) =>
      m.Identifier? && QualifiedEqual(id, m.id) && Types.ElementwiseEqual(g, m.generics)
      && OptNestedEqual(nested, m.nested)
    case UnqualifiedIdentifier(uid, g, nested) =>
      m.UnqualifiedIdentifier? && UnqualifiedIdEqual(asWritten, uid, m.uid)
      && Types.ElementwiseEqual(g, m.generics) && OptNestedEqual(nested, m.nested)
    case LocalIdentifier(name) => m.LocalIdentifier? && name == m.name
    case Block(stmts) => m.Block? && StmtsEqual(asWritten, stmts, m.statements)
    case Call(callee, args, g) =>
      m.Call? && Equal(asWritten, callee, m.callee) && ExprsEqual(asWritten, args, m.args)
      && Types.ElementwiseEqual(g, m.generics)
    case StaticCall(overload, _, args, g) =>
      m.StaticCall? && (asWritten || overload == m.overload)
      && ExprsEqual(asWritten, args, m.args) && Types.ElementwiseEqual(g, m.generics)
    case MethodCall(receiver, name, args, g) =>
      m.MethodCall? && Equal(asWritten, receiver, m.receiver) && name == m.methodName
      && ExprsEqual(asWritten, args, m.args) && Types.ElementwiseEqual(g, m.generics)
    case Index(callee, args) => m.Index? && Equal(asWritten, callee, m.callee) && ExprsEqual(asWritten, args, m.args)
    case FieldAccess(receiver, name) => m.FieldAccess? && Equal(asWritten, receiver, m.receiver) && name == m.fieldName
    case Unary(op, e) => m.Unary? && op == m.uop && Equal(asWritten, e, m.inner)
    case Binary(op, l, r) => m.Binary? && op == m.bop && Equal(asWritten, l, m.lhs) && Equal(asWritten, r, m.rhs)
    case Cast(unsafe, e, t) =>
      m.Cast? && unsafe == m.unsafe && Equal(asWritten, e, m.castee) && Types.Equal(t, m.castTo)
    case IfThen(c, t, f) =>
      m.IfThen? && Equal(asWritten, c, m.condition) && Equal(asWritten, t, m.trueBranch)
      && Equal(asWritten, f, m.falseBranch)
    case IfElse(c, block, elifs, elseBlock) =>
      m.IfElse? && Equal(asWritten, c, m.condition) && Equal(asWritten, block, m.block)
      && ElifsEqual(asWritten, elifs, m.elifs) && OptEqual(asWritten, elseBlock, m.elseBlock)
    case Loop(body) => m.Loop? && Equal(asWritten, body, m.body)
    case While(c, body) => m.While? && Equal(asWritten, c, m.condition) && Equal(asWritten, body, m.body)
    case For(v, d, init, last, body) =>
      m.For? && v == m.loopVariable && d == m.direction && Equal(asWritten, init, m.init)
      && Equal(asWritten, last, m.last) && Equal(asWritten, body, m.body)
    case Return(v) => m.Return? && OptEqual(asWritten, v, m.value)
    case Break(v) => m.Break? && OptEqual(asWritten, v, m.value)
    case Continue => m.Continue?
    case ErrorExpr => m.ErrorExpr?
    case Struct(t, fields) => m.Struct? && Types.Equal(t, m.structType) && FieldsEqual(asWritten, fields, m.fields)
    case ImplicitConversion(e, t) => m.ImplicitConversion? && Equal(asWritten, e, m.inner) && Types.Equal(t, m.castTo)
  }

  /**
   * unwrapping_equal over two optional children. As written the children are
   * compared as pointers, which differ between two distinct trees.
   */
  predicate OptEqual(asWritten: bool, a: Option<Expr>, b: Option<Expr>)
    decreases a
  {
    if a.Some? && b.Some? then !asWritten && Equal(asWritten, a.value, b.value)
    else a.Some? == b.Some?
  }

  /** std::equal over two expression lists, dereferencing. */
  predicate ExprsEqual(asWritten: bool, xs: seq<Expr>, ys: seq<Expr>)
    decreases xs
  {
    if |xs| == 0 || |ys| == 0 then |xs| == |ys|
    else Equal(asWritten, xs[0], ys[0]) && ExprsEqual(asWritten, xs[1..], ys[1..])
  }

  predicate ElifsEqual(asWritten: bool, xs: seq<ElifBlock>, ys: seq<ElifBlock>)
    decreases xs
  {
    if |xs| == 0 || |ys| == 0 then |xs| == |ys|
    else ElifEqual(asWritten, xs[0], ys[0]) && ElifsEqual(asWritten, xs[1..], ys[1..])
  }

  /** ElifBlock's operator==: condition and block. */
  predicate ElifEqual(asWritten: bool, a: ElifBlock, b: ElifBlock)
    decreases a
  {
    Equal(asWritten, a.condition, b.condition) && Equal(asWritten, a.block, b.block)
  }

  /** FieldInitializer's operator== is name and initializer, element by element. */
  predicate FieldsEqual(asWritten: bool, xs: seq<FieldInitializer>, ys: seq<FieldInitializer>)
    decreases xs
  {
    if |xs| == 0 || |ys| == 0 then |xs| == |ys|
    else
      xs[0].name == ys[0].name && Equal(asWritten, xs[0].init, ys[0].init)
      && FieldsEqual(asWritten, xs[1..], ys[1..])
  }

  /** Statement's operator==: same kind and internal_equals. */
  predicate StmtEqual(asWritten: bool, a: Stmt, b: Stmt)
    decreases a
  {
    match a.node
    case Binding(name, _, init, hint) =>
      b.node.Binding? && name == b.node.name
      && Misc.UnwrappingEqual(hint, b.node.hint, Types.Equal)
      && Equal(asWritten, init, b.node.initializer)
    case Assert(assertion, message) =>
      b.node.Assert? && Equal(asWritten, assertion, b.node.assertion) && Equal(asWritten, message, b.node.message)
    case ExpressionStmt(e) => b.node.ExpressionStmt? && Equal(asWritten, e, b.node.expr)
  }

  predicate StmtsEqual(asWritten: bool, xs: seq<Stmt>, ys: seq<Stmt>)
    decreases xs
  {
    if |xs| == 0 || |ys| == 0 then |xs| == |ys|
    else StmtEqual(asWritten, xs[0], ys[0]) && StmtsEqual(asWritten, xs[1..], ys[1..])
  }

  /** Expression::fully_equals: equal, and written at the same place. */
  predicate FullyEquals(asWritten: bool, a: Expr, b: Expr)
  {
    Equal(asWritten, a, b) && a.loc == b.loc
  }

  /** ContinueExpression::internal_equals reads the other node as a return expression. */
  function ContinueDebugCast(other: ExprNode): (r: Option<bool>)
    requires other.Continue?
    ensures r.None?
  {
    if other.Return? then Some(true) else None
  }

  // ---- equality laws (intended equality) ----

  /** With values compared throughout, every expression equals itself. */
  lemma {:induction false} EqualReflexive(e: Expr)
    ensures Equal(false, e, e)
    decreases e
  {
    InternalReflexive(e.node);
  }

  lemma {:induction false} InternalReflexive(n: ExprNode)
    ensures Kind(n) == Kind(n) && InternalEqual(false, n, n)
    decreases n, 1
  {
    if n.Identifier? || n.UnqualifiedIdentifier? || n.Call? || n.StaticCall? || n.MethodCall? || n.Index? {
      CallReflexive(n);
    } else if n.IfThen? || n.IfElse? {
      BranchReflexive(n);
    } else if n.Loop? || n.While? || n.For? || n.Return? || n.Break? {
      LoopReflexive(n);
    } else {
      match n
      case Group(e) => EqualReflexive(e);
      case Block(stmts) => StmtsReflexive(stmts);
      case FieldAccess(receiver, _) => EqualReflexive(receiver);
      case Unary(_, e) => EqualReflexive(e);
      case Binary(_, l, r) =>
        EqualReflexive(l);
        EqualReflexive(r);
      case Cast(_, e, t) =>
        EqualReflexive(e);
        Types.EqualReflexive(t);
      case Struct(t, fields) =>
        Types.EqualReflexive(t);
        FieldsReflexive(fields);
      case ImplicitConversion(e, t) =>
        EqualReflexive(e);
        Types.EqualReflexive(t);
      case _ =>
    }
  }

  /** The identifier, call and index nodes. */
  lemma {:induction false} CallReflexive(n: ExprNode)
    requires n.Identifier? || n.UnqualifiedIdentifier? || n.Call? || n.StaticCall? || n.MethodCall? || n.Index?
    ensures InternalEqual(false, n, n)
    decreases n, 0
  {
    match n
    case Identifier(_, g, nested) =>
      Types.ElementwiseReflexive(g);
      NestedReflexive(nested);
    case UnqualifiedIdentifier(uid, g, nested) =>
      UnqualifiedEqualIsValueEquality(uid, uid);
      Types.ElementwiseReflexive(g);
      NestedReflexive(nested);
    case Call(callee, args, g) =>
      EqualReflexive(callee);
      ExprsReflexive(args);
      Types.ElementwiseReflexive(g);
    case StaticCall(_, _, args, g) =>
      ExprsReflexive(args);
      Types.ElementwiseReflexive(g);
    case MethodCall(receiver, _, args, g) =>
      EqualReflexive(receiver);
      ExprsReflexive(args);
      Types.ElementwiseReflexive(g);
    case Index(callee, args) =>
      EqualReflexive(callee);
      ExprsReflexive(args);
  }

  /** The branching nodes. */
  lemma {:induction false} BranchReflexive(n: ExprNode)
    requires n.IfThen? || n.IfElse?
    ensures InternalEqual(false, n, n)
    decreases n, 0
  {
    match n
    case IfThen(c, t, f) =>
      EqualReflexive(c);
      EqualReflexive(t);
      EqualReflexive(f);
    case IfElse(c, block, elifs, elseBlock) =>
      EqualReflexive(c);
      EqualReflexive(block);
      ElifsReflexive(elifs);
      if elseBlock.Some? {
        EqualReflexive(elseBlock.value);
      }
  }

  /** The looping and jumping nodes. */
  lemma {:induction false} LoopReflexive(n: ExprNode)
    requires n.Loop? || n.While? || n.For? || n.Return? || n.Break?
    ensures InternalEqual(false, n, n)
    decreases n, 0
  {
    match n
    case Loop(body) => EqualReflexive(body);
    case While(c, body) =>
      EqualReflexive(c);
      EqualReflexive(body);
    case For(_, _, init, last, body) =>
      EqualReflexive(init);
      EqualReflexive(last);
      EqualReflexive(body);
    case Return(v) =>
      if v.Some? {
        EqualReflexive(v.value);
      }
    case Break(v) =>
      if v.Some? {
        EqualReflexive(v.value);
      }
  }

  lemma NestedReflexive(nested: Option<seq<NestedGenericID>>)
    ensures OptNestedEqual(nested, nested)
  {
    if nested.Some? {
      forall i | 0 <= i < |nested.value| ensures Types.ElementwiseEqual(nested.value[i].ids, nested.value[i].ids) {
        Types.ElementwiseReflexive(nested.value[i].ids);
      }
    }
  }

  lemma {:induction false} ExprsReflexive(xs: seq<Expr>)
    ensures ExprsEqual(false, xs, xs)
    decreases xs
  {
    if |xs| > 0 {
      EqualReflexive(xs[0]);
      ExprsReflexive(xs[1..]);
    }
  }

  lemma {:induction false} ElifsReflexive(xs: seq<ElifBlock>)
    ensures ElifsEqual(false, xs, xs)
    decreases xs
  {
    if |xs| > 0 {
      ElifReflexive(xs[0]);
      ElifsReflexive(xs[1..]);
    }
  }

  lemma {:induction false} ElifReflexive(x: ElifBlock)
    ensures ElifEqual(false, x, x)
    decreases x
  {
    EqualReflexive(x.condition);
    EqualReflexive(x.block);
  }

  lemma {:induction false} FieldsReflexive(xs: seq<FieldInitializer>)
    ensures FieldsEqual(false, xs, xs)
    decreases xs
  {
    if |xs| > 0 {
      EqualReflexive(xs[0].init);
      FieldsReflexive(xs[1..]);
    }
  }

  lemma {:induction false} StmtReflexive(s: Stmt)
    ensures StmtEqual(false, s, s)
    decreases s
  {
    match s.node
    case Binding(_, _, init, hint) =>
      EqualReflexive(init);
      if hint.Some? {
        Types.EqualReflexive(hint.value);
      }
    case Assert(assertion, message) =>
      EqualReflexive(assertion);
      EqualReflexive(message);
    case ExpressionStmt(e) => EqualReflexive(e);
  }

  lemma {:induction false} StmtsReflexive(xs: seq<Stmt>)
    ensures StmtsEqual(false, xs, xs)
    decreases xs
  {
    if |xs| > 0 {
      StmtReflexive(xs[0]);
      StmtsReflexive(xs[1..]);
    }
  }

  /** The error expression equals every expression, so equality is not transitive. */
  lemma EqualNotTransitive(asWritten: bool)
    ensures var one := Expr(Nonexistent, IntegerLit(1), None);
            var two := Expr(Nonexistent, IntegerLit(2), None);
            Equal(asWritten, one, TheErrorExpr) && Equal(asWritten, TheErrorExpr, two) && !Equal(asWritten, one, two)
  {
  }

  // ---- findings on equality as written ----

  /** As written, a static call's callee is compared with itself, so calls to different overloads are equal. */
  lemma StaticCallIgnoresCallee(l: SourceLoc, id: QualifiedName)
    ensures var a := Expr(l, StaticCall(0, id, [], []), None);
            var b := Expr(l, StaticCall(1, id, [], []), None);
            Equal(true, a, b) && !Equal(false, a, b)
  {
  }

  /** As written, a return with a value never equals a separately built copy of itself. */
  lemma ReturnValueComparedByPointer(l: SourceLoc, v: Expr)
    ensures var r := Expr(l, Return(Some(v)), None);
            !Equal(true, r, r) && Equal(false, r, r)
  {
    assert !OptEqual(true, Some(v), Some(v));
    EqualReflexive(Expr(l, Return(Some(v)), None));
  }

  /** As written, an if-else with an else block never equals a separately built copy of itself. */
  lemma ElseBlockComparedByPointer(l: SourceLoc, c: Expr, block: Expr, elseBlock: Expr)
    ensures var e := Expr(l, IfElse(c, block, [], Some(elseBlock)), None);
            !Equal(true, e, e) && Equal(false, e, e)
  {
    assert !OptEqual(true, Some(elseBlock), Some(elseBlock));
    EqualReflexive(Expr(l, IfElse(c, block, [], Some(elseBlock)), None));
  }

  /** Comparing two continue expressions fails the debug cast to a return expression. */
  lemma ContinueEqualityFailsDebugCast()
    ensures ContinueDebugCast(Continue).None?
  {
  }

  // ---- accessors ----

  /** StringLiteralExpression::text_unquoted: the text without its first and last character. */
  function TextUnquoted(text: string): (r: string)
    requires |text| >= 1
    ensures |text| >= 2 ==> text == [text[0]] + r + [text[|text| - 1]]
    ensures |text| < 2 ==> r == ""
  {
    if |text| >= 2 then text[1..|text| - 1] else ""
  }

  /** A quoted literal unquotes to what was quoted. */
  lemma UnquoteQuoted(s: string)
    ensures TextUnquoted("\"" + s + "\"") == s
  {
    var q := "\"" + s + "\"";
    assert q[1..|q| - 1] == s;
  }

  /** IfElseExpression::is_evaluable: an else block is present. */
  predicate IsEvaluable(n: ExprNode)
    requires n.IfElse?
  {
    n.elseBlock.Some?
  }

  /** IfElseExpression::else_block: the else block when the expression is evaluable, none otherwise. */
  function ElseBlock(n: ExprNode): (r: Option<Expr>)
    requires n.IfElse?
    ensures r.Some? <==> IsEvaluable(n)
    ensures r.Some? ==> r == n.elseBlock
  {
    if IsEvaluable(n) then n.elseBlock else None
  }

  /** generic_params() of identifiers and calls: absent exactly when the list is empty. */
  function GenericParams(n: ExprNode): (r: Option<seq<Type>>)
    requires n.Identifier? || n.UnqualifiedIdentifier? || n.Call? || n.StaticCall? || n.MethodCall?
    ensures r.None? <==> |n.generics| == 0
    ensures r.Some? ==> r.value == n.generics
  {
    Types.GenericParams(n.generics)
  }

  // ---- clone ----

  /**
   * Expression::clone. The copy keeps the location and the kind-specific
   * data, children cloned in turn. As written a break clones to a return
   * expression, and the copy never has a result type: the guard that should
   * copy it reads the copy's own slot, which the constructor left empty.
   * Intended: the break stays a break and the result type is copied.
   */
  function CloneExpr(asWritten: bool, e: Expr): (c: Expr)
    ensures c.loc == e.loc
    ensures asWritten ==> c.result.None?
    decreases e
  {
    Expr(e.loc, InternalClone(asWritten, e.node), if asWritten then None else e.result)
  }

  function InternalClone(asWritten: bool, n: ExprNode): ExprNode
    decreases n
  {
    match n
    case Group(e) => Group(CloneExpr(asWritten, e))
    case Block(stmts) => Block(CloneStmts(asWritten, stmts))
    case Call(callee, args, g) => Call(CloneExpr(asWritten, callee), CloneExprs(asWritten, args), Types.CloneAll(g))
    case StaticCall(o, id, args, g) => StaticCall(o, id, CloneExprs(asWritten, args), Types.CloneAll(g))
    case MethodCall(receiver, name, args, g) =>
      MethodCall(CloneExpr(asWritten, receiver), name, CloneExprs(asWritten, args), Types.CloneAll(g))
    case Identifier(id, g, nested) => Identifier(id, Types.CloneAll(g), nested)
    case UnqualifiedIdentifier(uid, g, nested) => UnqualifiedIdentifier(uid, Types.CloneAll(g), nested)
    case Index(callee, args) => Index(CloneExpr(asWritten, callee), CloneExprs(asWritten, args))
    case FieldAccess(receiver, name) => FieldAccess(CloneExpr(asWritten, receiver), name)
    case Unary(op, e) => Unary(op, CloneExpr(asWritten, e))
    case Binary(op, l, r) => Binary(op, CloneExpr(asWritten, l), CloneExpr(asWritten, r))
    case Cast(unsafe, e, t) => Cast(unsafe, CloneExpr(asWritten, e), Types.Clone(t))
    case IfThen(c, t, f) => IfThen(CloneExpr(asWritten, c), CloneExpr(asWritten, t), CloneExpr(asWritten, f))
    case IfElse(c, block, elifs, elseBlock) =>
      IfElse(CloneExpr(asWritten, c), CloneExpr(asWritten, block), CloneElifs(asWritten, elifs),
             CloneOpt(asWritten, elseBlock))
    case Loop(body) => Loop(CloneExpr(asWritten, body))
    case While(c, body) => While(CloneExpr(asWritten, c), CloneExpr(asWritten, body))
    case For(v, d, init, last, body) =>
      For(v, d, CloneExpr(asWritten, init), CloneExpr(asWritten, last), CloneExpr(asWritten, body))
    case Return(v) => Return(CloneOpt(asWritten, v))
    case Break(v) => if asWritten then Return(CloneOpt(asWritten, v)) else Break(CloneOpt(asWritten, v))
    case Struct(t, fields) => Struct(Types.Clone(t), CloneFields(asWritten, fields))
    case ImplicitConversion(e, t) => ImplicitConversion(CloneExpr(asWritten, e), Types.Clone(t))
    case _ => n
  }

  function CloneOpt(asWritten: bool, v: Option<Expr>): Option<Expr>
    decreases v
  {
    if v.Some? then Some(CloneExpr(asWritten, v.value)) else None
  }

  function CloneExprs(asWritten: bool, xs: seq<Expr>): (r: seq<Expr>)
    ensures |r| == |xs|
    decreases xs
  {
    if |xs| == 0 then [] else [CloneExpr(asWritten, xs[0])] + CloneExprs(asWritten, xs[1..])
  }

  function CloneElifs(asWritten: bool, xs: seq<ElifBlock>): (r: seq<ElifBlock>)
    ensures |r| == |xs|
    decreases xs
  {
    if |xs| == 0 then []
    else [CloneElif(asWritten, xs[0])] + CloneElifs(asWritten, xs[1..])
  }

  function CloneElif(asWritten: bool, x: ElifBlock): ElifBlock
    decreases x
  {
    ElifBlock(CloneExpr(asWritten, x.condition), CloneExpr(asWritten, x.block))
  }

  function CloneFields(asWritten: bool, xs: seq<FieldInitializer>): (r: seq<FieldInitializer>)
    ensures |r| == |xs|
    decreases xs
  {
    if |xs| == 0 then []
    else [FieldInitializer(xs[0].loc, xs[0].name, CloneExpr(asWritten, xs[0].init))] + CloneFields(asWritten, xs[1..])
  }

  /** Statement clones: a binding keeps name, mutability, initializer and hint; an assert both parts. */
  function CloneStmt(asWritten: bool, s: Stmt): Stmt
    decreases s
  {
    match s.node
    case Binding(name, mut, init, hint) =>
      Stmt(s.loc, Binding(name, mut, CloneExpr(asWritten, init), Misc.CloneIf(hint, Types.Clone)))
    case Assert(assertion, message) =>
      Stmt(s.loc, Assert(CloneExpr(asWritten, assertion), CloneExpr(asWritten, message)))
    case ExpressionStmt(e) => Stmt(s.loc, ExpressionStmt(CloneExpr(asWritten, e)))
  }

  function CloneStmts(asWritten: bool, xs: seq<Stmt>): (r: seq<Stmt>)
    ensures |r| == |xs|
    decreases xs
  {
    if |xs| == 0 then [] else [CloneStmt(asWritten, xs[0])] + CloneStmts(asWritten, xs[1..])
  }

  /** The intended clone reproduces the expression exactly, result type included. */
  lemma {:induction false} CloneExprExact(e: Expr)
    ensures CloneExpr(false, e) == e
    decreases e
  {
    InternalCloneExact(e.node);
  }

  lemma {:induction false} InternalCloneExact(n: ExprNode)
    ensures InternalClone(false, n) == n
    decreases n, 1
  {
    if n.Call? || n.StaticCall? || n.MethodCall? || n.Index? {
      CallCloneExact(n);
    } else if n.IfThen? || n.IfElse? {
      BranchCloneExact(n);
    } else if n.Loop? || n.While? || n.For? || n.Return? || n.Break? {
      LoopCloneExact(n);
    } else {
      match n
      case Group(e) => CloneExprExact(e);
      case Block(stmts) => CloneStmtsExact(stmts);
      case FieldAccess(receiver, _) => CloneExprExact(receiver);
      case Unary(_, e) => CloneExprExact(e);
      case Binary(_, l, r) =>
        CloneExprExact(l);
        CloneExprExact(r);
      case Cast(_, e, _) => CloneExprExact(e);
      case Struct(_, fields) => CloneFieldsExact(fields);
      case ImplicitConversion(e, _) => CloneExprExact(e);
      case _ =>
    }
  }

  /** The call and index nodes. */
  lemma {:induction false} CallCloneExact(n: ExprNode)
    requires n.Call? || n.StaticCall? || n.MethodCall? || n.Index?
    ensures InternalClone(false, n) == n
    decreases n, 0
  {
    match n
    case Call(callee, args, _) =>
      CloneExprExact(callee);
      CloneExprsExact(args);
    case StaticCall(_, _, args, _) => CloneExprsExact(args);
    case MethodCall(receiver, _, args, _) =>
      CloneExprExact(receiver);
      CloneExprsExact(args);
    case Index(callee, args) =>
      CloneExprExact(callee);
      CloneExprsExact(args);
  }

  /** The branching nodes. */
  lemma {:induction false} BranchCloneExact(n: ExprNode)
    requires n.IfThen? || n.IfElse?
    ensures InternalClone(false, n) == n
    decreases n, 0
  {
    match n
    case IfThen(c, t, f) =>
      CloneExprExact(c);
      CloneExprExact(t);
      CloneExprExact(f);
    case IfElse(c, block, elifs, elseBlock) =>
      CloneExprExact(c);
      CloneExprExact(block);
      CloneElifsExact(elifs);
      if elseBlock.Some? {
        CloneExprExact(elseBlock.value);
      }
  }

  /** The looping and jumping nodes. */
  lemma {:induction false} LoopCloneExact(n: ExprNode)
    requires n.Loop? || n.While? || n.For? || n.Return? || n.Break?
    ensures InternalClone(false, n) == n
    decreases n, 0
  {
    match n
    case Loop(body) => CloneExprExact(body);
    case While(c, body) =>
      CloneExprExact(c);
      CloneExprExact(body);
    case For(_, _, init, last, body) =>
      CloneExprExact(init);
      CloneExprExact(last);
      CloneExprExact(body);
    case Return(v) =>
      if v.Some? {
        CloneExprExact(v.value);
      }
    case Break(v) =>
      if v.Some? {
        CloneExprExact(v.value);
      }
  }

  lemma {:induction false} CloneExprsExact(xs: seq<Expr>)
    ensures CloneExprs(false, xs) == xs
    decreases xs
  {
    if |xs| > 0 {
      CloneExprExact(xs[0]);
      CloneExprsExact(xs[1..]);
      assert [xs[0]] + xs[1..] == xs;
    }
  }

  lemma {:induction false} CloneElifsExact(xs: seq<ElifBlock>)
    ensures CloneElifs(false, xs) == xs
    decreases xs
  {
    if |xs| > 0 {
      CloneElifExact(xs[0]);
      CloneElifsExact(xs[1..]);
      assert [xs[0]] + xs[1..] == xs;
    }
  }

  lemma {:induction false} CloneElifExact(x: ElifBlock)
    ensures CloneElif(false, x) == x
    decreases x
  {
    CloneExprExact(x.condition);
    CloneExprExact(x.block);
  }

  lemma {:induction false} CloneFieldsExact(xs: seq<FieldInitializer>)
    ensures CloneFields(false, xs) == xs
    decreases xs
  {
    if |xs| > 0 {
      CloneExprExact(xs[0].init);
      CloneFieldsExact(xs[1..]);
      assert [xs[0]] + xs[1..] == xs;
    }
  }

  lemma {:induction false} CloneStmtExact(s: Stmt)
    ensures CloneStmt(false, s) == s
    decreases s
  {
    match s.node
    case Binding(_, _, init, _) => CloneExprExact(init);
    case Assert(assertion, message) =>
      CloneExprExact(assertion);
      CloneExprExact(message);
    case ExpressionStmt(e) => CloneExprExact(e);
  }

  lemma {:induction false} CloneStmtsExact(xs: seq<Stmt>)
    ensures CloneStmts(false, xs) == xs
    decreases xs
  {
    if |xs| > 0 {
      CloneStmtExact(xs[0]);
      CloneStmtsExact(xs[1..]);
      assert [xs[0]] + xs[1..] == xs;
    }
  }

  /** So the intended clone is fully equal to its original. */
  lemma CloneFullyEquals(e: Expr)
    ensures FullyEquals(false, CloneExpr(false, e), e)
  {
    CloneExprExact(e);
    EqualReflexive(e);
  }

  /** Literal, unary and binary nodes clone to the same operator, children and location, even as written. */
  lemma CloneKeepsOperators(asWritten: bool, e: Expr)
    requires e.node.Unary? || e.node.Binary? || e.node.IntegerLit? || e.node.StringLit? || e.node.BoolLit?
    ensures CloneExpr(asWritten, e).loc == e.loc
    ensures e.node.Unary? ==> CloneExpr(asWritten, e).node == Unary(e.node.uop, CloneExpr(asWritten, e.node.inner))
    ensures e.node.Binary? ==>
      CloneExpr(asWritten, e).node == Binary(e.node.bop, CloneExpr(asWritten, e.node.lhs), CloneExpr(asWritten, e.node.rhs))
    ensures !e.node.Unary? && !e.node.Binary? ==> CloneExpr(asWritten, e).node == e.node
  {
  }

  /** As written a break clones to a return, which does not equal the break. */
  lemma BreakClonesToReturn(l: SourceLoc)
    ensures CloneExpr(true, Expr(l, Break(None), None)).node == Return(None)
    ensures !Equal(false, Expr(l, Break(None), None), CloneExpr(true, Expr(l, Break(None), None)))
  {
  }

  /** As written a clone loses the result type the type checker stored. */
  lemma CloneDropsResult(e: Expr)
    requires e.result.Some?
    ensures CloneExpr(true, e).result.None?
    ensures CloneExpr(false, e).result == e.result
  {
    CloneExprExact(e);
  }

  /** An expression node whose result-type slot is updated in place. */
  class Expression {
    var value: Expr

    constructor (loc: SourceLoc, node: ExprNode)
      ensures value == Expr(loc, node, None)
    {
      value := Expr(loc, node, None);
    }

    /** has_result. */
    predicate HasResult()
      reads this
    {
      value.result.Some?
    }

    /** result(): requires a result to be present. */
    function Result(): (t: Type)
      reads this
      requires HasResult()
      ensures value.result == Some(t)
    {
      value.result.value
    }

    /** result_update: the new result is stored, nothing else changes. */
    method ResultUpdate(t: Type)
      modifies this
      ensures HasResult() && Result() == t
      ensures value == old(value).(result := Some(t))
    {
      value := value.(result := Some(t));
    }

    /** clone() as written: the guard tests the fresh copy, whose slot is still empty. */
    method Clone() returns (node: Expression)
      ensures fresh(node)
      ensures node.value == CloneExpr(true, value)
      ensures !node.HasResult()
    {
      node := new Expression(value.loc, InternalClone(true, value.node));
    }

    /** clone() as intended: the result type is copied when the original has one. */
    method CloneFixed() returns (node: Expression)
      ensures fresh(node)
      ensures node.value == CloneExpr(false, value) == value
    {
      node := new Expression(value.loc, InternalClone(false, value.node));
      if HasResult() {
        node.ResultUpdate(Types.Clone(Result()));
      }
      CloneExprExact(value);
    }
  }

  // ---- declarations ----

  datatype AttributeKind =
    | BuiltinPure | BuiltinThrows | BuiltinAlwaysInline | BuiltinInline | BuiltinNoInline
    | BuiltinMalloc | BuiltinHot | BuiltinCold | BuiltinArch | BuiltinNoreturn | BuiltinStdlib

  datatype Attribute = Attribute(kind: AttributeKind, args: seq<string>)

  datatype Argument = Argument(loc: SourceLoc, name: string, argType: Type)

  /**
   * A function prototype. The receiver is kept only as whether it is present
   * and mutable, since its own type is not part of this model.
   */
  datatype FnPrototype = FnPrototype(
    name: string, self: Option<bool>, args: seq<Argument>, attributes: seq<Attribute>, returnType: Type)

  datatype Field = Field(loc: SourceLoc, name: string, fieldType: Type)

  /**
   * A declaration: its location, whether it is exported, its kind-specific
   * data, and whether the compiler injected it rather than the programmer
   * writing it (the flag plays no part in equality).
   */
  datatype Decl = Decl(loc: SourceLoc, exported: bool, node: DeclNode, injected: bool)

  datatype DeclNode =
    | Import(mod: ModuleID, alias: Option<string>)
    | ImportFrom(entities: seq<QualifiedName>)
    | Fn(external: bool, proto: FnPrototype, body: Expr)
    | Method(proto: FnPrototype, body: Expr)
    | StructDecl(name: string, fields: seq<Field>)
    | ClassDecl
    | TypeDecl(name: string, aliased: Type)
    | ExternalFn(proto: FnPrototype)
    | External(externals: seq<Decl>)
    | Constant(name: string, hint: Type, initializer: Expr)

  /** Arguments compare by name and type. */
  predicate ArgsEqual(xs: seq<Argument>, ys: seq<Argument>)
  {
    |xs| == |ys|
    && forall i :: 0 <= i < |xs| ==> xs[i].name == ys[i].name && Types.Equal(xs[i].argType, ys[i].argType)
  }

  /** FnPrototype's operator==: name, receiver, arguments and return type; attributes are not compared. */
  predicate ProtoEqual(a: FnPrototype, b: FnPrototype)
  {
    a.name == b.name && a.self == b.self && ArgsEqual(a.args, b.args) && Types.Equal(a.returnType, b.returnType)
  }

  /** Struct fields compare by name and type. */
  predicate FieldListEqual(xs: seq<Field>, ys: seq<Field>)
  {
    |xs| == |ys|
    && forall i :: 0 <= i < |xs| ==> xs[i].name == ys[i].name && Types.Equal(xs[i].fieldType, ys[i].fieldType)
  }

  /**
   * Declaration equality: same kind and the per-kind internal_equals. As
   * written an external block compares its vectors of owning pointers, so
   * two distinct blocks are equal only when both are empty; a class
   * declaration asserts, and compares unequal in a release build.
   */
  predicate DeclEqual(asWritten: bool, a: Decl, b: Decl)
    decreases a
  {
    match a.node
    case Import(mod, alias) =>
      b.node.Import? && a.exported == b.exported && ModulesEqual(mod, b.node.mod) && alias == b.node.alias
    case ImportFrom(entities) =>
      b.node.ImportFrom? && a.exported == b.exported && |entities| == |b.node.entities|
      && forall i :: 0 <= i < |entities| ==> QualifiedEqual(entities[i], b.node.entities[i])
    case Fn(external, proto, body) =>
      b.node.Fn? && a.exported == b.exported && external == b.node.external
      && ProtoEqual(proto, b.node.proto) && Equal(asWritten, body, b.node.body)
    case Method(proto, body) =>
      b.node.Method? && a.exported == b.exported && ProtoEqual(proto, b.node.proto) && Equal(asWritten, body, b.node.body)
    case StructDecl(name, fields) =>
      b.node.StructDecl? && a.exported == b.exported && name == b.node.name && FieldListEqual(fields, b.node.fields)
    case ClassDecl => false
    case TypeDecl(name, aliased) => b.node.TypeDecl? && name == b.node.name && Types.Equal(aliased, b.node.aliased)
    case ExternalFn(proto) => b.node.ExternalFn? && ProtoEqual(proto, b.node.proto)
    case External(externals) =>
      b.node.External?
      && if asWritten then |externals| == 0 && |b.node.externals| == 0
         else DeclsEqual(asWritten, externals, b.node.externals)
    case Constant(name, hint, init) =>
      b.node.Constant? && name == b.node.name && Types.Equal(hint, b.node.hint) && Equal(asWritten, init, b.node.initializer)
  }

  predicate DeclsEqual(asWritten: bool, xs: seq<Decl>, ys: seq<Decl>)
    decreases xs
  {
    if |xs| == 0 || |ys| == 0 then |xs| == |ys|
    else DeclEqual(asWritten, xs[0], ys[0]) && DeclsEqual(asWritten, xs[1..], ys[1..])
  }

  /** Prototypes that differ only in their attributes are equal. */
  lemma ProtoIgnoresAttributes(p: FnPrototype, attributes: seq<Attribute>)
    ensures ProtoEqual(p, p.(attributes := attributes))
  {
    Types.EqualReflexive(p.returnType);
    forall i | 0 <= i < |p.args| ensures Types.Equal(p.args[i].argType, p.args[i].argType) {
      Types.EqualReflexive(p.args[i].argType);
    }
  }

  /** A type declaration equals its exported, injected twin: neither flag is compared. */
  lemma TypeDeclIgnoresExported(l: SourceLoc, name: string, aliased: Type)
    ensures DeclEqual(false, Decl(l, true, TypeDecl(name, aliased), true), Decl(l, false, TypeDecl(name, aliased), false))
  {
    Types.EqualReflexive(aliased);
  }

  /** As written, two separately built external blocks with the same single entry are unequal. */
  lemma ExternalComparedByPointer(l: SourceLoc, inner: Decl)
    requires inner.node.ExternalFn?
    ensures var d := Decl(l, false, External([inner]), false);
            !DeclEqual(true, d, d) && DeclEqual(false, d, d)
  {
    var p := inner.node.proto;
    ProtoIgnoresAttributes(p, p.attributes);
    assert p.(attributes := p.attributes) == p;
    assert DeclEqual(false, inner, inner);
    assert DeclsEqual(false, [inner][1..], [inner][1..]);
  }

  /** Entries compared by value: a list of external functions equals itself. */
  lemma {:induction false} ExternalFnsEqual(xs: seq<Decl>)
    requires forall i :: 0 <= i < |xs| ==> xs[i].node.ExternalFn?
    ensures DeclsEqual(false, xs, xs)
    decreases |xs|
  {
    if |xs| > 0 {
      var p := xs[0].node.proto;
      ProtoIgnoresAttributes(p, p.attributes);
      assert p.(attributes := p.attributes) == p;
      ExternalFnsEqual(xs[1..]);
    }
  }

  /** With entries compared by value, every external block equals a copy of itself. */
  lemma ExternalEqualByValue(l: SourceLoc, exported: bool, externals: seq<Decl>, injected: bool)
    requires forall i :: 0 <= i < |externals| ==> externals[i].node.ExternalFn?
    ensures var d := Decl(l, exported, External(externals), injected);
            DeclEqual(false, d, d) && (|externals| > 0 ==> !DeclEqual(true, d, d))
  {
    ExternalFnsEqual(externals);
  }

  /** ast_node.h's Mangled mixin: an optional mangled name and an optional id, each set once known. */
  class Mangled {
    var mangledName: Option<string>
    var id: Option<QualifiedName>

    constructor ()
      ensures mangledName.None? && id.None?
    {
      mangledName := None;
      id := None;
    }

    /** mangled_name(): requires a prior set_mangled. */
    function MangledName(): (r: string)
      reads this
      requires mangledName.Some?
      ensures mangledName == Some(r)
    {
      mangledName.value
    }

    /** id(): requires a prior set_id. */
    function Id(): (r: QualifiedName)
      reads this
      requires id.Some?
      ensures id == Some(r)
    {
      id.value
    }

    /** set_mangled: the last value set is the one returned; the id is untouched. */
    method SetMangled(name: string)
      modifies this
      ensures mangledName == Some(name) && id == old(id)
      ensures MangledName() == name
    {
      mangledName := Some(name);
    }

    /** set_id: the last value set is the one returned; the mangled name is untouched. */
    method SetId(newId: QualifiedName)
      modifies this
      ensures id == Some(newId) && mangledName == old(mangledName)
      ensures Id() == newId
    {
      id := Some(newId);
    }
  }
}
