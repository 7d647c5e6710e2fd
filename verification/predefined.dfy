/**
 * The declarations the compiler injects into every program before name
 * resolution: the `__builtin_*` externals, the runtime's printing FFI, and
 * the `print`/`println` overloads written in terms of them.
 */
module Predefined {
  import opened Basics
  import opened Ids
  import opened SourceLocs
  import opened Types
  import Ast
  import Misc

  // ---- type builders ----

  function UIntType(bits: nat): Type { IntegralType(Nonexistent, false, Width(bits)) }
  function IntType(bits: nat): Type { IntegralType(Nonexistent, true, Width(bits)) }
  const IntNative: Type := IntegralType(Nonexistent, true, NativeWidth)
  const UIntNative: Type := IntegralType(Nonexistent, false, NativeWidth)
  function FloatOf(w: FloatWidth): Type { FloatType(Nonexistent, w) }
  function SliceOf(t: Type): Type { SliceType(Nonexistent, false, t) }
  function PtrTo(t: Type): Type { PointerType(Nonexistent, false, t) }
  const Void: Type := VoidType(Nonexistent)
  const Byte: Type := ByteType(Nonexistent)
  const Bool: Type := BoolType(Nonexistent)
  const Char: Type := CharType(Nonexistent)

  // ---- declaration builders ----

  /** The value of an optional argument, or its default. */
  function Or<T>(o: Option<T>, default: T): T
  {
    match o
    case Some(v) => v
    case None => default
  }

  /**
   * create_builtin: an injected, unexported external function at the
   * nonexistent location, with no receiver; omitted arguments, attributes
   * and return type default to none, none and void.
   */
  function Builtin(name: string, args: Option<seq<Ast.Argument>>, attributes: Option<seq<Ast.Attribute>>,
                   ret: Option<Type>): (d: Ast.Decl)
    ensures d.injected && !d.exported && d.loc == Nonexistent
    ensures d.node.ExternalFn? && d.node.proto.name == name && d.node.proto.self.None?
    ensures args.None? ==> d.node.proto.args == []
    ensures attributes.None? ==> d.node.proto.attributes == []
    ensures ret.None? ==> d.node.proto.returnType == Void
  {
    Ast.Decl(Nonexistent, false,
      Ast.ExternalFn(Ast.FnPrototype(name, None, Or(args, []), Or(attributes, []), Or(ret, Void))), true)
  }

  /** The name of the argument at index `i`: `__1`, `__2`, ... */
  function ArgName(i: nat): string
  {
    "__" + Misc.NatDigits(i + 1, 10)
  }

  /** The arguments of a predefined function, one per type, named by position. */
  function NumberedArgs(types: seq<Type>): (args: seq<Ast.Argument>)
    ensures |args| == |types|
  {
    seq(|types|, i requires 0 <= i < |types| => Ast.Argument(Nonexistent, ArgName(i), types[i]))
  }

  /** Distinct positions get distinct argument names. */
  lemma ArgNamesDistinct(i: nat, j: nat)
    requires i != j
    ensures ArgName(i) != ArgName(j)
  {
    Misc.NatDigitsValue(i + 1, 10);
    Misc.NatDigitsValue(j + 1, 10);
    assert ArgName(i)[2..] == Misc.NatDigits(i + 1, 10);
    assert ArgName(j)[2..] == Misc.NatDigits(j + 1, 10);
  }

  /** The loop shared by create_stdlib_builtin and create_runtime_fn: one numbered argument per type, in order. */
  method NumberArguments(types: seq<Type>) returns (args: seq<Ast.Argument>)
    ensures args == NumberedArgs(types)
  {
    args := [];
    var i := 0;
    while i < |types|
      invariant 0 <= i <= |types|
      invariant args == NumberedArgs(types[..i])
    {
      assert NumberedArgs(types[..i + 1]) == NumberedArgs(types[..i]) + [Ast.Argument(Nonexistent, ArgName(i), types[i])];
      args := args + [Ast.Argument(Nonexistent, ArgName(i), types[i])];
      i := i + 1;
    }
    assert types[..i] == types;
  }

  /**
   * create_stdlib_builtin: an injected, unexported function named `name`
   * with the numbered arguments, the stdlib attribute, a void return and the
   * given body.
   */
  function StdlibBuiltin(name: string, types: seq<Type>, body: Ast.Expr): (d: Ast.Decl)
    ensures d.injected && !d.exported && d.node.Fn? && !d.node.external
    ensures d.node.proto.name == name && d.node.proto.returnType == Void && d.node.body == body
    ensures d.node.proto.attributes == [Ast.Attribute(Ast.BuiltinStdlib, [])]
    ensures |d.node.proto.args| == |types|
    ensures forall i :: 0 <= i < |types| ==> d.node.proto.args[i].name == ArgName(i) && d.node.proto.args[i].argType == types[i]
  {
    Ast.Decl(Nonexistent, false,
      Ast.Fn(false, Ast.FnPrototype(name, None, NumberedArgs(types), [Ast.Attribute(Ast.BuiltinStdlib, [])], Void), body),
      true)
  }

  method CreateStdlibBuiltin(name: string, types: seq<Type>, body: Ast.Expr) returns (d: Ast.Decl)
    ensures d == StdlibBuiltin(name, types, body)
  {
    var args := NumberArguments(types);
    d := Ast.Decl(Nonexistent, false,
      Ast.Fn(false, Ast.FnPrototype(name, None, args, [Ast.Attribute(Ast.BuiltinStdlib, [])], Void), body),
      true);
  }

  /** create_runtime_fn: a runtime entry point, an external with numbered arguments and defaults otherwise. */
  function RuntimeFn(name: string, types: seq<Type>): Ast.Decl
  {
    Builtin(name, Some(NumberedArgs(types)), None, None)
  }

  method CreateRuntimeFn(name: string, types: seq<Type>) returns (d: Ast.Decl)
    ensures d == RuntimeFn(name, types)
  {
    var args := NumberArguments(types);
    d := Builtin(name, Some(args), None, None);
  }

  // ---- expression builders ----

  function Node(n: Ast.ExprNode): Ast.Expr { Ast.Expr(Nonexistent, n, None) }

  /** create_id: an unqualified identifier without a prefix or generics. */
  function IdExpr(name: string): Ast.Expr
  {
    Node(Ast.UnqualifiedIdentifier(UnqualifiedID(None, name), [], None))
  }

  /** create_call: a call of the named function. */
  function CallExpr(name: string, args: seq<Ast.Expr>): Ast.Expr
  {
    Node(Ast.Call(IdExpr(name), args, []))
  }

  /** create_call on names: the first argument always, the second unless it is empty. */
  function CallNames(name: string, arg1: string, arg2: string): Ast.Expr
  {
    CallExpr(name, [IdExpr(arg1)] + (if arg2 == "" then [] else [IdExpr(arg2)]))
  }

  /** create_cast: a safe cast. */
  function CastExpr(e: Ast.Expr, to: Type): Ast.Expr
  {
    Node(Ast.Cast(false, e, to))
  }

  /** expr_into_block: each expression becomes an expression statement of one block. */
  function BlockOf(exprs: seq<Ast.Expr>): (b: Ast.Expr)
    ensures b.node.Block? && |b.node.statements| == |exprs|
    ensures forall i :: 0 <= i < |exprs| ==> b.node.statements[i].node == Ast.ExpressionStmt(exprs[i])
  {
    Node(Ast.Block(seq(|exprs|, i requires 0 <= i < |exprs| => Ast.Stmt(Nonexistent, Ast.ExpressionStmt(exprs[i])))))
  }

  /** The identifiers naming a list of arguments, in order. */
  function ArgIds(args: seq<Ast.Argument>): (ids: seq<Ast.Expr>)
    ensures |ids| == |args|
  {
    seq(|args|, i requires 0 <= i < |args| => IdExpr(args[i].name))
  }

  const Newline: Ast.Expr := Node(Ast.CharLit(10))

  /**
   * create_println: a stdlib `println` taking one or two arguments whose
   * body calls `print` with `__1` (and `__2` when there is a second) and
   * then `print('\n')`.
   */
  function Println(arg: Type, arg2: Option<Type>): Ast.Decl
  {
    StdlibBuiltin("println", [arg] + (if arg2.Some? then [arg2.value] else []),
      BlockOf([CallNames("print", "__1", if arg2.Some? then "__2" else ""), CallExpr("print", [Newline])]))
  }

  method CreatePrintln(arg: Type, arg2: Option<Type>) returns (d: Ast.Decl)
    ensures d == Println(arg, arg2)
  {
    var call := CallNames("print", "__1", if arg2.Some? then "__2" else "");
    var call2 := CallExpr("print", [Newline]);
    d := CreateStdlibBuiltin("println", [arg] + (if arg2.Some? then [arg2.value] else []), BlockOf([call, call2]));
  }

  /**
   * `println` passes exactly its own parameters, in order, to `print`, and
   * then prints a newline.
   */
  lemma PrintlnForwardsItsArguments(arg: Type, arg2: Option<Type>)
    ensures var d := Println(arg, arg2);
      && d.node.Fn? && d.node.body.node.Block? && |d.node.body.node.statements| == 2
      && d.node.body.node.statements[0].node == Ast.ExpressionStmt(CallExpr("print", ArgIds(d.node.proto.args)))
      && d.node.body.node.statements[1].node == Ast.ExpressionStmt(CallExpr("print", [Newline]))
  {
    var d := Println(arg, arg2);
    var one, two := 1, 2;
    assert ArgName(0) == "__" + Misc.NatDigits(one, 10) == "__1";
    assert ArgName(1) == "__" + Misc.NatDigits(two, 10) == "__2";
    var ids := ArgIds(d.node.proto.args);
    if arg2.Some? {
      assert ids == [IdExpr("__1"), IdExpr("__2")] == [IdExpr("__1")] + [IdExpr("__2")];
    } else {
      assert ids == [IdExpr("__1")] == [IdExpr("__1")] + [];
    }
  }

  /** create_print: a stdlib `print` overload. */
  function Print(types: seq<Type>, body: Ast.Expr): Ast.Decl
  {
    StdlibBuiltin("print", types, body)
  }

  // ---- the registered declarations ----

  /** register_builtins: one injected external block with the four `__builtin_*` functions. */
  function BuiltinsBlock(): Ast.Decl
  {
    var loc := Nonexistent;
    Ast.Decl(loc, false, Ast.External([
      Builtin("__builtin_trap", None, Some([Ast.Attribute(Ast.BuiltinNoreturn, [])]), None),
      Builtin("__builtin_string_ptr", Some([Ast.Argument(loc, "__1", SliceOf(Char))]), None, Some(PtrTo(Char))),
      Builtin("__builtin_string_len", Some([Ast.Argument(loc, "__1", SliceOf(Char))]), None, Some(UIntNative)),
      Builtin("__builtin_black_box", Some([Ast.Argument(loc, "__1", PtrTo(Byte))]), None, None)
    ]), true)
  }

  /** register_io_ffi: one injected external block with the runtime's printing functions. */
  function IoFfiBlock(): Ast.Decl
  {
    Ast.Decl(Nonexistent, false, Ast.External(RuntimeFns(FfiSignatures())), true)
  }

  /** One runtime function per signature, in order. */
  function RuntimeFns(sigs: seq<(string, seq<Type>)>): (ds: seq<Ast.Decl>)
    ensures |ds| == |sigs|
  {
    seq(|sigs|, i requires 0 <= i < |sigs| => RuntimeFn(sigs[i].0, sigs[i].1))
  }

  /** The runtime's printing functions: name and argument types. */
  function FfiSignatures(): (sigs: seq<(string, seq<Type>)>)
    ensures |sigs| == 6
  {
    [ ("__gallium_print_f32", [FloatOf(IeeeSingle), IntType(32)]),
      ("__gallium_print_f64", [FloatOf(IeeeDouble), IntType(32)]),
      ("__gallium_print_int", [IntNative]),
      ("__gallium_print_uint", [UIntNative]),
      ("__gallium_print_char", [Char]),
      ("__gallium_print_string", [PtrTo(Char), UIntNative]) ]
  }

  const Precision: Ast.Expr := CastExpr(Node(Ast.IntegerLit(5)), IntType(32))

  /**
   * The `print` overloads of register_io, in order. Each body is a block
   * holding one call: the argument types, the function called and the
   * arguments passed.
   */
  function PrintOverloads(): (ps: seq<(seq<Type>, string, seq<Ast.Expr>)>)
    ensures |ps| == 13
  {
    [ ([SliceOf(Char)], "__gallium_print_string",
        [CallNames("__builtin_string_ptr", "__1", ""), CallNames("__builtin_string_len", "__1", "")]),
      ([Char], "__gallium_print_char", [IdExpr("__1")]),
      ([FloatOf(IeeeSingle), IntType(32)], "__gallium_print_f32", [IdExpr("__1"), IdExpr("__2")]),
      ([FloatOf(IeeeSingle)], "__gallium_print_f32", [IdExpr("__1"), Precision]),
      ([FloatOf(IeeeDouble), IntType(32)], "__gallium_print_f64", [IdExpr("__1"), IdExpr("__2")]),
      ([FloatOf(IeeeDouble)], "__gallium_print_f64", [IdExpr("__1"), Precision]),
      ([IntType(32)], "__gallium_print_int", [CastExpr(IdExpr("__1"), IntNative)]),
      ([IntType(64)], "__gallium_print_int", [CastExpr(IdExpr("__1"), IntNative)]),
      ([IntNative], "__gallium_print_int", [IdExpr("__1")]),
      ([UIntType(32)], "__gallium_print_uint", [CastExpr(IdExpr("__1"), UIntNative)]),
      ([UIntType(64)], "__gallium_print_uint", [CastExpr(IdExpr("__1"), UIntNative)]),
      ([UIntNative], "__gallium_print_uint", [IdExpr("__1")]),
      ([Bool], "print", [Node(Ast.IfThen(IdExpr("__1"), Node(Ast.StringLit("true")), Node(Ast.StringLit("false"))))])
    ]
  }

  /** The body of a `print` overload: a block with the one call. */
  function PrintBody(callee: string, args: seq<Ast.Expr>): Ast.Expr
  {
    BlockOf([CallExpr(callee, args)])
  }

  function Prints(): (ds: seq<Ast.Decl>)
    ensures |ds| == 13
  {
    var ps := PrintOverloads();
    seq(|ps|, i requires 0 <= i < |ps| => Print(ps[i].0, PrintBody(ps[i].1, ps[i].2)))
  }

  /** The argument types of the `println` overloads of register_io, in order. */
  function PrintlnSignatures(): (sigs: seq<(Type, Option<Type>)>)
    ensures |sigs| == 13
  {
    [ (SliceOf(Char), None), (Char, None),
      (FloatOf(IeeeSingle), Some(IntType(32))), (FloatOf(IeeeSingle), None),
      (FloatOf(IeeeDouble), Some(IntType(32))), (FloatOf(IeeeDouble), None),
      (IntType(32), None), (IntType(64), None), (IntNative, None),
      (UIntType(32), None), (UIntType(64), None), (UIntNative, None), (Bool, None) ]
  }

  function Printlns(): (ds: seq<Ast.Decl>)
    ensures |ds| == 13
  {
    var sigs := PrintlnSignatures();
    seq(|sigs|, i requires 0 <= i < |sigs| => Println(sigs[i].0, sigs[i].1))
  }

  /** Everything register_predefined adds, in order: the builtins, the FFI, then the I/O overloads. */
  function PredefinedDecls(): seq<Ast.Decl>
  {
    [BuiltinsBlock(), IoFfiBlock()] + Prints() + Printlns()
  }

  // ---- closure: every injected body calls only injected functions ----

  /** The names of the functions called by unqualified name anywhere in an expression. */
  function Callees(e: Ast.Expr): set<string>
    decreases e, 1
  {
    match e.node
    case Call(callee, args, _) =>
      (if callee.node.UnqualifiedIdentifier? then {callee.node.uid.name} else {}) + Callees(callee) + CalleesAll(args)
    case Cast(_, inner, _) => Callees(inner)
    case IfThen(c, t, f) => Callees(c) + Callees(t) + Callees(f)
    case Block(statements) => StmtCallees(statements)
    case _ => {}
  }

  function CalleesAll(es: seq<Ast.Expr>): set<string>
    decreases es, 0
  {
    if |es| == 0 then {} else Callees(es[0]) + CalleesAll(es[1..])
  }

  function StmtCallees(ss: seq<Ast.Stmt>): set<string>
    decreases ss, 0
  {
    if |ss| == 0 then {} else StmtCallee(ss[0]) + StmtCallees(ss[1..])
  }

  function StmtCallee(st: Ast.Stmt): set<string>
    decreases st, 0
  {
    match st.node
    case ExpressionStmt(x) => Callees(x)
    case _ => {}
  }

  lemma CalleesOne(x: Ast.Expr)
    ensures CalleesAll([x]) == Callees(x)
  {
    assert [x][1..] == [];
  }

  lemma CalleesTwo(x: Ast.Expr, y: Ast.Expr)
    ensures CalleesAll([x, y]) == Callees(x) + Callees(y)
  {
    assert [x, y][1..] == [y];
    CalleesOne(y);
  }

  /** A block of one expression statement calls what the expression calls. */
  lemma BlockCallees(e: Ast.Expr)
    ensures Callees(BlockOf([e])) == Callees(e)
  {
    var ss := BlockOf([e]).node.statements;
    assert ss == [Ast.Stmt(Nonexistent, Ast.ExpressionStmt(e))];
    assert Callees(BlockOf([e])) == StmtCallees(ss);
    assert StmtCallees(ss) == StmtCallee(ss[0]) + StmtCallees(ss[1..]);
    assert ss[1..] == [];
  }

  /** A call by name calls that name and whatever its arguments call. */
  lemma CallCallees(name: string, args: seq<Ast.Expr>)
    ensures Callees(CallExpr(name, args)) == {name} + CalleesAll(args)
  {
  }

  /** The functions a list of declarations declares, looking inside external blocks. */
  function DeclaredFns(ds: seq<Ast.Decl>): set<string>
  {
    if |ds| == 0 then {} else DeclNames(ds[0]) + DeclaredFns(ds[1..])
  }

  function DeclNames(d: Ast.Decl): set<string>
  {
    match d.node
    case Fn(_, proto, _) => {proto.name}
    case ExternalFn(proto) => {proto.name}
    case External(externals) => ExternalNames(externals)
    case _ => {}
  }

  function ExternalNames(ds: seq<Ast.Decl>): set<string>
  {
    if |ds| == 0 then {} else (if ds[0].node.ExternalFn? then {ds[0].node.proto.name} else {}) + ExternalNames(ds[1..])
  }

  /** Every declaration of a list contributes its names. */
  lemma {:induction false} DeclaredFnsHas(ds: seq<Ast.Decl>, i: nat)
    requires i < |ds|
    ensures DeclNames(ds[i]) <= DeclaredFns(ds)
    decreases i
  {
    if i > 0 {
      DeclaredFnsHas(ds[1..], i - 1);
    }
  }

  /** Every external function of a block is declared by it. */
  lemma {:induction false} ExternalNamesHas(ds: seq<Ast.Decl>, i: nat)
    requires i < |ds| && ds[i].node.ExternalFn?
    ensures ds[i].node.proto.name in ExternalNames(ds)
    decreases i
  {
    if i > 0 {
      ExternalNamesHas(ds[1..], i - 1);
    }
  }

  /** The builtins and runtime functions the injected bodies may call. */
  const RuntimeNames: set<string> := {
    "__builtin_string_ptr", "__builtin_string_len", "__gallium_print_string", "__gallium_print_char",
    "__gallium_print_f32", "__gallium_print_f64", "__gallium_print_int", "__gallium_print_uint"}

  /** The arguments of the first `print` overload call the two string builtins. */
  lemma StringArgumentsCallees()
    ensures CalleesAll(PrintOverloads()[0].2) == {"__builtin_string_ptr", "__builtin_string_len"}
  {
    var ptr := CallNames("__builtin_string_ptr", "__1", "");
    var len := CallNames("__builtin_string_len", "__1", "");
    assert PrintOverloads()[0].2 == [ptr, len];
    CalleesTwo(ptr, len);
    assert [IdExpr("__1")] + [] == [IdExpr("__1")];
    CalleesOne(IdExpr("__1"));
  }

  /** The arguments of the other `print` overloads call nothing. */
  lemma PlainArgumentsCallees(k: nat)
    requires 1 <= k < 13
    ensures CalleesAll(PrintOverloads()[k].2) == {}
  {
    var id1 := IdExpr("__1");
    var args := PrintOverloads()[k].2;
    if k in {1, 8, 11} {
      assert args == [id1];
      CalleesOne(id1);
    } else if k in {2, 4} {
      assert args == [id1, IdExpr("__2")];
      CalleesTwo(id1, IdExpr("__2"));
    } else if k in {3, 5} {
      assert args == [id1, Precision];
      CalleesTwo(id1, Precision);
    } else if k in {6, 7, 9, 10} {
      CalleesOne(args[0]);
    } else {
      CalleesOne(args[0]);
    }
  }

  /** Every `print` overload calls only runtime functions and `print` itself. */
  lemma PrintCallees(k: nat)
    requires k < 13
    ensures Callees(Prints()[k].node.body) <= RuntimeNames + {"print"}
  {
    var o := PrintOverloads()[k];
    BlockCallees(CallExpr(o.1, o.2));
    CallCallees(o.1, o.2);
    if k == 0 {
      StringArgumentsCallees();
    } else {
      PlainArgumentsCallees(k);
    }
  }

  /** Every `println` overload calls only `print`. */
  lemma PrintlnCallees(arg: Type, arg2: Option<Type>)
    ensures Callees(Println(arg, arg2).node.body) == {"print"}
  {
    var call := CallNames("print", "__1", if arg2.Some? then "__2" else "");
    var ss := Println(arg, arg2).node.body.node.statements;
    assert ss == [Ast.Stmt(Nonexistent, Ast.ExpressionStmt(call)), Ast.Stmt(Nonexistent, Ast.ExpressionStmt(CallExpr("print", [Newline])))];
    assert Callees(Println(arg, arg2).node.body) == StmtCallees(ss);
    assert StmtCallees(ss) == StmtCallee(ss[0]) + StmtCallee(ss[1]) + StmtCallees(ss[1..][1..]) by {
      assert ss[1..][0] == ss[1];
    }
    assert ss[1..][1..] == [];
    CalleesOne(Newline);
    CallCallees("print", [Newline]);
    CallCallees("print", call.node.args);
    if arg2.Some? {
      assert [IdExpr("__1")] + [IdExpr("__2")] == [IdExpr("__1"), IdExpr("__2")];
      CalleesTwo(IdExpr("__1"), IdExpr("__2"));
    } else {
      assert [IdExpr("__1")] + [] == [IdExpr("__1")];
      CalleesOne(IdExpr("__1"));
    }
  }

  lemma BuiltinsDeclared()
    ensures {"__builtin_string_ptr", "__builtin_string_len"} <= DeclNames(BuiltinsBlock())
  {
    var builtins := BuiltinsBlock().node.externals;
    ExternalNamesHas(builtins, 1);
    ExternalNamesHas(builtins, 2);
  }

  /** A block of runtime functions declares every name of its signatures. */
  lemma RuntimeFnsDeclare(sigs: seq<(string, seq<Type>)>, i: nat)
    requires i < |sigs|
    ensures sigs[i].0 in ExternalNames(RuntimeFns(sigs))
  {
    ExternalNamesHas(RuntimeFns(sigs), i);
  }

  /** The names of the runtime's printing functions. */
  const FfiNames: set<string> := {
    "__gallium_print_f32", "__gallium_print_f64", "__gallium_print_int",
    "__gallium_print_uint", "__gallium_print_char", "__gallium_print_string"}

  /** The FFI block declares the six runtime printing functions. */
  lemma FfiDeclared()
    ensures FfiNames <= DeclNames(IoFfiBlock())
  {
    var sigs := FfiSignatures();
    RuntimeFnsDeclare(sigs, 0); RuntimeFnsDeclare(sigs, 1); RuntimeFnsDeclare(sigs, 2);
    RuntimeFnsDeclare(sigs, 3); RuntimeFnsDeclare(sigs, 4); RuntimeFnsDeclare(sigs, 5);
  }

  /** A list that starts with the two external blocks and a `print` declares every runtime function. */
  lemma DeclaresRuntime(first: Ast.Decl, rest: seq<Ast.Decl>)
    requires "print" in DeclNames(first)
    ensures RuntimeNames + {"print"} <= DeclaredFns([BuiltinsBlock(), IoFfiBlock(), first] + rest)
  {
    var ds := [BuiltinsBlock(), IoFfiBlock(), first] + rest;
    DeclaredFnsHas(ds, 0);
    DeclaredFnsHas(ds, 1);
    DeclaredFnsHas(ds, 2);
    BuiltinsDeclared();
    FfiDeclared();
  }

  /** register_predefined declares every runtime function, and `print`. */
  lemma PredefinedDeclares()
    ensures RuntimeNames + {"print"} <= DeclaredFns(PredefinedDecls())
  {
    var prints := Prints();
    assert PredefinedDecls() == [BuiltinsBlock(), IoFfiBlock(), prints[0]] + (prints[1..] + Printlns());
    DeclaresRuntime(prints[0], prints[1..] + Printlns());
  }

  /** Every injected `print` body calls only runtime functions and `print`. */
  lemma PrintDeclCallees(d: Ast.Decl)
    requires d in Prints()
    ensures d.node.Fn? && Callees(d.node.body) <= RuntimeNames + {"print"}
  {
    var k :| 0 <= k < |Prints()| && Prints()[k] == d;
    PrintCallees(k);
  }

  /** Every injected `println` body calls only `print`. */
  lemma PrintlnDeclCallees(d: Ast.Decl)
    requires d in Printlns()
    ensures d.node.Fn? && Callees(d.node.body) == {"print"}
  {
    var k :| 0 <= k < |Printlns()| && Printlns()[k] == d;
    var sig := PrintlnSignatures()[k];
    PrintlnCallees(sig.0, sig.1);
  }

  /**
   * The injected declarations are closed: every function an injected body
   * calls is itself injected, so resolving them needs nothing the
   * programmer writes.
   */
  lemma PredefinedCallsResolve(d: Ast.Decl)
    requires d in Prints() + Printlns()
    ensures d.node.Fn? && Callees(d.node.body) <= DeclaredFns(PredefinedDecls())
  {
    if d in Prints() {
      PrintDeclCallees(d);
    } else {
      PrintlnDeclCallees(d);
    }
    PredefinedDeclares();
  }

  /**
   * check_builtin: a name without the `__builtin` prefix is no builtin; the
   * typing of the others is unwritten, so every name gives none.
   */
  function CheckBuiltin(name: string, args: seq<Ast.Expr>): (r: Option<Type>)
    ensures r.None?
  {
    if !(|name| >= 9 && name[..9] == "__builtin") then None
    else None
  }

  // ---- the program being built ----

  /** The program's declaration list, which register_predefined appends to. */
  class Program {
    var decls: seq<Ast.Decl>

    constructor (decls: seq<Ast.Decl>)
      ensures this.decls == decls
    {
      this.decls := decls;
    }

    method AddDecl(d: Ast.Decl)
      modifies this
      ensures decls == old(decls) + [d]
    {
      decls := decls + [d];
    }

    method RegisterBuiltins()
      modifies this
      ensures decls == old(decls) + [BuiltinsBlock()]
    {
      AddDecl(BuiltinsBlock());
    }

    method RegisterIoFfi()
      modifies this
      ensures decls == old(decls) + [IoFfiBlock()]
    {
      var sigs := FfiSignatures();
      var f32 := CreateRuntimeFn(sigs[0].0, sigs[0].1);
      var f64 := CreateRuntimeFn(sigs[1].0, sigs[1].1);
      var isize := CreateRuntimeFn(sigs[2].0, sigs[2].1);
      var usize := CreateRuntimeFn(sigs[3].0, sigs[3].1);
      var chr := CreateRuntimeFn(sigs[4].0, sigs[4].1);
      var str := CreateRuntimeFn(sigs[5].0, sigs[5].1);
      assert IoFfiBlock().node.externals == [f32, f64, isize, usize, chr, str];
      AddDecl(Ast.Decl(Nonexistent, false, Ast.External([f32, f64, isize, usize, chr, str]), true));
    }

    /**
     * One `print` block of register_io: build the overload and add it. The
     * ghost `base` is the list before the first block.
     */
    method AddPrint(k: nat, ghost base: seq<Ast.Decl>)
      requires k < 13 && decls == base + Prints()[..k]
      modifies this
      ensures decls == base + Prints()[..k + 1]
    {
      var o := PrintOverloads()[k];
      var d := CreateStdlibBuiltin("print", o.0, PrintBody(o.1, o.2));
      AddDecl(d);
      assert Prints()[..k + 1] == Prints()[..k] + [Prints()[k]];
    }

    /** One `println` line of register_io: build the overload and add it. */
    method AddPrintln(k: nat, ghost base: seq<Ast.Decl>)
      requires k < 13 && decls == base + Printlns()[..k]
      modifies this
      ensures decls == base + Printlns()[..k + 1]
    {
      var sig := PrintlnSignatures()[k];
      var d := CreatePrintln(sig.0, sig.1);
      AddDecl(d);
      assert Printlns()[..k + 1] == Printlns()[..k] + [Printlns()[k]];
    }

    /** The `print` half of register_io, block by block. */
    method RegisterPrints()
      modifies this
      ensures decls == old(decls) + Prints()
    {
      ghost var base := decls;
      assert decls == base + Prints()[..0];
      AddPrint(0, base); AddPrint(1, base); AddPrint(2, base); AddPrint(3, base); AddPrint(4, base);
      AddPrint(5, base); AddPrint(6, base); AddPrint(7, base); AddPrint(8, base); AddPrint(9, base);
      AddPrint(10, base); AddPrint(11, base); AddPrint(12, base);
      assert Prints()[..13] == Prints();
    }

    /** The `println` half of register_io, line by line. */
    method RegisterPrintlns()
      modifies this
      ensures decls == old(decls) + Printlns()
    {
      ghost var base := decls;
      assert decls == base + Printlns()[..0];
      AddPrintln(0, base); AddPrintln(1, base); AddPrintln(2, base); AddPrintln(3, base); AddPrintln(4, base);
      AddPrintln(5, base); AddPrintln(6, base); AddPrintln(7, base); AddPrintln(8, base); AddPrintln(9, base);
      AddPrintln(10, base); AddPrintln(11, base); AddPrintln(12, base);
      assert Printlns()[..13] == Printlns();
    }

    /** register_predefined: the builtins, then the runtime FFI, then the `print` and `println` overloads. */
    method RegisterPredefined()
      modifies this
      ensures decls == old(decls) + PredefinedDecls()
    {
      RegisterBuiltins();
      RegisterIoFfi();
      RegisterPrints();
      RegisterPrintlns();
    }
  }
}
