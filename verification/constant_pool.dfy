// The code generator's constant pool (compiler/src/core/backend/constant_pool.cc):
// the cache of string-literal globals, the lowering of AST types to LLVM
// types with the cache of user-defined struct types, the stable ordering
// of struct fields by allocation size and the field-index lookup.
//
// LLVM types are plain values here; a named struct is referred to by its
// name, and the LLVM context's registry of named structs is a map the pool
// updates. The data layout's allocation size is a function given to the
// pool.
module ConstantPools {
  import opened Basics
  import opened Ids
  import opened Types
  import Ast
  import Misc
  import SourceLocs

  /** The LLVM types the pool builds. */
  datatype LType =
    | IntTy(bits: nat)
    | FloatTy
    | DoubleTy
    | FP128Ty
    | VoidTy
    | PtrTy(pointee: LType)
    | ArrayTy(element: LType, length: nat)
    | LiteralStruct(members: seq<LType>)
    | NamedStruct(structName: string)
    | FnTy(ret: LType, params: seq<LType>)

  /** A global variable of the module: its type, its initializer, whether it is constant and internal. */
  datatype Global = Global(ty: LType, init: string, isConstant: bool, internal: bool)

  /** One lowered struct field: its LLVM type and its name. */
  datatype Slot = Slot(ty: LType, name: string)

  /** The widths integer_of_width has a type for; any other is asserted against. */
  predicate IsIntegerWidth(width: int)
  {
    width == 1 || width == 8 || width == 16 || width == 32 || width == 64 || width == 128
  }

  /** integer_of_width: the LLVM integer type of that many bits. */
  function IntegerOfWidth(width: int): (r: LType)
    requires IsIntegerWidth(width)
    ensures r.IntTy? && r.bits == width
  {
    match width
    case 1 => IntTy(1)
    case 8 => IntTy(8)
    case 16 => IntTy(16)
    case 32 => IntTy(32)
    case 64 => IntTy(64)
    case 128 => IntTy(128)
  }

  /** The name of the n-th string-literal global. */
  function LiteralName(n: nat): string
  {
    ".str." + Misc.NatDigits(n, 10)
  }

  /** The names of the first n string-literal globals. */
  function LiteralNames(n: nat): set<string>
  {
    set i | 0 <= i < n :: LiteralName(i)
  }

  /** The next counter value names a new global, and the names grow by it. */
  lemma LiteralNamesGrow(n: nat)
    ensures LiteralName(n) !in LiteralNames(n)
    ensures LiteralNames(n + 1) == LiteralNames(n) + {LiteralName(n)}
  {
    forall i | 0 <= i < n
      ensures LiteralName(i) != LiteralName(n)
    {
      LiteralNameInjective(i, n);
    }
  }

  /** The global string_literal creates for `data`: an internal constant i8 array of its length plus one. */
  function LiteralGlobal(data: string): Global
  {
    Global(ArrayTy(IntegerOfWidth(8), |data| + 1), data, true, true)
  }

  /** The first n literal names are exactly the globals, and each cached literal's global holds it. */
  predicate LiteralsCached(literals: map<string, string>, globals: map<string, Global>, n: nat)
  {
    && globals.Keys == LiteralNames(n)
    && forall data :: data in literals ==> literals[data] in globals && globals[literals[data]] == LiteralGlobal(data)
  }

  /** Caching new data under the next literal name keeps the cache consistent. */
  lemma CacheNewLiteral(literals: map<string, string>, globals: map<string, Global>, n: nat, data: string)
    requires LiteralsCached(literals, globals, n) && data !in literals
    ensures LiteralName(n) !in globals
    ensures LiteralsCached(literals[data := LiteralName(n)], globals[LiteralName(n) := LiteralGlobal(data)], n + 1)
  {
    LiteralNamesGrow(n);
  }

  /** Distinct counter values name distinct globals. */
  lemma LiteralNameInjective(a: nat, b: nat)
    ensures LiteralName(a) == LiteralName(b) ==> a == b
  {
    if LiteralName(a) == LiteralName(b) {
      assert Misc.NatDigits(a, 10) == LiteralName(a)[5..];
      assert Misc.NatDigits(b, 10) == LiteralName(b)[5..];
      Misc.NatDigitsValue(a, 10);
      Misc.NatDigitsValue(b, 10);
    }
  }

  /** absl::StrReplaceAll(s, {{"::", "."}}): each "::", left to right, becomes ".". */
  function ReplaceColons(s: string): (r: string)
    ensures |r| <= |s|
  {
    if |s| >= 2 && s[0] == ':' && s[1] == ':' then "." + ReplaceColons(s[2..])
    else if |s| == 0 then ""
    else [s[0]] + ReplaceColons(s[1..])
  }

  /** The struct name of a user-defined type, from its qualified string. */
  function StructName(qualified: string): string
  {
    "struct" + ReplaceColons(qualified)
  }

  /** No "::" survives the replacement. */
  lemma {:induction false} ReplaceColonsLeavesNoPair(s: string)
    ensures forall i :: 0 <= i < |ReplaceColons(s)| - 1 ==> !(ReplaceColons(s)[i] == ':' && ReplaceColons(s)[i + 1] == ':')
    ensures |s| > 0 && s[0] == ':' && (|s| == 1 || s[1] != ':') ==> |ReplaceColons(s)| > 0 && ReplaceColons(s)[0] == ':'
    ensures |ReplaceColons(s)| > 0 && ReplaceColons(s)[0] == ':' ==> |s| > 0 && s[0] == ':' && (|s| == 1 || s[1] != ':')
    decreases |s|
  {
    if |s| >= 2 && s[0] == ':' && s[1] == ':' {
      ReplaceColonsLeavesNoPair(s[2..]);
    } else if |s| > 0 {
      ReplaceColonsLeavesNoPair(s[1..]);
      var rest := ReplaceColons(s[1..]);
      assert ReplaceColons(s) == [s[0]] + rest;
      if s[0] == ':' && |rest| > 0 {
        assert rest[0] != ':';
      }
    }
  }

  /** A name without colons keeps its text, so a type of the root module is named "struct." + its name. */
  lemma {:induction false} RootStructName(name: string)
    requires forall i :: 0 <= i < |name| ==> name[i] != ':'
    ensures StructName(QualifiedString(QualifiedName("::", name))) == "struct." + name
  {
    ReplaceColonsKeepsPlainText(name);
    assert "::" + name == [':', ':'] + name;
    assert ReplaceColons("::" + name) == "." + ReplaceColons(("::" + name)[2..]);
    assert ("::" + name)[2..] == name;
  }

  lemma {:induction false} ReplaceColonsKeepsPlainText(s: string)
    requires forall i :: 0 <= i < |s| ==> s[i] != ':'
    ensures ReplaceColons(s) == s
    decreases |s|
  {
    if |s| > 0 {
      ReplaceColonsKeepsPlainText(s[1..]);
      assert [s[0]] + s[1..] == s;
    }
  }

  // ---- the stable sort of fields by allocation size ----

  /**
   * The step of a stable insertion sort: the slot goes after every slot
   * whose size is not greater than its own.
   */
  function InsertBySize(sorted: seq<Slot>, x: Slot, size: LType -> nat): seq<Slot>
    decreases |sorted|
  {
    if |sorted| == 0 then [x]
    else if size(sorted[|sorted| - 1].ty) <= size(x.ty) then sorted + [x]
    else InsertBySize(sorted[..|sorted| - 1], x, size) + [sorted[|sorted| - 1]]
  }

  /** std::stable_sort with the comparator "smaller allocation size". */
  function StableSortBySize(slots: seq<Slot>, size: LType -> nat): seq<Slot>
    decreases |slots|
  {
    if |slots| == 0 then []
    else InsertBySize(StableSortBySize(slots[..|slots| - 1], size), slots[|slots| - 1], size)
  }

  predicate SortedBySize(s: seq<Slot>, size: LType -> nat)
  {
    forall i, j :: 0 <= i < j < |s| ==> size(s[i].ty) <= size(s[j].ty)
  }

  /** The slots of one size, in their order. */
  function OfSize(s: seq<Slot>, k: nat, size: LType -> nat): seq<Slot>
    decreases |s|
  {
    if |s| == 0 then []
    else OfSize(s[..|s| - 1], k, size) + (if size(s[|s| - 1].ty) == k then [s[|s| - 1]] else [])
  }

  lemma {:induction false} OfSizeAppend(a: seq<Slot>, b: seq<Slot>, k: nat, size: LType -> nat)
    ensures OfSize(a + b, k, size) == OfSize(a, k, size) + OfSize(b, k, size)
    decreases |b|
  {
    if |b| == 0 {
      assert a + b == a;
    } else {
      var front := b[..|b| - 1];
      OfSizeAppend(a, front, k, size);
      assert (a + b)[..|a + b| - 1] == a + front;
    }
  }

  lemma {:induction false} InsertBySizeMultiset(sorted: seq<Slot>, x: Slot, size: LType -> nat)
    ensures multiset(InsertBySize(sorted, x, size)) == multiset(sorted) + multiset{x}
    decreases |sorted|
  {
    if |sorted| > 0 && size(sorted[|sorted| - 1].ty) > size(x.ty) {
      var front, last := sorted[..|sorted| - 1], sorted[|sorted| - 1];
      assert sorted == front + [last];
      InsertBySizeMultiset(front, x, size);
    }
  }

  lemma {:induction false} InsertBySizeSorted(sorted: seq<Slot>, x: Slot, size: LType -> nat)
    requires SortedBySize(sorted, size)
    ensures SortedBySize(InsertBySize(sorted, x, size), size)
    decreases |sorted|
  {
    if |sorted| > 0 && size(sorted[|sorted| - 1].ty) > size(x.ty) {
      var front, last := sorted[..|sorted| - 1], sorted[|sorted| - 1];
      InsertBySizeSorted(front, x, size);
      InsertBySizeMultiset(front, x, size);
      var inserted := InsertBySize(front, x, size);
      forall i | 0 <= i < |inserted|
        ensures size(inserted[i].ty) <= size(last.ty)
      {
        assert inserted[i] in multiset(inserted);
        assert inserted[i] in multiset(front) + multiset{x};
      }
    }
  }

  lemma OfSizeOne(x: Slot, k: nat, size: LType -> nat)
    ensures OfSize([x], k, size) == if size(x.ty) == k then [x] else []
  {
    assert [x][..0] == [];
  }

  lemma {:induction false} InsertBySizeOfSize(sorted: seq<Slot>, x: Slot, k: nat, size: LType -> nat)
    ensures OfSize(InsertBySize(sorted, x, size), k, size) == OfSize(sorted, k, size) + OfSize([x], k, size)
    decreases |sorted|
  {
    if |sorted| == 0 {
      assert [] + [x] == [x];
    } else if size(sorted[|sorted| - 1].ty) <= size(x.ty) {
      OfSizeAppend(sorted, [x], k, size);
    } else {
      var front, last := sorted[..|sorted| - 1], sorted[|sorted| - 1];
      assert sorted == front + [last];
      InsertBySizeOfSize(front, x, k, size);
      var inserted := InsertBySize(front, x, size);
      OfSizeAppend(inserted, [last], k, size);
      OfSizeAppend(front, [last], k, size);
      OfSizeOne(x, k, size);
      OfSizeOne(last, k, size);
      SwapPastEmpty(OfSize(front, k, size), OfSize([x], k, size), OfSize([last], k, size));
    }
  }

  /** Two pieces of which one is empty can be appended in either order. */
  lemma SwapPastEmpty(a: seq<Slot>, x: seq<Slot>, l: seq<Slot>)
    requires x == [] || l == []
    ensures (a + x) + l == (a + l) + x
  {
    if x == [] {
      assert a + x == a && (a + l) + x == a + l;
    } else {
      assert (a + x) + l == a + x && a + l == a;
    }
  }

  /**
   * The stable sort's result is sorted by size, a permutation of its input,
   * and keeps the input order among slots of one size.
   */
  lemma {:induction false} StableSortBySizeSpec(slots: seq<Slot>, size: LType -> nat)
    ensures SortedBySize(StableSortBySize(slots, size), size)
    ensures multiset(StableSortBySize(slots, size)) == multiset(slots)
    ensures forall k: nat :: OfSize(StableSortBySize(slots, size), k, size) == OfSize(slots, k, size)
    decreases |slots|
  {
    if |slots| > 0 {
      var front, last := slots[..|slots| - 1], slots[|slots| - 1];
      var sortedFront := StableSortBySize(front, size);
      StableSortBySizeSpec(front, size);
      assert slots == front + [last];
      assert StableSortBySize(slots, size) == InsertBySize(sortedFront, last, size);
      forall k: nat
        ensures OfSize(StableSortBySize(slots, size), k, size) == OfSize(slots, k, size)
      {
        InsertBySizeOfSize(sortedFront, last, k, size);
        OfSizeAppend(front, [last], k, size);
        assert OfSize(sortedFront, k, size) == OfSize(front, k, size);
      }
      InsertBySizeSorted(sortedFront, last, size);
      InsertBySizeMultiset(sortedFront, last, size);
    }
  }

  /** The names of the slots, in order. */
  function Names(slots: seq<Slot>): (r: seq<string>)
    ensures |r| == |slots| && forall i :: 0 <= i < |slots| ==> r[i] == slots[i].name
  {
    seq(|slots|, i requires 0 <= i < |slots| => slots[i].name)
  }

  /** std::find as an index: the first position of the name, or the length when it is absent. */
  function FindIndex(names: seq<string>, name: string): (r: nat)
    ensures r <= |names|
    ensures r < |names| ==> names[r] == name
    ensures forall j :: 0 <= j < r ==> names[j] != name
    decreases |names|
  {
    if |names| == 0 then 0
    else if names[0] == name then 0
    else 1 + FindIndex(names[1..], name)
  }

  // ---- lowering AST types ----

  /** The kinds of type the pool lowers; the unresolved, dyn, nil and error types are asserted against. */
  predicate Lowerable(t: Type)
    decreases t
  {
    match t
    case ReferenceType(_, _, r) => Lowerable(r)
    case SliceType(_, _, s) => Lowerable(s)
    case PointerType(_, _, p) => Lowerable(p)
    case IntegralType(_, _, w) => WidthOf(w).None? || IsIntegerWidth(WidthOf(w).value)
    case FnPointerType(_, args, r) => Lowerable(r) && forall i :: 0 <= i < |args| ==> Lowerable(args[i])
    case ArrayType(_, _, e) => Lowerable(e)
    case IndirectionType(_, p, _) => Lowerable(p)
    case UnqualifiedUserType(_, _, _) => false
    case UnqualifiedDynType(_, _, _) => false
    case DynType(_, _, _) => false
    case ErrorType => false
    case NilPointerType(_) => false
    case _ => true
  }

  /**
   * The LLVM type map_type yields: references, pointers and indirections
   * become pointers, a slice a literal struct of a pointer and a native
   * integer, a user-defined type the named struct of its qualified string.
   * Integers are signless, so the sign is dropped.
   */
  function LlvmType(t: Type, nativeBits: nat): LType
    requires Lowerable(t)
    decreases t
  {
    match t
    case ReferenceType(_, _, r) => PtrTy(LlvmType(r, nativeBits))
    case SliceType(_, _, s) => LiteralStruct([PtrTy(LlvmType(s, nativeBits)), IntTy(nativeBits)])
    case PointerType(_, _, p) => PtrTy(LlvmType(p, nativeBits))
    case IntegralType(_, _, w) => if WidthOf(w).Some? then IntegerOfWidth(WidthOf(w).value) else IntTy(nativeBits)
    case FloatType(_, w) => (match w case IeeeSingle => FloatTy case IeeeDouble => DoubleTy case IeeeQuadruple => FP128Ty)
    case ByteType(_) => IntTy(8)
    case BoolType(_) => IntTy(1)
    case CharType(_) => IntTy(8)
    case UserType(_, id, _) => NamedStruct(StructName(QualifiedString(id)))
    case FnPointerType(_, args, r) =>
      FnTy(LlvmType(r, nativeBits), seq(|args|, i requires 0 <= i < |args| => LlvmType(args[i], nativeBits)))
    case VoidType(_) => VoidTy
    case UnsizedIntegerType(_, _) => IntTy(nativeBits)
    case ArrayType(_, n, e) => ArrayTy(LlvmType(e, nativeBits), n)
    case IndirectionType(_, p, _) => PtrTy(LlvmType(p, nativeBits))
  }

  /**
   * Types the checker calls equal lower to the same LLVM type: what the
   * equality ignores (locations, mut, an unsized literal's value, generic
   * arguments it compares) the lowering ignores too.
   */
  lemma {:induction false} EqualTypesLowerAlike(a: Type, b: Type, nativeBits: nat)
    requires Lowerable(a) && Lowerable(b) && Equal(a, b)
    ensures LlvmType(a, nativeBits) == LlvmType(b, nativeBits)
    decreases a, 1
  {
    assert Kind(a) == Kind(b) && InternalEqual(a, b);
    match a
    case ReferenceType(_, _, r) => EqualTypesLowerAlike(r, b.referenced, nativeBits);
    case SliceType(_, _, s) => EqualTypesLowerAlike(s, b.sliced, nativeBits);
    case PointerType(_, _, p) => EqualTypesLowerAlike(p, b.pointed, nativeBits);
    case ArrayType(_, _, e) => EqualTypesLowerAlike(e, b.element, nativeBits);
    case IndirectionType(_, p, _) => EqualTypesLowerAlike(p, b.produced, nativeBits);
    case FnPointerType(_, args, r) =>
      EqualTypesLowerAlike(r, b.ret, nativeBits);
      ArgsLowerAlike(args, b.args, nativeBits);
    case UserType(_, _, _) =>
    case _ =>
  }

  /** Argument lists the checker calls equal lower position by position alike. */
  lemma {:induction false} ArgsLowerAlike(xs: seq<Type>, ys: seq<Type>, nativeBits: nat)
    requires forall i :: 0 <= i < |xs| ==> Lowerable(xs[i])
    requires forall i :: 0 <= i < |ys| ==> Lowerable(ys[i])
    requires ElementwiseEqual(xs, ys)
    ensures |xs| == |ys| && forall i :: 0 <= i < |xs| ==> LlvmType(xs[i], nativeBits) == LlvmType(ys[i], nativeBits)
    decreases xs, 0
  {
    ElementwiseEqualMeans(xs, ys);
    forall i | 0 <= i < |xs| ensures LlvmType(xs[i], nativeBits) == LlvmType(ys[i], nativeBits) {
      EqualTypesLowerAlike(xs[i], ys[i], nativeBits);
    }
  }

  /** The lowered fields of a struct declaration, in declaration order. */
  function Lowered(fields: seq<Ast.Field>, nativeBits: nat): (r: seq<Slot>)
    requires forall i :: 0 <= i < |fields| ==> Lowerable(fields[i].fieldType)
    ensures |r| == |fields|
    ensures forall i :: 0 <= i < |fields| ==> r[i] == Slot(LlvmType(fields[i].fieldType, nativeBits), fields[i].name)
  {
    seq(|fields|, i requires 0 <= i < |fields| => Slot(LlvmType(fields[i].fieldType, nativeBits), fields[i].name))
  }

  /**
   * ConstantPool: the caches the source keeps (string literals and their
   * counter, user types, field names) and the parts of the LLVM state it
   * changes (the module's globals, the context's named structs).
   *
   * `structs` stands for the declaration a user-defined type points to,
   * by qualified string. The user-defined-type visit caches a struct before
   * it lowers the struct's fields, so a struct that mentions itself (behind
   * a pointer, say) finds itself in the cache; a struct that is cached but
   * has no field order yet is one whose fields are being lowered.
   */
  class ConstantPool {
    const nativeBits: nat
    const allocSize: LType -> nat
    const structs: map<string, seq<Ast.Field>>

    var stringLiterals: map<string, string>
    var currStr: nat
    var globals: map<string, Global>
    var userTypes: map<string, LType>
    var fieldNames: map<string, seq<string>>
    var namedStructs: map<string, seq<LType>>

    /** Every user-defined type the type mentions outside generic arguments has a declaration. */
    predicate Known(t: Type)
      decreases t
    {
      match t
      case ReferenceType(_, _, r) => Known(r)
      case SliceType(_, _, s) => Known(s)
      case PointerType(_, _, p) => Known(p)
      case UserType(_, id, _) => QualifiedString(id) in structs
      case FnPointerType(_, args, r) => Known(r) && forall i :: 0 <= i < |args| ==> Known(args[i])
      case ArrayType(_, _, e) => Known(e)
      case IndirectionType(_, p, _) => Known(p)
      case _ => true
    }

    /** Every field of every declaration is lowerable and mentions only declared structs. */
    predicate StructsDeclared()
    {
      forall s :: s in structs ==> forall i :: 0 <= i < |structs[s]| ==>
        Lowerable(structs[s][i].fieldType) && Known(structs[s][i].fieldType)
    }

    /** The field order of a struct: the names of its lowered fields, stably sorted by size. */
    function FieldOrder(s: string): seq<string>
      requires s in structs && forall i :: 0 <= i < |structs[s]| ==> Lowerable(structs[s][i].fieldType)
    {
      Names(StableSortBySize(Lowered(structs[s], nativeBits), allocSize))
    }

    /** Each string literal has its own global, named by the counter, holding the data and a NUL. */
    predicate LiteralsValid()
      reads this
    {
      LiteralsCached(stringLiterals, globals, currStr)
    }

    /**
     * Each cached user type is the named struct of its qualified string;
     * once its fields are lowered its struct is registered and its field
     * order recorded.
     */
    ghost predicate TypesValid()
      reads this
    {
      && StructsDeclared()
      && (forall s :: s in userTypes ==> s in structs && userTypes[s] == NamedStruct(StructName(s)))
      && (forall s :: s in fieldNames ==> s in userTypes && StructName(s) in namedStructs && fieldNames[s] == FieldOrder(s))
    }

    /** The caches agree with the declarations, possibly while some structs are being lowered. */
    ghost predicate Consistent()
      reads this
    {
      IsIntegerWidth(nativeBits) && LiteralsValid() && TypesValid()
    }

    /** The caches agree with the declarations and no struct is being lowered. */
    ghost predicate Valid()
      reads this
    {
      Consistent() && Pending() == {}
    }

    /** The structs whose fields are being lowered: cached, but with no field order yet. */
    ghost function Pending(): set<string>
      reads this
    {
      userTypes.Keys - fieldNames.Keys
    }

    /** The declared structs not cached yet; each visit that lowers fields caches one more, so their number measures the lowering's recursion. */
    ghost function Uncached(): set<string>
      reads this
    {
      structs.Keys - userTypes.Keys
    }

    constructor (nativeBits: nat, allocSize: LType -> nat, structs: map<string, seq<Ast.Field>>)
      requires IsIntegerWidth(nativeBits)
      ensures this.nativeBits == nativeBits && this.allocSize == allocSize && this.structs == structs
      ensures stringLiterals == map[] && currStr == 0 && globals == map[]
      ensures userTypes == map[] && fieldNames == map[] && namedStructs == map[]
      ensures Valid() <==> StructsDeclared()
    {
      this.nativeBits := nativeBits;
      this.allocSize := allocSize;
      this.structs := structs;
      stringLiterals := map[];
      currStr := 0;
      globals := map[];
      userTypes := map[];
      fieldNames := map[];
      namedStructs := map[];
      new;
    }

    /**
     * string_literal: data seen before gives its cached global and changes
     * nothing; new data gets the global ".str.<n>" for the next counter
     * value n, an internal constant i8 array of the data's length plus one,
     * and is cached.
     */
    method StringLiteral(data: string) returns (c: string)
      requires LiteralsValid()
      modifies this
      ensures LiteralsValid()
      ensures data in old(stringLiterals) ==>
        c == old(stringLiterals)[data] && stringLiterals == old(stringLiterals) && currStr == old(currStr) && globals == old(globals)
      ensures data !in old(stringLiterals) ==>
        && c == LiteralName(old(currStr)) && c !in old(globals)
        && currStr == old(currStr) + 1
        && globals == old(globals)[c := LiteralGlobal(data)]
        && stringLiterals == old(stringLiterals)[data := c]
      ensures userTypes == old(userTypes) && fieldNames == old(fieldNames) && namedStructs == old(namedStructs)
    {
      if data in stringLiterals {
        return stringLiterals[data];
      }
      c := LiteralName(currStr);
      CacheNewLiteral(stringLiterals, globals, currStr, data);
      currStr := currStr + 1;
      // getOrInsertGlobal inserts, as no global has that name yet
      globals := globals[c := LiteralGlobal(data)];
      stringLiterals := stringLiterals[data := c];
    }

    /** struct_from: a struct of that name already registered is reused; otherwise one is created with the slots' types. */
    method StructFrom(name: string, slots: seq<Slot>) returns (t: LType)
      modifies this
      ensures t == NamedStruct(name)
      ensures namedStructs == if name in old(namedStructs) then old(namedStructs)
        else old(namedStructs)[name := seq(|slots|, i requires 0 <= i < |slots| => slots[i].ty)]
      ensures stringLiterals == old(stringLiterals) && currStr == old(currStr) && globals == old(globals)
      ensures userTypes == old(userTypes) && fieldNames == old(fieldNames)
    {
      if name !in namedStructs {
        namedStructs := namedStructs[name := seq(|slots|, i requires 0 <= i < |slots| => slots[i].ty)];
      }
      t := NamedStruct(name);
    }

    /** source_info_type: the struct "__GalliumSourceInfo" of a message pointer, a line and a file pointer, created once. */
    method SourceInfoType() returns (t: LType)
      modifies this
      ensures t == NamedStruct("__GalliumSourceInfo")
      ensures namedStructs == if "__GalliumSourceInfo" in old(namedStructs) then old(namedStructs)
        else old(namedStructs)["__GalliumSourceInfo" := [PtrTy(IntTy(8)), IntTy(64), PtrTy(IntTy(8))]]
      ensures stringLiterals == old(stringLiterals) && currStr == old(currStr) && globals == old(globals)
      ensures userTypes == old(userTypes) && fieldNames == old(fieldNames)
    {
      if "__GalliumSourceInfo" !in namedStructs {
        namedStructs := namedStructs["__GalliumSourceInfo" := [PtrTy(IntTy(8)), IntTy(64), PtrTy(IntTy(8))]];
      }
      t := NamedStruct("__GalliumSourceInfo");
    }

    /** create_user_type_mapping: the slots' names are appended to the (default-constructed) list for the name. */
    method CreateUserTypeMapping(fullName: string, slots: seq<Slot>)
      modifies this
      ensures fieldNames == old(fieldNames)[fullName := (if fullName in old(fieldNames) then old(fieldNames)[fullName] else []) + Names(slots)]
      ensures stringLiterals == old(stringLiterals) && currStr == old(currStr) && globals == old(globals)
      ensures userTypes == old(userTypes) && namedStructs == old(namedStructs)
    {
      var existing := if fullName in fieldNames then fieldNames[fullName] else [];
      fieldNames := fieldNames[fullName := existing + Names(slots)];
    }

    /**
     * map_type: the LLVM type of an AST type. Lowering a user-defined type
     * the first time lowers its fields, registers its struct and caches it
     * with its field order; the caches only grow.
     */
    method MapType(t: Type, ghost uncached: set<string>) returns (r: LType)
      requires Consistent() && Lowerable(t) && Known(t) && Uncached() <= uncached
      modifies this
      ensures r == LlvmType(t, nativeBits)
      ensures Consistent()
      ensures Pending() == old(Pending())
      ensures stringLiterals == old(stringLiterals) && currStr == old(currStr) && globals == old(globals)
      ensures old(userTypes).Keys <= userTypes.Keys && old(namedStructs).Keys <= namedStructs.Keys
      ensures Uncached() <= old(Uncached())
      ensures t.UserType? ==> QualifiedString(t.id) in userTypes
      decreases uncached, 1, t
    {
      match t
      case ReferenceType(_, _, referenced) =>
        var inner := MapType(referenced, uncached);
        r := PtrTy(inner);
      case SliceType(_, _, sliced) =>
        var inner := MapType(sliced, uncached);
        r := LiteralStruct([PtrTy(inner), IntegerOfWidth(nativeBits)]);
      case PointerType(_, _, pointed) =>
        var inner := MapType(pointed, uncached);
        r := PtrTy(inner);
      case IntegralType(_, _, w) =>
        r := if WidthOf(w).Some? then IntegerOfWidth(WidthOf(w).value) else IntegerOfWidth(nativeBits);
      case FloatType(_, w) =>
        r := match w case IeeeSingle => FloatTy case IeeeDouble => DoubleTy case IeeeQuadruple => FP128Ty;
      case ByteType(_) => r := IntTy(8);
      case BoolType(_) => r := IntTy(1);
      case CharType(_) => r := IntTy(8);
      case UserType(_, id, _) => r := MapUserType(QualifiedString(id), uncached);
      case FnPointerType(_, args, ret) =>
        var params := MapTypes(args, uncached);
        var result := MapType(ret, uncached);
        r := FnTy(result, params);
      case VoidType(_) => r := VoidTy;
      case UnsizedIntegerType(_, _) => r := IntegerOfWidth(nativeBits);
      case ArrayType(_, size, element) =>
        var inner := MapType(element, uncached);
        r := ArrayTy(inner, size);
      case IndirectionType(_, produced, _) =>
        var inner := MapType(produced, uncached);
        r := PtrTy(inner);
    }

    /** The argument types of a fn pointer, lowered in order. */
    method MapTypes(ts: seq<Type>, ghost uncached: set<string>) returns (r: seq<LType>)
      requires Consistent() && Uncached() <= uncached
      requires forall i :: 0 <= i < |ts| ==> Lowerable(ts[i]) && Known(ts[i])
      modifies this
      ensures r == seq(|ts|, i requires 0 <= i < |ts| => LlvmType(ts[i], nativeBits))
      ensures Consistent()
      ensures Pending() == old(Pending())
      ensures stringLiterals == old(stringLiterals) && currStr == old(currStr) && globals == old(globals)
      ensures old(userTypes).Keys <= userTypes.Keys && old(namedStructs).Keys <= namedStructs.Keys
      ensures Uncached() <= old(Uncached())
      decreases uncached, 1, ts
    {
      r := [];
      for i := 0 to |ts|
        invariant Consistent()
        invariant Pending() == old(Pending())
        invariant Uncached() <= old(Uncached())
        invariant |r| == i && forall j :: 0 <= j < i ==> r[j] == LlvmType(ts[j], nativeBits)
        invariant stringLiterals == old(stringLiterals) && currStr == old(currStr) && globals == old(globals)
        invariant old(userTypes).Keys <= userTypes.Keys && old(namedStructs).Keys <= namedStructs.Keys
      {
        var lowered := MapType(ts[i], uncached);
        r := r + [lowered];
      }
      assert r == seq(|ts|, i requires 0 <= i < |ts| => LlvmType(ts[i], nativeBits));
    }

    /**
     * The user-defined-type visit, caching first: a cached type (also one
     * whose fields are still being lowered) is returned as is; otherwise the
     * type is cached as the named struct "struct" + the qualified string with
     * "::" as ".", then its fields are lowered and sorted, the struct is made
     * (or reused) with those field types, and the field order is recorded.
     */
    method MapUserType(s: string, ghost uncached: set<string>) returns (r: LType)
      requires Consistent() && s in structs && Uncached() <= uncached
      modifies this
      ensures r == NamedStruct(StructName(s))
      ensures Consistent()
      ensures Pending() == old(Pending())
      ensures stringLiterals == old(stringLiterals) && currStr == old(currStr) && globals == old(globals)
      ensures old(userTypes).Keys <= userTypes.Keys && old(namedStructs).Keys <= namedStructs.Keys
      ensures Uncached() <= old(Uncached())
      ensures s in userTypes
      ensures s !in old(userTypes) ==> s in fieldNames && fieldNames[s] == FieldOrder(s)
      decreases uncached, 0
    {
      if s in userTypes {
        return userTypes[s];
      }
      ghost var pending := Pending();
      r := CacheUserType(s);
      var slots := FromStructure(structs[s], uncached - {s});
      assert Names(slots) == FieldOrder(s);
      RecordStruct(s, slots);
      assert Pending() == pending;
    }

    /** The first step of a visit: the type is cached as its named struct before its fields are lowered. */
    method CacheUserType(s: string) returns (r: LType)
      requires Consistent() && s in structs && s !in userTypes
      modifies this
      ensures r == NamedStruct(StructName(s))
      ensures Consistent()
      ensures Pending() == old(Pending()) + {s} && s !in old(Pending())
      ensures Uncached() == old(Uncached()) - {s}
      ensures userTypes == old(userTypes)[s := r]
      ensures stringLiterals == old(stringLiterals) && currStr == old(currStr) && globals == old(globals)
      ensures namedStructs == old(namedStructs) && fieldNames == old(fieldNames)
    {
      r := NamedStruct(StructName(s));
      userTypes := userTypes[s := r];
    }

    /** The last step of a visit: the struct is made (or reused) with the lowered fields and their order recorded. */
    method RecordStruct(s: string, slots: seq<Slot>)
      requires Consistent() && s in Pending() && Names(slots) == FieldOrder(s)
      modifies this
      ensures Consistent()
      ensures Pending() == old(Pending()) - {s}
      ensures s in fieldNames && fieldNames[s] == FieldOrder(s)
      ensures stringLiterals == old(stringLiterals) && currStr == old(currStr) && globals == old(globals)
      ensures userTypes == old(userTypes) && old(namedStructs).Keys <= namedStructs.Keys
    {
      var _ := StructFrom(StructName(s), slots);
      CreateUserTypeMapping(s, slots);
      assert LiteralsValid();
    }

    /** from_structure: each field lowered in declaration order, then stably sorted by allocation size. */
    method FromStructure(fields: seq<Ast.Field>, ghost uncached: set<string>) returns (r: seq<Slot>)
      requires Consistent() && Uncached() <= uncached
      requires forall i :: 0 <= i < |fields| ==> Lowerable(fields[i].fieldType) && Known(fields[i].fieldType)
      modifies this
      ensures r == StableSortBySize(Lowered(fields, nativeBits), allocSize)
      ensures Consistent()
      ensures Pending() == old(Pending())
      ensures stringLiterals == old(stringLiterals) && currStr == old(currStr) && globals == old(globals)
      ensures old(userTypes).Keys <= userTypes.Keys && old(namedStructs).Keys <= namedStructs.Keys
      ensures Uncached() <= old(Uncached())
      decreases uncached, 2
    {
      var slots: seq<Slot> := [];
      for i := 0 to |fields|
        invariant Consistent()
        invariant Pending() == old(Pending())
        invariant Uncached() <= old(Uncached())
        invariant slots == Lowered(fields[..i], nativeBits)
        invariant stringLiterals == old(stringLiterals) && currStr == old(currStr) && globals == old(globals)
        invariant old(userTypes).Keys <= userTypes.Keys && old(namedStructs).Keys <= namedStructs.Keys
      {
        var ty := MapType(fields[i].fieldType, uncached);
        slots := slots + [Slot(ty, fields[i].name)];
      }
      assert fields[..|fields|] == fields;
      r := StableSortBySize(slots, allocSize);
    }

    /**
     * field_index: the type is mapped first (so its field order is cached),
     * then the name's position in the field order, or the number of fields
     * when the struct has no such field.
     */
    method FieldIndex(t: Type, name: string) returns (i: nat)
      requires Valid() && t.UserType? && Known(t)
      modifies this
      ensures i == FindIndex(FieldOrder(QualifiedString(t.id)), name)
      ensures Valid()
      ensures stringLiterals == old(stringLiterals) && currStr == old(currStr) && globals == old(globals)
    {
      var _ := MapType(t, Uncached());
      assert QualifiedString(t.id) !in Pending();
      var names := fieldNames[QualifiedString(t.id)];
      i := FindIndex(names, name);
    }
  }

  /** The user-defined types a type mentions outside generic arguments, in the order map_type visits them. */
  function Mentioned(t: Type): seq<string>
    decreases t
  {
    match t
    case ReferenceType(_, _, r) => Mentioned(r)
    case SliceType(_, _, s) => Mentioned(s)
    case PointerType(_, _, p) => Mentioned(p)
    case UserType(_, id, _) => [QualifiedString(id)]
    case FnPointerType(_, args, r) => MentionedAll(args) + Mentioned(r)
    case ArrayType(_, _, e) => Mentioned(e)
    case IndirectionType(_, p, _) => Mentioned(p)
    case _ => []
  }

  function MentionedAll(ts: seq<Type>): seq<string>
    decreases ts
  {
    if |ts| == 0 then [] else Mentioned(ts[0]) + MentionedAll(ts[1..])
  }

  /** The user-defined types the fields mention, field by field. */
  function MentionedByFields(fields: seq<Ast.Field>): seq<string>
    decreases |fields|
  {
    if |fields| == 0 then [] else Mentioned(fields[0].fieldType) + MentionedByFields(fields[1..])
  }

  /**
   * The user-defined-type visit as written (constant_pool.cc:318-333)
   * lowers a struct's fields before it caches the struct. These are the
   * structs it visits next when `s` is not cached: those its fields
   * mention, in order, the first of them with the cache as it was.
   */
  function VisitsBeforeCachingAsWritten(structs: map<string, seq<Ast.Field>>, cached: set<string>, s: string): (r: seq<string>)
    requires s in structs
    ensures s in cached ==> r == []
  {
    if s in cached then [] else MentionedByFields(structs[s])
  }

  /** `struct Node { next: *Node }` in the root module, as the pool is given it. */
  function NodeStructs(): map<string, seq<Ast.Field>>
  {
    map["::Node" := [Ast.Field(SourceLocs.Nonexistent, "next", PointerType(SourceLocs.Nonexistent, false, UserType(SourceLocs.Nonexistent, QualifiedName("::", "Node"), [])))]]
  }

  /**
   * As written, visiting an uncached `Node` first visits `Node` again with
   * the same cache, and so on: the visit never returns.
   */
  lemma SelfReferenceRecursesAsWritten(cached: set<string>)
    requires "::Node" !in cached
    ensures VisitsBeforeCachingAsWritten(NodeStructs(), cached, "::Node") == ["::Node"]
  {
    var fields := NodeStructs()["::Node"];
    var node := UserType(SourceLocs.Nonexistent, QualifiedName("::", "Node"), []);
    assert QualifiedString(QualifiedName("::", "Node")) == "::Node";
    assert Mentioned(node) == ["::Node"];
    assert fields[0].fieldType == PointerType(SourceLocs.Nonexistent, false, node);
    assert MentionedByFields(fields[1..]) == [];
    assert MentionedByFields(fields) == Mentioned(fields[0].fieldType) + MentionedByFields(fields[1..]);
  }

  /** `Node`'s one field is a lowerable pointer to a declared struct. */
  lemma NodeDeclared(pool: ConstantPool)
    requires pool.structs == NodeStructs()
    ensures pool.StructsDeclared()
  {
    var node := UserType(SourceLocs.Nonexistent, QualifiedName("::", "Node"), []);
    assert QualifiedString(QualifiedName("::", "Node")) == "::Node";
    assert pool.Known(node);
    assert pool.Known(PointerType(SourceLocs.Nonexistent, false, node));
  }

  /** `Node` lowers to the struct named "struct.Node". */
  lemma NodeStructName()
    ensures StructName("::Node") == "struct.Node"
  {
    var name := "Node";
    assert name == ['N', 'o', 'd', 'e'];
    ReplaceColonsKeepsPlainText(name);
    assert "::Node"[2..] == name;
  }

  /** `Node`'s field order is its one field. */
  lemma NodeFieldOrder(pool: ConstantPool)
    requires pool.structs == NodeStructs()
    ensures pool.FieldOrder("::Node") == ["next"]
  {
    var fields := NodeStructs()["::Node"];
    var slot := Slot(LlvmType(fields[0].fieldType, pool.nativeBits), "next");
    assert Lowered(fields, pool.nativeBits) == [slot];
    assert [slot][..0] == [];
    assert StableSortBySize([slot], pool.allocSize) == InsertBySize([], slot, pool.allocSize) == [slot];
  }

  /**
   * Caching first, the self-referential struct lowers: `Node` becomes the
   * named struct "struct.Node" and its field order is ["next"].
   */
  method LowerSelfReferential(nativeBits: nat, allocSize: LType -> nat) returns (r: LType, order: seq<string>)
    requires IsIntegerWidth(nativeBits)
    ensures r == NamedStruct("struct.Node")
    ensures order == ["next"]
  {
    var pool := new ConstantPool(nativeBits, allocSize, NodeStructs());
    NodeDeclared(pool);
    r := pool.MapUserType("::Node", pool.Uncached());
    NodeStructName();
    NodeFieldOrder(pool);
    order := pool.fieldNames["::Node"];
  }

  /** Distinct literals live in distinct globals. */
  lemma LiteralsDistinct(pool: ConstantPool, a: string, b: string)
    requires pool.LiteralsValid() && a in pool.stringLiterals && b in pool.stringLiterals && a != b
    ensures pool.stringLiterals[a] != pool.stringLiterals[b]
  {
  }

  /** A permutation has the same names. */
  lemma PermutationKeepsNames(a: seq<Slot>, b: seq<Slot>, name: string)
    requires multiset(a) == multiset(b)
    ensures (exists i :: 0 <= i < |a| && a[i].name == name) ==> exists j :: 0 <= j < |b| && b[j].name == name
  {
    if exists i :: 0 <= i < |a| && a[i].name == name {
      var i :| 0 <= i < |a| && a[i].name == name;
      assert a[i] in multiset(b);
      var j :| 0 <= j < |b| && b[j] == a[i];
    }
  }

  /**
   * field_index finds exactly the declared fields: a declared name gets a
   * position below the number of fields, holding that name in the field
   * order; any other name gets the number of fields.
   */
  lemma FieldIndexFindsDeclaredFields(pool: ConstantPool, s: string, name: string)
    requires s in pool.structs && forall i :: 0 <= i < |pool.structs[s]| ==> Lowerable(pool.structs[s][i].fieldType)
    ensures |pool.FieldOrder(s)| == |pool.structs[s]|
    ensures FindIndex(pool.FieldOrder(s), name) < |pool.structs[s]| <==> exists i :: 0 <= i < |pool.structs[s]| && pool.structs[s][i].name == name
  {
    var lowered := Lowered(pool.structs[s], pool.nativeBits);
    var sorted := StableSortBySize(lowered, pool.allocSize);
    StableSortBySizeSpec(lowered, pool.allocSize);
    assert |sorted| == |multiset(sorted)| == |multiset(lowered)| == |lowered|;
    PermutationKeepsNames(lowered, sorted, name);
    PermutationKeepsNames(sorted, lowered, name);
    var order := Names(sorted);
    assert (exists i :: 0 <= i < |pool.structs[s]| && pool.structs[s][i].name == name)
      <==> (exists i :: 0 <= i < |lowered| && lowered[i].name == name);
    assert (exists j :: 0 <= j < |sorted| && sorted[j].name == name) <==> FindIndex(order, name) < |order|;
  }
}
