// The typing rules of compiler/src/core/typechecker.cc: the type predicates,
// lvalues and `mut`, convertibility, the integer-literal fit test, implicit
// conversion, overload selection and the typing of binary expressions.
//
// An expression is modelled by the part of it these rules read (an Operand).
// Where the checker rewrites an expression through its owner pointer, the
// model yields the rewritten Operand; the diagnostics it reports become their
// error codes, in order.
module Typing {
  import opened Basics
  import opened SourceLocs
  import opened Types
  import Misc
  import Ast
  import Environments
  import Ids

  /** The kinds of expression the rules distinguish; every other kind is Other. */
  datatype ExprKind = Identifier | LocalIdentifier | StringLiteral | Load | ImplicitConversion | Other

  /**
   * An expression as the rules see it: its kind, its result type and, for a
   * local identifier, whether the binding it names is `mut`.
   */
  datatype Operand = Operand(kind: ExprKind, result: Type, bindingMut: bool)

  // ---- type predicates ----

  predicate IsBoolean(t: Type)
  {
    Kind(t) == BuiltinBool
  }

  /** integral: a builtin integer, byte, or an unsized integer literal. */
  predicate IsIntegral(t: Type)
  {
    IsOneOf(t, [BuiltinIntegral, BuiltinByte, UnsizedInteger])
  }

  predicate IsArithmetic(t: Type)
  {
    IsIntegral(t) || Kind(t) == BuiltinFloat
  }

  /**
   * The predicates nest and exclude each other, and the error type satisfies
   * none of them: an operand of error type fails every operator condition.
   */
  lemma PredicateLaws(t: Type)
    ensures IsIntegral(t) ==> IsArithmetic(t)
    ensures IsBoolean(t) ==> !IsArithmetic(t)
    ensures t.ErrorType? ==> !IsBoolean(t) && !IsArithmetic(t)
    ensures IsArithmetic(t) <==> t.IntegralType? || t.ByteType? || t.UnsizedIntegerType? || t.FloatType?
  {
    IntegralKinds(t);
  }

  lemma IntegralKinds(t: Type)
    ensures IsIntegral(t) <==> t.IntegralType? || t.ByteType? || t.UnsizedIntegerType?
    ensures Kind(t) == BuiltinFloat <==> t.FloatType?
    ensures Kind(t) == BuiltinBool <==> t.BoolType?
  {
    assert Kind(t) in [BuiltinIntegral, BuiltinByte, UnsizedInteger]
      <==> Kind(t) == BuiltinIntegral || Kind(t) == BuiltinByte || Kind(t) == UnsizedInteger;
  }

  /** lvalue: identifiers, locals and string literals, and anything of indirection or error type. */
  predicate Lvalue(e: Operand)
  {
    e.kind in {Identifier, LocalIdentifier, StringLiteral} || IsOneOf(e.result, [Indirection, Error])
  }

  /**
   * mut: the flag of a pointer, reference, indirection or slice result;
   * true for the error type; otherwise only a local whose binding is `mut`.
   */
  predicate Mut(e: Operand)
  {
    match e.result
    case PointerType(_, m, _) => m
    case ReferenceType(_, m, _) => m
    case IndirectionType(_, _, m) => m
    case SliceType(_, m, _) => m
    case ErrorType => true
    case _ => e.kind == LocalIdentifier && e.bindingMut
  }

  /** The view kinds whose own flag decides `mut`. */
  predicate IsView(t: Type)
  {
    IsOneOf(t, [Pointer, Reference, Indirection, Slice])
  }

  /**
   * The view's flag wins over the expression kind; without a view, only a
   * `mut` local is mutable, so globals and string literals never are. The
   * error type is both an lvalue and mutable, so it draws no second error.
   */
  lemma MutLaws(e: Operand)
    ensures e.result.ErrorType? ==> Lvalue(e) && Mut(e)
    ensures !IsView(e.result) && !e.result.ErrorType? ==> (Mut(e) <==> e.kind == LocalIdentifier && e.bindingMut)
    ensures e.kind in {Identifier, StringLiteral} && !IsView(e.result) && !e.result.ErrorType? ==> Lvalue(e) && !Mut(e)
  {
  }

  /** The kinds accessed_type looks through are those of the three constructors. */
  lemma AccessKinds(t: Type)
    ensures IsOneOf(t, [Pointer, Reference, Indirection]) <==> t.PointerType? || t.ReferenceType? || t.IndirectionType?
  {
    var k := Kind(t);
    if !(t.PointerType? || t.ReferenceType? || t.IndirectionType?) {
      assert k != Pointer && k != Reference && k != Indirection;
    }
  }

  /** accessed_type: what a pointer, reference or indirection gives access to; any other type itself. */
  function AccessedType(t: Type): (r: Type)
    ensures r < t || r == t
    ensures r == t <==> !IsOneOf(t, [Pointer, Reference, Indirection])
  {
    AccessKinds(t);
    match t
    case PointerType(_, _, p) => p
    case ReferenceType(_, _, r) => r
    case IndirectionType(_, p, _) => p
    case _ => t
  }

  /**
   * convertible(into, expr): a load from an indirection that produces the
   * target type; a reference to an array into a slice of its element type
   * (a `mut` slice needs a `mut` source); an unsized literal into a builtin
   * integer or byte; nil into a pointer or function pointer.
   */
  predicate Convertible(into: Type, e: Operand)
  {
    if e.result.IndirectionType? then Equal(e.result.produced, into)
    else if into.SliceType? && e.result.ReferenceType? && e.result.referenced.ArrayType? then
      (if into.mut then Mut(e) && Equal(e.result.referenced.element, into.sliced)
       else Equal(e.result.referenced.element, into.sliced))
    else
      (e.result.UnsizedIntegerType? && IsOneOf(into, [BuiltinIntegral, BuiltinByte]))
      || (e.result.NilPointerType? && IsOneOf(into, [FnPointer, Pointer]))
  }

  /**
   * Only four kinds of expression convert at all, and a shared array never
   * converts into a `mut` slice.
   */
  lemma ConvertibleSources(into: Type, e: Operand)
    ensures Convertible(into, e) ==> IsOneOf(e.result, [Indirection, Reference, UnsizedInteger, NilPointer])
    ensures e.result.ReferenceType? && e.result.referenced.ArrayType? && !e.result.mut && into.SliceType? && into.mut
            ==> !Convertible(into, e)
    ensures e.result.UnsizedIntegerType? && IsOneOf(into, [BuiltinIntegral, BuiltinByte]) ==> Convertible(into, e)
  {
  }

  // ---- the integer-literal fit test ----

  /** The kinds builtin_size_of_bits handles; for any other it asserts. */
  predicate HasBitSize(t: Type)
  {
    IsOneOf(t, [BuiltinIntegral, BuiltinChar, BuiltinBool, BuiltinByte, BuiltinFloat, Pointer, Reference])
  }

  /** The kinds is_one_of admits for a bit size, one constructor each. */
  lemma BitSizedKinds(t: Type)
    requires HasBitSize(t)
    ensures t.IntegralType? || t.CharType? || t.BoolType? || t.ByteType? || t.FloatType? || t.PointerType? || t.ReferenceType?
  {
    var k := Kind(t);
    assert k in [BuiltinIntegral, BuiltinChar, BuiltinBool, BuiltinByte, BuiltinFloat, Pointer, Reference];
    assert k != Slice && k != BuiltinVoid && k != UserDefinedUnqualified && k != UserDefined && k != FnPointer;
    assert k != DynInterfaceUnqualified && k != DynInterface && k != Error && k != NilPointer;
    assert k != UnsizedInteger && k != Array && k != Indirection;
  }

  /**
   * builtin_size_of_bits: the value bits of an integer (its width, or the
   * pointer width for the native width, less one for the sign); 8 for char,
   * bool and byte; the float's width; the pointer width for pointers and
   * references.
   */
  function SizeOfBits(t: Type, pointerBits: nat): nat
    requires HasBitSize(t)
  {
    BitSizedKinds(t);
    match t
    case IntegralType(_, s, w) =>
      var width := if w.NativeWidth? then pointerBits else w.bits;
      if s && width > 0 then width - 1 else width
    case CharType(_) => 8
    case BoolType(_) => 8
    case ByteType(_) => 8
    case FloatType(_, w) => (match w case IeeeSingle => 32 case IeeeDouble => 64 case IeeeQuadruple => 128)
    case PointerType(_, _, _) => pointerBits
    case ReferenceType(_, _, _) => pointerBits
  }

  /** An unsigned integer counts its whole width as value bits; its signed twin gives one of them to the sign. */
  lemma SignTakesOneBit(l: SourceLoc, w: IntegerWidth, pointerBits: nat)
    requires if w.NativeWidth? then pointerBits > 0 else w.bits > 0
    ensures SizeOfBits(IntegralType(l, false, w), pointerBits) == (if w.NativeWidth? then pointerBits else w.bits)
    ensures SizeOfBits(IntegralType(l, true, w), pointerBits) + 1 == SizeOfBits(IntegralType(l, false, w), pointerBits)
  {
  }

  /** The types a literal can be fitted to. */
  predicate FitTarget(t: Type)
  {
    IsOneOf(t, [BuiltinIntegral, BuiltinByte])
  }

  /** The largest value of a builtin integer or byte, as the note of error 32 gives it. */
  function MaxValue(t: Type, pointerBits: nat): int
    requires FitTarget(t)
  {
    Misc.Pow(2, SizeOfBits(t, pointerBits)) - 1
  }

  /**
   * The fit test as written: 2^bits through ipow on std::uint64_t, where the
   * power wraps modulo 2^64, then `2^bits < value`.
   */
  predicate TooBigAsWritten(t: Type, value: nat, pointerBits: nat)
    requires FitTarget(t)
  {
    Misc.Pow(2, SizeOfBits(t, pointerBits)) % Misc.Uint64Limit < value
  }

  /** The fit test as intended: the literal exceeds the type's maximum. */
  predicate TooBig(t: Type, value: nat, pointerBits: nat)
    requires FitTarget(t)
  {
    value > MaxValue(t, pointerBits)
  }

  lemma {:induction false} PowPositive(e: nat)
    ensures Misc.Pow(2, e) >= 1
  {
    if e > 0 {
      PowPositive(e - 1);
    }
  }

  lemma PowMonotone(a: nat, b: nat)
    requires a <= b
    ensures Misc.Pow(2, a) <= Misc.Pow(2, b)
  {
    Misc.PowAdd(2, a, b - a);
    PowPositive(b - a);
    PowPositive(a);
    Misc.MulMonotone(Misc.Pow(2, a), 1, Misc.Pow(2, b - a));
  }

  /** 2^b for b of 64 or more is a multiple of 2^64, so ipow returns 0. */
  lemma WidePowerWraps(b: nat)
    requires b >= 64
    ensures Misc.Pow(2, b) % Misc.Uint64Limit == 0
  {
    Misc.PowersOfTwo();
    Misc.PowAdd(2, 64, b - 64);
    Misc.ModUnique(Misc.Pow(2, b), Misc.Uint64Limit, Misc.Pow(2, b - 64), 0);
  }

  /** Below 64 bits the power does not wrap. */
  lemma NarrowPowerExact(b: nat)
    requires b < 64
    ensures Misc.Pow(2, b) % Misc.Uint64Limit == Misc.Pow(2, b)
  {
    Misc.PowersOfTwo();
    PowMonotone(b, 63);
    Misc.ModUnique(Misc.Pow(2, b), Misc.Uint64Limit, 0, Misc.Pow(2, b));
  }

  /**
   * As written, a literal equal to 2^bits passes the test although it
   * exceeds the maximum 2^bits - 1 the diagnostic itself states.
   */
  lemma FitAcceptsPowerOfTwo(t: Type, pointerBits: nat)
    requires FitTarget(t) && SizeOfBits(t, pointerBits) < 64
    ensures !TooBigAsWritten(t, Misc.Pow(2, SizeOfBits(t, pointerBits)), pointerBits)
    ensures TooBig(t, Misc.Pow(2, SizeOfBits(t, pointerBits)), pointerBits)
  {
    NarrowPowerExact(SizeOfBits(t, pointerBits));
  }

  /** The two smallest cases: 256 is let through into a `u8`, 128 into an `i8`. */
  lemma FitAcceptsU8Of256(l: SourceLoc, pointerBits: nat)
    ensures !TooBigAsWritten(IntegralType(l, false, Width(8)), 256, pointerBits)
    ensures TooBig(IntegralType(l, false, Width(8)), 256, pointerBits)
    ensures !TooBigAsWritten(IntegralType(l, true, Width(8)), 128, pointerBits)
    ensures TooBig(IntegralType(l, true, Width(8)), 128, pointerBits)
  {
    assert Misc.Pow(2, 7) == 128;
    assert Misc.Pow(2, 8) == 256;
    NarrowPowerExact(8);
    NarrowPowerExact(7);
  }

  /**
   * As written, 64 or more value bits make ipow wrap to 0, so every literal
   * from 1 up is rejected: `u64`, `u128`, `i128` and the native unsigned
   * width on a 64-bit target accept only 0.
   */
  lemma FitRejectsEveryWideLiteral(t: Type, value: nat, pointerBits: nat)
    requires FitTarget(t) && SizeOfBits(t, pointerBits) >= 64 && value >= 1
    ensures TooBigAsWritten(t, value, pointerBits)
  {
    WidePowerWraps(SizeOfBits(t, pointerBits));
  }

  /** The smallest case: the literal 1 is rejected for `u64`, though it fits. */
  lemma FitRejectsOneForU64(l: SourceLoc, pointerBits: nat)
    ensures TooBigAsWritten(IntegralType(l, false, Width(64)), 1, pointerBits)
    ensures !TooBig(IntegralType(l, false, Width(64)), 1, pointerBits)
  {
    FitRejectsEveryWideLiteral(IntegralType(l, false, Width(64)), 1, pointerBits);
    PowPositive(63);
  }

  /** Away from 2^bits and below 64 bits, the test as written and as intended agree. */
  lemma FitAgreesOffTheBoundary(t: Type, value: nat, pointerBits: nat)
    requires FitTarget(t) && SizeOfBits(t, pointerBits) < 64
    requires value != Misc.Pow(2, SizeOfBits(t, pointerBits))
    ensures TooBigAsWritten(t, value, pointerBits) <==> TooBig(t, value, pointerBits)
  {
    NarrowPowerExact(SizeOfBits(t, pointerBits));
  }

  /** A number is below 2^bits exactly when its binary numeral has at most `bits` digits. */
  lemma {:induction false} BinaryLength(v: nat, bits: nat)
    requires bits > 0
    ensures v < Misc.Pow(2, bits) <==> |Misc.NatDigits(v, 2)| <= bits
    decreases v
  {
    PowPositive(bits - 1);
    if v >= 2 {
      assert Misc.NatDigits(v, 2) == Misc.NatDigits(v / 2, 2) + [Misc.DigitChar(v % 2)];
      if bits > 1 {
        BinaryLength(v / 2, bits - 1);
      }
    }
  }

  /**
   * The intended test against an independent reading: a literal fits
   * exactly when it can be written in the type's value bits.
   */
  lemma FitsIffBinaryLength(t: Type, value: nat, pointerBits: nat)
    requires FitTarget(t) && SizeOfBits(t, pointerBits) > 0
    ensures !TooBig(t, value, pointerBits) <==> |Misc.NatDigits(value, 2)| <= SizeOfBits(t, pointerBits)
  {
    BinaryLength(value, SizeOfBits(t, pointerBits));
  }

  // ---- implicit conversion ----

  /** The outcome of a conversion: success, the expression afterwards, and the codes reported. */
  datatype Converted = Converted(ok: bool, operand: Operand, codes: seq<int>)

  /**
   * implicit_convert, with the intended fit test: a literal too big for an
   * integer target reports 32 and fails; otherwise the expression becomes a
   * load (from an indirection) or an implicit conversion, typed as expected.
   */
  function ImplicitConvert(expected: Type, e: Operand, pointerBits: nat): (r: Converted)
    ensures r.ok ==> r.operand.result == expected && r.codes == []
    ensures !r.ok <==> FitTarget(expected) && e.result.UnsizedIntegerType? && TooBig(expected, e.result.value, pointerBits)
    ensures !r.ok ==> r.operand == e && r.codes == [32]
  {
    if FitTarget(expected) && e.result.UnsizedIntegerType? && TooBig(expected, e.result.value, pointerBits) then
      Converted(false, e, [32])
    else
      Converted(true, Operand(if e.result.IndirectionType? then Load else ImplicitConversion, Clone(expected), false), [])
  }

  /** implicit_convert with the fit test as written (`ipow(2, bits) < value` in std::uint64_t). */
  function ImplicitConvertAsWritten(expected: Type, e: Operand, pointerBits: nat): (r: Converted)
    ensures !r.ok ==> r.operand == e && r.codes == [32]
  {
    if FitTarget(expected) && e.result.UnsizedIntegerType? && TooBigAsWritten(expected, e.result.value, pointerBits) then
      Converted(false, e, [32])
    else
      Converted(true, Operand(if e.result.IndirectionType? then Load else ImplicitConversion, Clone(expected), false), [])
  }

  /**
   * Below 64 value bits and away from 2^bits the written conversion is the
   * intended one; so is every conversion that fits no literal.
   */
  lemma ImplicitConvertAgreesOffTheBoundary(expected: Type, e: Operand, pointerBits: nat)
    requires !(FitTarget(expected) && e.result.UnsizedIntegerType?)
             || (SizeOfBits(expected, pointerBits) < 64 && e.result.value != Misc.Pow(2, SizeOfBits(expected, pointerBits)))
    ensures ImplicitConvertAsWritten(expected, e, pointerBits) == ImplicitConvert(expected, e, pointerBits)
  {
    if FitTarget(expected) && e.result.UnsizedIntegerType? {
      FitAgreesOffTheBoundary(expected, e.result.value, pointerBits);
    }
  }

  /** As written, the literal 2^bits converts to a type of fewer than 64 value bits; the intended test rejects it with 32. */
  lemma ImplicitConvertAsWrittenAcceptsPowerOfTwo(expected: Type, e: Operand, pointerBits: nat)
    requires FitTarget(expected) && SizeOfBits(expected, pointerBits) < 64
    requires e.result.UnsizedIntegerType? && e.result.value == Misc.Pow(2, SizeOfBits(expected, pointerBits))
    ensures ImplicitConvertAsWritten(expected, e, pointerBits).ok
    ensures !ImplicitConvert(expected, e, pointerBits).ok && ImplicitConvert(expected, e, pointerBits).codes == [32]
  {
    FitAcceptsPowerOfTwo(expected, pointerBits);
  }

  /** As written, a type of 64 or more value bits rejects with 32 every literal from 1 up that fits it. */
  lemma ImplicitConvertAsWrittenRejectsWide(expected: Type, e: Operand, pointerBits: nat)
    requires FitTarget(expected) && SizeOfBits(expected, pointerBits) >= 64
    requires e.result.UnsizedIntegerType? && 1 <= e.result.value <= MaxValue(expected, pointerBits)
    ensures !ImplicitConvertAsWritten(expected, e, pointerBits).ok && ImplicitConvertAsWritten(expected, e, pointerBits).codes == [32]
    ensures ImplicitConvert(expected, e, pointerBits).ok
  {
    FitRejectsEveryWideLiteral(expected, e.result.value, pointerBits);
  }

  /**
   * The conversions type their result with the corrected Types.Clone. The
   * written clone turns a dyn interface into a user-defined type, so as
   * written nil converted to `*const dyn Foo` is typed `*const Foo`, and a
   * load through an indirection to `dyn Foo` is typed `Foo`.
   */
  lemma DynTargetsKeepTheirKind(l: SourceLoc, id: Ids.QualifiedName, nil: Operand, place: Operand, pointerBits: nat)
    requires nil.result.NilPointerType?
    requires place.result.IndirectionType? && place.result.produced == DynType(l, id, [])
    ensures var target := PointerType(l, false, DynType(l, id, []));
            var c := ImplicitConvert(target, nil, pointerBits);
            c.ok && c.operand.result == target
            && CloneAsWritten(target) == Some(PointerType(l, false, UserType(l, id, [])))
            && !Equal(target, CloneAsWritten(target).value)
    ensures var c := ConvertIntermediate(place, pointerBits);
            c.ok && c.operand.result == DynType(l, id, []) && c.operand.kind == Load
            && CloneAsWritten(DynType(l, id, [])) == Some(UserType(l, id, []))
            && !Equal(DynType(l, id, []), UserType(l, id, []))
  {
    DynCloneChangesKind(l, id);
  }

  /**
   * try_make_compatible: identical types are left alone, convertible ones go
   * through implicit_convert, anything else fails. On success the expression
   * is identical to the expected type; on failure it is unchanged.
   */
  function TryMakeCompatible(expected: Type, e: Operand, pointerBits: nat): (r: Converted)
    ensures r.ok ==> Equal(expected, r.operand.result)
    ensures r.ok && !Equal(expected, e.result) ==> r.operand.result == expected
    ensures !r.ok ==> r.operand == e
    ensures r.codes == [] || (r.codes == [32] && !r.ok)
    ensures r.ok <==> Equal(expected, e.result)
                      || (Convertible(expected, e)
                          && !(FitTarget(expected) && e.result.UnsizedIntegerType? && TooBig(expected, e.result.value, pointerBits)))
  {
    if Equal(expected, e.result) then Converted(true, e, [])
    else if Convertible(expected, e) then
      EqualReflexive(expected);
      ImplicitConvert(expected, e, pointerBits)
    else Converted(false, e, [])
  }

  /** A second attempt after a successful one changes nothing and reports nothing. */
  lemma CompatibleIsIdempotent(expected: Type, e: Operand, pointerBits: nat)
    requires TryMakeCompatible(expected, e, pointerBits).ok
    ensures var again := TryMakeCompatible(expected, TryMakeCompatible(expected, e, pointerBits).operand, pointerBits);
            again == Converted(true, TryMakeCompatible(expected, e, pointerBits).operand, [])
  {
  }

  /** An expression of error type is compatible with everything, unchanged. */
  lemma ErrorIsCompatible(expected: Type, e: Operand, pointerBits: nat)
    requires e.result.ErrorType? || expected.ErrorType?
    ensures TryMakeCompatible(expected, e, pointerBits) == Converted(true, e, [])
  {
  }

  // ---- default conversions ----

  /** `*const byte`, the type nil defaults to. */
  const BytePtr: Type := PointerType(Nonexistent, false, ByteType(Nonexistent))

  /** `i64`, the type an unsized literal defaults to. */
  const DefaultInt: Type := IntegralType(Nonexistent, true, Width(64))

  /**
   * convert_intermediate: an indirection is loaded as its produced type, nil
   * becomes `*const byte` and an unsized literal `i64` (if it fits below
   * 2^63); any other expression is left alone.
   */
  function ConvertIntermediate(e: Operand, pointerBits: nat): (r: Converted)
    ensures r.codes == [] || (r.codes == [32] && !r.ok && r.operand == e)
    ensures r.ok ==> r.codes == []
  {
    if e.result.IndirectionType? then ImplicitConvert(Clone(e.result.produced), e, pointerBits)
    else if e.result.NilPointerType? then ImplicitConvert(BytePtr, e, pointerBits)
    else if e.result.UnsizedIntegerType? then ImplicitConvert(DefaultInt, e, pointerBits)
    else Converted(true, e, [])
  }

  /**
   * What convert_intermediate gives each kind: the produced type of an
   * indirection, `*const byte` for nil, `i64` for a literal below 2^63 and
   * error 32 for a larger one; every other expression is left alone.
   */
  lemma IntermediateDefaults(e: Operand, pointerBits: nat)
    ensures var r := ConvertIntermediate(e, pointerBits);
            (e.result.IndirectionType? ==> r.ok && r.operand.result == e.result.produced && r.operand.kind == Load)
            && (e.result.NilPointerType? ==> r.ok && r.operand.result == BytePtr && r.operand.kind == ImplicitConversion)
            && (e.result.UnsizedIntegerType? ==> (r.ok <==> e.result.value <= Misc.Int64Max))
            && (e.result.UnsizedIntegerType? && r.ok ==> r.operand.result == DefaultInt)
            && (!IsOneOf(e.result, [Indirection, NilPointer, UnsizedInteger]) ==> r == Converted(true, e, []))
  {
    Misc.PowersOfTwo();
    assert SizeOfBits(DefaultInt, pointerBits) == 63;
  }

  /** The outcome of a check on both operands of a binary expression. */
  datatype Paired = Paired(ok: bool, lhs: Operand, rhs: Operand, codes: seq<int>)

  /** Both operands through convert_intermediate, left first. */
  function Intermediates(lhs: Operand, rhs: Operand, codes: seq<int>, pointerBits: nat): Paired
  {
    var l := ConvertIntermediate(lhs, pointerBits);
    var r := ConvertIntermediate(rhs, pointerBits);
    Paired(true, l.operand, r.operand, codes + l.codes + r.codes)
  }

  /**
   * check_identical: unless the operands are identical, the right one is
   * made compatible with the left's type, failing that the left with the
   * right's; if neither works, 40 is reported. On success both go through
   * convert_intermediate.
   */
  function CheckIdentical(lhs: Operand, rhs: Operand, pointerBits: nat): (r: Paired)
    ensures !r.ok ==> r.lhs == lhs && r.rhs == rhs && |r.codes| > 0 && r.codes[|r.codes| - 1] == 40
    ensures r.ok ==> forall c :: c in r.codes ==> c == 32
  {
    if Equal(lhs.result, rhs.result) then Intermediates(lhs, rhs, [], pointerBits)
    else
      var toLhs := TryMakeCompatible(lhs.result, rhs, pointerBits);
      if toLhs.ok then Intermediates(lhs, toLhs.operand, toLhs.codes, pointerBits)
      else
        var toRhs := TryMakeCompatible(rhs.result, lhs, pointerBits);
        if toRhs.ok then Intermediates(toRhs.operand, rhs, toLhs.codes + toRhs.codes, pointerBits)
        else Paired(false, lhs, rhs, toLhs.codes + toRhs.codes + [40])
  }

  /** Operands that agree keep agreeing through convert_intermediate, unless a literal did not fit. */
  lemma IntermediateKeepsAgreement(a: Operand, b: Operand, pointerBits: nat)
    requires Equal(a.result, b.result)
    ensures var x := ConvertIntermediate(a, pointerBits);
            var y := ConvertIntermediate(b, pointerBits);
            Equal(x.operand.result, y.operand.result) || 32 in x.codes + y.codes
  {
    IntermediateDefaults(a, pointerBits);
    IntermediateDefaults(b, pointerBits);
    if a.result.ErrorType? || b.result.ErrorType? {
    } else if a.result.IndirectionType? {
      IndirectionsAgree(a.result, b.result);
    } else if a.result.NilPointerType? {
      assert b.result.NilPointerType?;
      EqualReflexive(BytePtr);
    } else if a.result.UnsizedIntegerType? {
      assert b.result.UnsizedIntegerType?;
      EqualReflexive(DefaultInt);
    } else {
      assert !IsOneOf(b.result, [Indirection, NilPointer, UnsizedInteger]);
    }
  }

  /** Agreeing indirections produce agreeing types. */
  lemma IndirectionsAgree(a: Type, b: Type)
    requires a.IndirectionType? && !b.ErrorType? && Equal(a, b)
    ensures b.IndirectionType? && Equal(a.produced, b.produced)
  {
  }

  /** Operands of one type come out of convert_intermediate with one type. */
  lemma IntermediateIsAFunctionOfTheType(a: Operand, b: Operand, pointerBits: nat)
    requires a.result == b.result
    ensures ConvertIntermediate(a, pointerBits).operand.result == ConvertIntermediate(b, pointerBits).operand.result
    ensures ConvertIntermediate(a, pointerBits).codes == ConvertIntermediate(b, pointerBits).codes
  {
  }

  /**
   * After check_identical succeeds, the operands' types are identical, unless
   * a literal was too big for `i64`.
   */
  lemma CheckIdenticalAgrees(lhs: Operand, rhs: Operand, pointerBits: nat)
    requires CheckIdentical(lhs, rhs, pointerBits).ok && 32 !in CheckIdentical(lhs, rhs, pointerBits).codes
    ensures Equal(CheckIdentical(lhs, rhs, pointerBits).lhs.result, CheckIdentical(lhs, rhs, pointerBits).rhs.result)
  {
    if Equal(lhs.result, rhs.result) {
      IntermediateKeepsAgreement(lhs, rhs, pointerBits);
    } else {
      var toLhs := TryMakeCompatible(lhs.result, rhs, pointerBits);
      if toLhs.ok {
        IntermediateIsAFunctionOfTheType(lhs, toLhs.operand, pointerBits);
        EqualReflexive(ConvertIntermediate(lhs, pointerBits).operand.result);
      } else {
        EqualSymmetric(lhs.result, rhs.result);
        var toRhs := TryMakeCompatible(rhs.result, lhs, pointerBits);
        IntermediateIsAFunctionOfTheType(toRhs.operand, rhs, pointerBits);
        EqualReflexive(ConvertIntermediate(rhs, pointerBits).operand.result);
      }
    }
  }

  // ---- binary expressions ----

  /** The groups of operators the typing switch shares a case among. */
  datatype OpGroup =
    | ArithmeticOp | BitwiseOp | ComparisonOp | EqualityOp | LogicalOp
    | BitwiseAssignOp | ArithmeticAssignOp | AssignOp

  function GroupOf(op: Ast.BinaryOp): OpGroup
  {
    match op
    case Mul => ArithmeticOp
    case Div => ArithmeticOp
    case Mod => ArithmeticOp
    case Add => ArithmeticOp
    case Sub => ArithmeticOp
    case LeftShift => BitwiseOp
    case RightShift => BitwiseOp
    case BitwiseAnd => BitwiseOp
    case BitwiseOr => BitwiseOp
    case BitwiseXor => BitwiseOp
    case Lt => ComparisonOp
    case Gt => ComparisonOp
    case LtEq => ComparisonOp
    case GtEq => ComparisonOp
    case Equals => EqualityOp
    case NotEqual => EqualityOp
    case LogicalAnd => LogicalOp
    case LogicalOr => LogicalOp
    case LogicalXor => LogicalOp
    case LeftShiftEq => BitwiseAssignOp
    case RightShiftEq => BitwiseAssignOp
    case BitwiseAndEq => BitwiseAssignOp
    case BitwiseOrEq => BitwiseAssignOp
    case BitwiseXorEq => BitwiseAssignOp
    case AddEq => ArithmeticAssignOp
    case SubEq => ArithmeticAssignOp
    case MulEq => ArithmeticAssignOp
    case DivEq => ArithmeticAssignOp
    case ModEq => ArithmeticAssignOp
    case Assignment => AssignOp
  }

  /** The outcome of typing a binary expression: its result type, the operands afterwards, the codes reported. */
  datatype Typed = Typed(result: Type, lhs: Operand, rhs: Operand, codes: seq<int>)

  /** check_binary_conditions: both operands satisfy the condition (else `code`), then check_identical. */
  function CheckBoth(holds: bool, code: int, lhs: Operand, rhs: Operand, pointerBits: nat): Paired
  {
    if !holds then Paired(false, lhs, rhs, [code]) else CheckIdentical(lhs, rhs, pointerBits)
  }

  /**
   * The assignment case: 42 unless the left side is an lvalue, 49 unless it
   * is `mut`, and 50 unless the right side can be made compatible with what
   * the left side gives access to. The result is void whatever was reported.
   */
  function CheckAssignment(loc: SourceLoc, lhs: Operand, rhs: Operand, pointerBits: nat): Typed
  {
    var c := TryMakeCompatible(AccessedType(lhs.result), rhs, pointerBits);
    Typed(VoidType(loc), lhs, c.operand,
          (if Lvalue(lhs) then [] else [42]) + (if Mut(lhs) then [] else [49])
          + c.codes + (if c.ok then [] else [50]))
  }

  /**
   * visit(BinaryExpression): arithmetic ops need arithmetic operands (39)
   * and bitwise ops integral ones (41), then identical types, and take the
   * left side's type; comparisons need arithmetic operands (39), equality
   * identical ones and logical ops booleans (38), and give bool; compound
   * assignments check their condition (41) before the assignment rules.
   */
  function CheckBinary(op: Ast.BinaryOp, loc: SourceLoc, lhs: Operand, rhs: Operand, pointerBits: nat): Typed
  {
    match GroupOf(op)
    case ArithmeticOp =>
      var p := CheckBoth(IsArithmetic(lhs.result) && IsArithmetic(rhs.result), 39, lhs, rhs, pointerBits);
      Typed(if p.ok then Clone(p.lhs.result) else ErrorType, p.lhs, p.rhs, p.codes)
    case BitwiseOp =>
      var p := CheckBoth(IsIntegral(lhs.result) && IsIntegral(rhs.result), 41, lhs, rhs, pointerBits);
      Typed(if p.ok then Clone(p.lhs.result) else ErrorType, p.lhs, p.rhs, p.codes)
    case LogicalOp =>
      var p := CheckBoth(IsBoolean(lhs.result) && IsBoolean(rhs.result), 38, lhs, rhs, pointerBits);
      Typed(if p.ok then BoolType(loc) else ErrorType, p.lhs, p.rhs, p.codes)
    case ComparisonOp =>
      var p := CheckBoth(IsArithmetic(lhs.result) && IsArithmetic(rhs.result), 39, lhs, rhs, pointerBits);
      Typed(if p.ok then BoolType(loc) else ErrorType, p.lhs, p.rhs, p.codes)
    case EqualityOp =>
      var p := CheckIdentical(lhs, rhs, pointerBits);
      Typed(if p.ok then BoolType(loc) else ErrorType, p.lhs, p.rhs, p.codes)
    case BitwiseAssignOp =>
      if !(IsIntegral(lhs.result) && IsIntegral(rhs.result)) then Typed(ErrorType, lhs, rhs, [41])
      else CheckAssignment(loc, lhs, rhs, pointerBits)
    case ArithmeticAssignOp =>
      if !(IsArithmetic(lhs.result) && IsArithmetic(rhs.result)) then Typed(ErrorType, lhs, rhs, [41])
      else CheckAssignment(loc, lhs, rhs, pointerBits)
    case AssignOp =>
      CheckAssignment(loc, lhs, rhs, pointerBits)
  }

  /** The first code other than 32 decides an error result; 32 alone never does. */
  predicate OnlyFitCodes(codes: seq<int>)
  {
    forall c :: c in codes ==> c == 32
  }

  /**
   * What each group of operators yields: arithmetic and bitwise ops the left
   * operand's type (after conversion) once both operands satisfy the
   * condition, comparisons, equality and logical ops bool, assignments void;
   * and the error type exactly when a diagnostic other than 32 was reported.
   */
  lemma BinaryResultTypes(op: Ast.BinaryOp, loc: SourceLoc, lhs: Operand, rhs: Operand, pointerBits: nat)
    ensures var r := CheckBinary(op, loc, lhs, rhs, pointerBits);
            match GroupOf(op)
            case ArithmeticOp =>
              (r.result.ErrorType? && !OnlyFitCodes(r.codes))
              || (OnlyFitCodes(r.codes) && r.result == r.lhs.result && IsArithmetic(lhs.result) && IsArithmetic(rhs.result))
            case BitwiseOp =>
              (r.result.ErrorType? && !OnlyFitCodes(r.codes))
              || (OnlyFitCodes(r.codes) && r.result == r.lhs.result && IsIntegral(lhs.result) && IsIntegral(rhs.result))
            case ComparisonOp =>
              (r.result.ErrorType? && !OnlyFitCodes(r.codes))
              || (OnlyFitCodes(r.codes) && r.result == BoolType(loc) && IsArithmetic(lhs.result) && IsArithmetic(rhs.result))
            case EqualityOp =>
              (r.result.ErrorType? && !OnlyFitCodes(r.codes)) || (OnlyFitCodes(r.codes) && r.result == BoolType(loc))
            case LogicalOp =>
              (r.result.ErrorType? && !OnlyFitCodes(r.codes))
              || (OnlyFitCodes(r.codes) && r.result == BoolType(loc) && IsBoolean(lhs.result) && IsBoolean(rhs.result))
            case _ => r.result == VoidType(loc) || (r.result.ErrorType? && r.codes == [41])
  {
    var r := CheckBinary(op, loc, lhs, rhs, pointerBits);
    if r.result.ErrorType? && |r.codes| > 0 {
      assert r.codes[|r.codes| - 1] in r.codes;
    }
  }

  /**
   * The assignment rules report 42 exactly for a non-lvalue, 49 exactly for
   * an immutable left side and 50 exactly when the right side cannot be
   * made compatible; without 50, the right side's type is identical to what
   * the left side gives access to.
   */
  lemma AssignmentRules(loc: SourceLoc, lhs: Operand, rhs: Operand, pointerBits: nat)
    ensures var r := CheckAssignment(loc, lhs, rhs, pointerBits);
            r.result == VoidType(loc) && r.lhs == lhs
            && (42 in r.codes <==> !Lvalue(lhs))
            && (49 in r.codes <==> !Mut(lhs))
            && (50 in r.codes <==> !TryMakeCompatible(AccessedType(lhs.result), rhs, pointerBits).ok)
            && (50 !in r.codes ==> Equal(AccessedType(lhs.result), r.rhs.result))
  {
    var c := TryMakeCompatible(AccessedType(lhs.result), rhs, pointerBits);
    var r := CheckAssignment(loc, lhs, rhs, pointerBits);
    var front := (if Lvalue(lhs) then [] else [42]) + (if Mut(lhs) then [] else [49]);
    assert r.codes == front + c.codes + (if c.ok then [] else [50]);
    AssignmentCodes(Lvalue(lhs), Mut(lhs), c.codes, c.ok);
  }

  /** The codes of an assignment: 42, 49 and 50 each appear exactly when their check fails. */
  lemma AssignmentCodes(lvalue: bool, mutable: bool, fit: seq<int>, ok: bool)
    requires fit == [] || fit == [32]
    ensures var all := (if lvalue then [] else [42]) + (if mutable then [] else [49]) + fit + (if ok then [] else [50]);
            (42 in all <==> !lvalue) && (49 in all <==> !mutable) && (50 in all <==> !ok)
  {
    var all := (if lvalue then [] else [42]) + (if mutable then [] else [49]) + fit + (if ok then [] else [50]);
    assert forall x :: x in all <==> (x == 42 && !lvalue) || (x == 49 && !mutable) || x in fit || (x == 50 && !ok);
  }

  // ---- overload selection ----

  /** The parameter types of an overload, in order. */
  function ParamTypes(o: Environments.Overload): (ts: seq<Type>)
    ensures |ts| == |o.proto.args|
    ensures forall i :: 0 <= i < |ts| ==> ts[i] == o.proto.args[i].argType
  {
    seq(|o.proto.args|, i requires 0 <= i < |o.proto.args| => o.proto.args[i].argType)
  }

  function Min(a: nat, b: nat): nat
  {
    if a < b then a else b
  }

  /** The arguments after callable: each one paired with a parameter made compatible with it, the rest untouched. */
  function ConvertArgs(params: seq<Type>, args: seq<Operand>, pointerBits: nat): (r: seq<Operand>)
    ensures |r| == |args|
  {
    seq(|args|, i requires 0 <= i < |args| =>
      if i < |params| then TryMakeCompatible(params[i], args[i], pointerBits).operand else args[i])
  }

  /** The codes reported while making the first k arguments compatible. */
  function ArgCodes(params: seq<Type>, args: seq<Operand>, k: nat, pointerBits: nat): (r: seq<int>)
    requires k <= |params| && k <= |args|
    ensures OnlyFitCodes(r)
  {
    if k == 0 then []
    else ArgCodes(params, args, k - 1, pointerBits) + TryMakeCompatible(params[k - 1], args[k - 1], pointerBits).codes
  }

  /** callable's verdict: as many arguments as parameters, and each one made compatible with its parameter. */
  predicate CallableOn(params: seq<Type>, args: seq<Operand>, pointerBits: nat)
  {
    |params| == |args| && forall i :: 0 <= i < |args| ==> TryMakeCompatible(params[i], args[i], pointerBits).ok
  }

  /** The outcome of callable: its verdict, the arguments afterwards and the codes reported. */
  datatype Checked = Checked(ok: bool, args: seq<Operand>, codes: seq<int>)

  function CallableSpec(params: seq<Type>, args: seq<Operand>, pointerBits: nat): Checked
  {
    Checked(CallableOn(params, args, pointerBits), ConvertArgs(params, args, pointerBits),
            ArgCodes(params, args, Min(|params|, |args|), pointerBits))
  }

  /** The arguments part-way through callable: the first i converted, the rest as given. */
  function PartlyConverted(params: seq<Type>, given: seq<Operand>, i: nat, pointerBits: nat): (r: seq<Operand>)
    requires i <= |params| && i <= |given|
    ensures |r| == |given| && forall j :: i <= j < |given| ==> r[j] == given[j]
  {
    seq(|given|, j requires 0 <= j < |given| =>
      if j < i then TryMakeCompatible(params[j], given[j], pointerBits).operand else given[j])
  }

  /** Converting the next argument in place extends the converted prefix by one. */
  lemma PartlyConvertedStep(params: seq<Type>, given: seq<Operand>, i: nat, pointerBits: nat)
    requires i < |params| && i < |given|
    ensures PartlyConverted(params, given, i + 1, pointerBits)
         == PartlyConverted(params, given, i, pointerBits)[i := TryMakeCompatible(params[i], given[i], pointerBits).operand]
  {
  }

  /** Once either list runs out, the arguments are exactly those of ConvertArgs. */
  lemma PartlyConvertedDone(params: seq<Type>, given: seq<Operand>, i: nat, pointerBits: nat)
    requires i <= |params| && i <= |given| && (i == |params| || i == |given|)
    ensures PartlyConverted(params, given, i, pointerBits) == ConvertArgs(params, given, pointerBits)
  {
  }

  /** The first i arguments could all be made compatible. */
  predicate OkUpTo(params: seq<Type>, given: seq<Operand>, i: nat, pointerBits: nat)
    requires i <= |params| && i <= |given|
  {
    forall j :: 0 <= j < i ==> TryMakeCompatible(params[j], given[j], pointerBits).ok
  }

  /** Checking one more argument extends the verdict on the prefix by that argument's. */
  lemma OkUpToStep(params: seq<Type>, given: seq<Operand>, i: nat, pointerBits: nat)
    requires i < |params| && i < |given|
    ensures OkUpTo(params, given, i + 1, pointerBits)
        == (OkUpTo(params, given, i, pointerBits) && TryMakeCompatible(params[i], given[i], pointerBits).ok)
  {
  }

  /** callable's verdict once either list has run out. */
  lemma OkUpToDone(params: seq<Type>, given: seq<Operand>, i: nat, pointerBits: nat)
    requires i <= |params| && i <= |given| && (i == |params| || i == |given|)
    ensures (OkUpTo(params, given, i, pointerBits) && i == |params| && i == |given|) == CallableOn(params, given, pointerBits)
  {
  }

  /**
   * callable: walks parameters and arguments together, making each argument
   * compatible in place, and fails if any could not be or the counts differ.
   * Arguments converted before a failure stay converted.
   */
  method Callable(params: seq<Type>, args: array<Operand>, pointerBits: nat) returns (ok: bool, codes: seq<int>)
    modifies args
    ensures Checked(ok, args[..], codes) == CallableSpec(params, old(args[..]), pointerBits)
  {
    ghost var given := args[..];
    var hadFailure := false;
    codes := [];
    var i := 0;
    while i < |params| && i < args.Length
      invariant 0 <= i <= |params| && i <= args.Length
      invariant args[..] == PartlyConverted(params, given, i, pointerBits)
      invariant !hadFailure <==> OkUpTo(params, given, i, pointerBits)
      invariant codes == ArgCodes(params, given, i, pointerBits)
    {
      assert args[i] == given[i];
      var c := TryMakeCompatible(params[i], args[i], pointerBits);
      PartlyConvertedStep(params, given, i, pointerBits);
      OkUpToStep(params, given, i, pointerBits);
      args[i] := c.operand;
      if !c.ok {
        hadFailure := true;
      }
      codes := codes + c.codes;
      i := i + 1;
    }
    if i < |params| || i < args.Length {
      hadFailure := true;
    }
    ok := !hadFailure;
    PartlyConvertedDone(params, given, i, pointerBits);
    OkUpToDone(params, given, i, pointerBits);
  }

  /** When callable succeeds, every argument is identical to its parameter's type, and nothing was reported. */
  lemma CallableMeansIdentical(params: seq<Type>, args: seq<Operand>, pointerBits: nat)
    requires CallableOn(params, args, pointerBits)
    ensures var c := CallableSpec(params, args, pointerBits);
            c.codes == [] && forall i :: 0 <= i < |args| ==> Equal(params[i], c.args[i].result)
  {
    var k := |args|;
    ArgCodesOfSuccess(params, args, k, pointerBits);
  }

  lemma {:induction false} ArgCodesOfSuccess(params: seq<Type>, args: seq<Operand>, k: nat, pointerBits: nat)
    requires k <= |params| && k <= |args|
    requires forall i :: 0 <= i < k ==> TryMakeCompatible(params[i], args[i], pointerBits).ok
    ensures ArgCodes(params, args, k, pointerBits) == []
  {
    if k > 0 {
      ArgCodesOfSuccess(params, args, k - 1, pointerBits);
    }
  }

  /** The outcome of select_overload: the overload chosen, the arguments afterwards and the codes reported. */
  datatype Selection = Selection(chosen: Option<nat>, args: seq<Operand>, codes: seq<int>)

  /**
   * report_ambiguous from the k-th overload on: callable runs again on each
   * overload, for its effect on the arguments; `codes` is what was reported
   * before.
   */
  function AmbiguityPass(fns: seq<Environments.Overload>, args: seq<Operand>, k: nat, codes: seq<int>, pointerBits: nat): Checked
    decreases |fns| - k
  {
    if k >= |fns| then Checked(true, args, codes)
    else
      var c := CallableSpec(ParamTypes(fns[k]), args, pointerBits);
      AmbiguityPass(fns, c.args, k + 1, codes + c.codes, pointerBits)
  }

  /**
   * select_overload from the k-th overload on, with `ptr` the one chosen so
   * far: a second callable overload reports 27 (after report_ambiguous's
   * pass) and keeps the first; none at all reports 51. The arguments are
   * threaded through every callable.
   */
  function SelectFrom(fns: seq<Environments.Overload>, args: seq<Operand>, k: nat, ptr: Option<nat>,
                      codes: seq<int>, pointerBits: nat): Selection
    decreases |fns| - k
  {
    if k >= |fns| then
      if ptr.None? then Selection(None, args, codes + [51]) else Selection(ptr, args, codes)
    else
      var c := CallableSpec(ParamTypes(fns[k]), args, pointerBits);
      if c.ok && ptr.Some? then
        var pass := AmbiguityPass(fns, c.args, 0, codes + c.codes, pointerBits);
        Selection(ptr, pass.args, pass.codes + [27])
      else SelectFrom(fns, c.args, k + 1, if c.ok then Some(k) else ptr, codes + c.codes, pointerBits)
  }

  /** select_overload as written. */
  function Select(fns: seq<Environments.Overload>, args: seq<Operand>, pointerBits: nat): Selection
  {
    SelectFrom(fns, args, 0, None, [], pointerBits)
  }

  /** report_ambiguous's loop of callable over every overload. */
  method ReportAmbiguous(fns: seq<Environments.Overload>, args: array<Operand>, codes: seq<int>, pointerBits: nat)
    returns (after: seq<int>)
    modifies args
    ensures Checked(true, args[..], after) == AmbiguityPass(fns, old(args[..]), 0, codes, pointerBits)
  {
    after := codes;
    for k := 0 to |fns|
      invariant AmbiguityPass(fns, args[..], k, after, pointerBits) == AmbiguityPass(fns, old(args[..]), 0, codes, pointerBits)
    {
      var _, c := Callable(ParamTypes(fns[k]), args, pointerBits);
      after := after + c;
    }
  }

  /**
   * select_overload: the first callable overload, unless a second one is
   * callable too (27, ambiguous) or none is (51). Every callable rewrites
   * the arguments in place.
   */
  method SelectOverload(fns: seq<Environments.Overload>, args: array<Operand>, pointerBits: nat)
    returns (chosen: Option<nat>, codes: seq<int>)
    modifies args
    ensures Selection(chosen, args[..], codes) == Select(fns, old(args[..]), pointerBits)
  {
    chosen := None;
    codes := [];
    for k := 0 to |fns|
      invariant SelectFrom(fns, args[..], k, chosen, codes, pointerBits) == Select(fns, old(args[..]), pointerBits)
    {
      var ok, c := Callable(ParamTypes(fns[k]), args, pointerBits);
      codes := codes + c;
      if ok {
        if chosen.Some? {
          codes := ReportAmbiguous(fns, args, codes, pointerBits);
          codes := codes + [27];
          return;
        }
        chosen := Some(k);
      }
    }
    if chosen.None? {
      codes := codes + [51];
    }
  }

  /** The first overload from the k-th on that is callable with the arguments as given. */
  function FirstCallableFrom(fns: seq<Environments.Overload>, args: seq<Operand>, k: nat, pointerBits: nat): (r: Option<nat>)
    ensures r.Some? ==> k <= r.value < |fns| && CallableOn(ParamTypes(fns[r.value]), args, pointerBits)
    ensures r.Some? ==> forall j :: k <= j < r.value ==> !CallableOn(ParamTypes(fns[j]), args, pointerBits)
    ensures r.None? ==> forall j :: k <= j < |fns| ==> !CallableOn(ParamTypes(fns[j]), args, pointerBits)
    decreases |fns| - k
  {
    if k >= |fns| then None
    else if CallableOn(ParamTypes(fns[k]), args, pointerBits) then Some(k)
    else FirstCallableFrom(fns, args, k + 1, pointerBits)
  }

  function FirstCallable(fns: seq<Environments.Overload>, args: seq<Operand>, pointerBits: nat): (r: Option<nat>)
    ensures r.Some? ==> r.value < |fns| && CallableOn(ParamTypes(fns[r.value]), args, pointerBits)
    ensures r.Some? ==> forall j :: 0 <= j < r.value ==> !CallableOn(ParamTypes(fns[j]), args, pointerBits)
    ensures r.None? ==> forall j :: 0 <= j < |fns| ==> !CallableOn(ParamTypes(fns[j]), args, pointerBits)
  {
    FirstCallableFrom(fns, args, 0, pointerBits)
  }

  /** Two overloads are callable with the arguments as given. */
  predicate Ambiguous(fns: seq<Environments.Overload>, args: seq<Operand>, pointerBits: nat)
  {
    exists j, k :: 0 <= j < k < |fns| && CallableOn(ParamTypes(fns[j]), args, pointerBits)
                                      && CallableOn(ParamTypes(fns[k]), args, pointerBits)
  }

  /** The last code reported, if any. */
  function LastCode(codes: seq<int>): Option<int>
  {
    if |codes| == 0 then None else Some(codes[|codes| - 1])
  }

  /**
   * Overload selection as evidently intended: callability is judged on the
   * arguments as given, and only the chosen overload converts them. The
   * first callable overload is chosen, 27 is reported when a second is
   * callable too and 51 when none is.
   */
  function SelectFixed(fns: seq<Environments.Overload>, args: seq<Operand>, pointerBits: nat): (r: Selection)
    ensures r.chosen == FirstCallable(fns, args, pointerBits)
    ensures r.chosen.None? <==> LastCode(r.codes) == Some(51)
    ensures Ambiguous(fns, args, pointerBits) <==> LastCode(r.codes) == Some(27)
    ensures r.chosen.None? ==> r.args == args
    ensures |r.args| == |args|
    ensures r.chosen.Some? ==> r.chosen.value < |fns| && |ParamTypes(fns[r.chosen.value])| == |args|
    ensures r.chosen.Some? ==>
              forall i :: 0 <= i < |args| ==> Equal(ParamTypes(fns[r.chosen.value])[i], r.args[i].result)
  {
    match FirstCallable(fns, args, pointerBits)
    case None => Selection(None, args, [51])
    case Some(k) =>
      CallableMeansIdentical(ParamTypes(fns[k]), args, pointerBits);
      var amb := exists j :: k < j < |fns| && CallableOn(ParamTypes(fns[j]), args, pointerBits);
      Selection(Some(k), CallableSpec(ParamTypes(fns[k]), args, pointerBits).args, if amb then [27] else [])
  }

  /**
   * Arguments that no parameter of any overload would rewrite: making them
   * compatible leaves each of them as it is.
   */
  predicate Settled(fns: seq<Environments.Overload>, args: seq<Operand>, pointerBits: nat)
  {
    forall k, i :: 0 <= k < |fns| && 0 <= i < |args| && i < |fns[k].proto.args| ==>
      TryMakeCompatible(fns[k].proto.args[i].argType, args[i], pointerBits).operand == args[i]
  }

  lemma SettledArgsStay(fns: seq<Environments.Overload>, args: seq<Operand>, k: nat, pointerBits: nat)
    requires Settled(fns, args, pointerBits) && k < |fns|
    ensures CallableSpec(ParamTypes(fns[k]), args, pointerBits).args == args
  {
  }

  lemma {:induction false} AmbiguityPassSettled(fns: seq<Environments.Overload>, args: seq<Operand>, k: nat,
                                                codes: seq<int>, pointerBits: nat)
    requires Settled(fns, args, pointerBits) && OnlyFitCodes(codes)
    ensures AmbiguityPass(fns, args, k, codes, pointerBits).args == args
    ensures OnlyFitCodes(AmbiguityPass(fns, args, k, codes, pointerBits).codes)
    decreases |fns| - k
  {
    if k < |fns| {
      SettledArgsStay(fns, args, k, pointerBits);
      AmbiguityPassSettled(fns, args, k + 1, codes + CallableSpec(ParamTypes(fns[k]), args, pointerBits).codes, pointerBits);
    }
  }

  /**
   * What the loop yields on settled arguments: the first callable overload,
   * the arguments unchanged, 51 last exactly when none is callable and 27
   * last exactly when the call is ambiguous.
   */
  ghost predicate SettledSelection(fns: seq<Environments.Overload>, args: seq<Operand>, pointerBits: nat, r: Selection)
  {
    r.chosen == FirstCallable(fns, args, pointerBits) && r.args == args
    && (r.chosen.None? <==> LastCode(r.codes) == Some(51))
    && (Ambiguous(fns, args, pointerBits) <==> LastCode(r.codes) == Some(27))
  }

  /**
   * The invariant of select_overload's loop on settled arguments after k
   * overloads: ptr is the first callable one so far and no later one is.
   */
  predicate SettledLoop(fns: seq<Environments.Overload>, args: seq<Operand>, k: nat,
                        ptr: Option<nat>, codes: seq<int>, pointerBits: nat)
  {
    Settled(fns, args, pointerBits) && k <= |fns| && OnlyFitCodes(codes)
    && ptr == FirstCallableFrom(fns[..k], args, 0, pointerBits)
    && (ptr.Some? ==> forall j :: ptr.value < j < k ==> !CallableOn(ParamTypes(fns[j]), args, pointerBits))
  }

  /** The loop of select_overload on settled arguments, from any point its invariant allows. */
  lemma {:induction false} SelectFromSettled(fns: seq<Environments.Overload>, args: seq<Operand>, k: nat,
                                             ptr: Option<nat>, codes: seq<int>, pointerBits: nat)
    requires SettledLoop(fns, args, k, ptr, codes, pointerBits)
    ensures SettledSelection(fns, args, pointerBits, SelectFrom(fns, args, k, ptr, codes, pointerBits))
    decreases |fns| - k, 1
  {
    if k == |fns| {
      SettledDone(fns, args, ptr, codes, pointerBits);
    } else if CallableOn(ParamTypes(fns[k]), args, pointerBits) && ptr.Some? {
      SettledAmbiguous(fns, args, k, ptr, codes, pointerBits);
    } else {
      SettledContinues(fns, args, k, ptr, codes, pointerBits);
    }
  }

  /** A turn of the loop that neither ends it nor finds a second callable overload: the rest of the loop decides. */
  lemma {:induction false} SettledContinues(fns: seq<Environments.Overload>, args: seq<Operand>, k: nat,
                                            ptr: Option<nat>, codes: seq<int>, pointerBits: nat)
    requires SettledLoop(fns, args, k, ptr, codes, pointerBits) && k < |fns|
    requires !(CallableOn(ParamTypes(fns[k]), args, pointerBits) && ptr.Some?)
    ensures SettledSelection(fns, args, pointerBits, SelectFrom(fns, args, k, ptr, codes, pointerBits))
    decreases |fns| - k, 0
  {
    var next, nextCodes := SettledAdvance(fns, args, k, ptr, codes, pointerBits);
    SelectFromSettled(fns, args, k + 1, next, nextCodes, pointerBits);
  }

  /** One overload further without a second callable one: the loop's invariant holds again. */
  lemma SettledAdvance(fns: seq<Environments.Overload>, args: seq<Operand>, k: nat,
                       ptr: Option<nat>, codes: seq<int>, pointerBits: nat)
    returns (next: Option<nat>, nextCodes: seq<int>)
    requires SettledLoop(fns, args, k, ptr, codes, pointerBits) && k < |fns|
    requires !(CallableOn(ParamTypes(fns[k]), args, pointerBits) && ptr.Some?)
    ensures next == if CallableOn(ParamTypes(fns[k]), args, pointerBits) then Some(k) else ptr
    ensures nextCodes == codes + CallableSpec(ParamTypes(fns[k]), args, pointerBits).codes
    ensures SettledLoop(fns, args, k + 1, next, nextCodes, pointerBits)
    ensures SelectFrom(fns, args, k, ptr, codes, pointerBits) == SelectFrom(fns, args, k + 1, next, nextCodes, pointerBits)
  {
    next := if CallableOn(ParamTypes(fns[k]), args, pointerBits) then Some(k) else ptr;
    nextCodes := codes + CallableSpec(ParamTypes(fns[k]), args, pointerBits).codes;
    SettledArgsStay(fns, args, k, pointerBits);
    SettledNext(fns, args, k, ptr, pointerBits);
    SelectFromStep(fns, args, k, ptr, codes, pointerBits);
  }

  /** The first callable overload of the prefix one longer, when the next overload is not a second one. */
  lemma SettledNext(fns: seq<Environments.Overload>, args: seq<Operand>, k: nat, ptr: Option<nat>, pointerBits: nat)
    requires k < |fns|
    requires ptr == FirstCallableFrom(fns[..k], args, 0, pointerBits)
    requires ptr.Some? ==> forall j :: ptr.value < j < k ==> !CallableOn(ParamTypes(fns[j]), args, pointerBits)
    requires !(CallableOn(ParamTypes(fns[k]), args, pointerBits) && ptr.Some?)
    ensures var next := if CallableOn(ParamTypes(fns[k]), args, pointerBits) then Some(k) else ptr;
            next == FirstCallableFrom(fns[..k + 1], args, 0, pointerBits)
            && (next.Some? ==> forall j :: next.value < j < k + 1 ==> !CallableOn(ParamTypes(fns[j]), args, pointerBits))
  {
    FirstFromPrefix(fns, args, k, pointerBits);
  }

  /** One turn of the loop that neither ends it nor finds a second callable overload. */
  lemma SelectFromStep(fns: seq<Environments.Overload>, args: seq<Operand>, k: nat,
                       ptr: Option<nat>, codes: seq<int>, pointerBits: nat)
    requires k < |fns|
    requires var c := CallableSpec(ParamTypes(fns[k]), args, pointerBits); c.args == args && !(c.ok && ptr.Some?)
    ensures var c := CallableSpec(ParamTypes(fns[k]), args, pointerBits);
            SelectFrom(fns, args, k, ptr, codes, pointerBits)
            == SelectFrom(fns, args, k + 1, if c.ok then Some(k) else ptr, codes + c.codes, pointerBits)
  {
  }

  /** The end of the loop on settled arguments: the verdict is the last code. */
  lemma SettledDone(fns: seq<Environments.Overload>, args: seq<Operand>, ptr: Option<nat>, codes: seq<int>, pointerBits: nat)
    requires SettledLoop(fns, args, |fns|, ptr, codes, pointerBits)
    ensures SettledSelection(fns, args, pointerBits, SelectFrom(fns, args, |fns|, ptr, codes, pointerBits))
  {
    assert fns[..|fns|] == fns;
    if ptr.Some? {
      assert !Ambiguous(fns, args, pointerBits);
      if |codes| > 0 {
        assert codes[|codes| - 1] in codes;
      }
    }
  }

  /** A second callable overload on settled arguments: the ambiguity pass decides. */
  lemma SettledAmbiguous(fns: seq<Environments.Overload>, args: seq<Operand>, k: nat,
                         ptr: Option<nat>, codes: seq<int>, pointerBits: nat)
    requires SettledLoop(fns, args, k, ptr, codes, pointerBits) && k < |fns|
    requires ptr.Some? && CallableSpec(ParamTypes(fns[k]), args, pointerBits).ok
    ensures SettledSelection(fns, args, pointerBits, SelectFrom(fns, args, k, ptr, codes, pointerBits))
  {
    var c := CallableSpec(ParamTypes(fns[k]), args, pointerBits);
    assert forall j :: 0 <= j < k ==> fns[..k][j] == fns[j];
    SettledArgsStay(fns, args, k, pointerBits);
    FirstFromPrefix(fns, args, k, pointerBits);
    assert ptr.value < k && CallableOn(ParamTypes(fns[ptr.value]), args, pointerBits);
    AmbiguityPassSettled(fns, c.args, 0, codes + c.codes, pointerBits);
    FirstFromPrefix(fns, args, |fns|, pointerBits);
    assert fns[..|fns|] == fns;
  }

  /** Extending the prefix by one overload: the first callable stays, or becomes the new one. */
  lemma FirstFromPrefix(fns: seq<Environments.Overload>, args: seq<Operand>, k: nat, pointerBits: nat)
    requires k <= |fns|
    ensures var p := FirstCallableFrom(fns[..k], args, 0, pointerBits);
            p.Some? ==> FirstCallable(fns, args, pointerBits) == p
    ensures k < |fns| ==>
              FirstCallableFrom(fns[..k + 1], args, 0, pointerBits)
              == (match FirstCallableFrom(fns[..k], args, 0, pointerBits)
                  case Some(j) => Some(j)
                  case None => if CallableOn(ParamTypes(fns[k]), args, pointerBits) then Some(k) else None)
  {
    assert forall j :: 0 <= j < k ==> fns[..k][j] == fns[j];
    var p := FirstCallableFrom(fns[..k], args, 0, pointerBits);
    var q := FirstCallable(fns, args, pointerBits);
    if p.Some? {
      assert q.Some? && q.value <= p.value;
    }
    if k < |fns| {
      assert forall j :: 0 <= j <= k ==> fns[..k + 1][j] == fns[j];
    }
  }

  /**
   * On settled arguments, select_overload as written chooses what the
   * intended selection chooses, leaves the arguments alone, and reports 27
   * and 51 in the same cases.
   */
  lemma SelectAgreesWhenSettled(fns: seq<Environments.Overload>, args: seq<Operand>, pointerBits: nat)
    requires Settled(fns, args, pointerBits)
    ensures var r := Select(fns, args, pointerBits);
            var f := SelectFixed(fns, args, pointerBits);
            r.chosen == f.chosen && r.args == args
            && (LastCode(r.codes) == Some(51) <==> LastCode(f.codes) == Some(51))
            && (LastCode(r.codes) == Some(27) <==> LastCode(f.codes) == Some(27))
  {
    assert fns[..0] == [];
    SelectFromSettled(fns, args, 0, None, [], pointerBits);
  }

  /** An overload `f(params...) -> void` at `l`, for the example below. */
  function ExampleOverload(l: SourceLoc, params: seq<Type>): (o: Environments.Overload)
    ensures ParamTypes(o) == params
  {
    Environments.Overload(l, Ast.FnPrototype("f", None,
      seq(|params|, i requires 0 <= i < |params| => Ast.Argument(l, "x", params[i])), [], VoidType(l)))
  }

  /** The literal 5 fits `i8` and `i64`, and converts to neither bool nor, once narrowed, `i64`. */
  lemma ExampleNarrows(l: SourceLoc)
    ensures TryMakeCompatible(IntegralType(l, true, Width(8)), Operand(Other, UnsizedIntegerType(l, 5), false), 64)
            == Converted(true, Operand(ImplicitConversion, IntegralType(l, true, Width(8)), false), [])
  {
    var i8 := IntegralType(l, true, Width(8));
    assert SizeOfBits(i8, 64) == 7;
    assert Misc.Pow(2, 7) == 128;
    assert !TooBig(i8, 5, 64);
  }

  /** A literal below 8 fits every target with at least three value bits. */
  lemma SmallLiteralFits(t: Type, value: nat, pointerBits: nat)
    requires FitTarget(t) && SizeOfBits(t, pointerBits) >= 3 && value < 8
    ensures !TooBig(t, value, pointerBits)
  {
    PowMonotone(3, SizeOfBits(t, pointerBits));
    assert Misc.Pow(2, 3) == 8;
  }

  lemma ExampleFitsI64(l: SourceLoc)
    ensures TryMakeCompatible(IntegralType(l, true, Width(64)), Operand(Other, UnsizedIntegerType(l, 5), false), 64)
            == Converted(true, Operand(ImplicitConversion, IntegralType(l, true, Width(64)), false), [])
  {
    var i64 := IntegralType(l, true, Width(64));
    assert SizeOfBits(i64, 64) == 63;
    SmallLiteralFits(i64, 5, 64);
  }

  lemma ExampleRejects(l: SourceLoc)
    ensures TryMakeCompatible(BoolType(l), Operand(Other, UnsizedIntegerType(l, 5), false), 64)
            == Converted(false, Operand(Other, UnsizedIntegerType(l, 5), false), [])
    ensures TryMakeCompatible(IntegralType(l, true, Width(64)), Operand(ImplicitConversion, IntegralType(l, true, Width(8)), false), 64)
            == Converted(false, Operand(ImplicitConversion, IntegralType(l, true, Width(8)), false), [])
  {
    var narrowed := Operand(ImplicitConversion, IntegralType(l, true, Width(8)), false);
    assert !InternalEqual(IntegralType(l, true, Width(64)), narrowed.result);
    assert !Equal(IntegralType(l, true, Width(64)), narrowed.result);
    assert !Convertible(IntegralType(l, true, Width(64)), narrowed);
  }

  /** Each overload's verdict in the example, on the arguments it sees. */
  lemma ExampleCallables(l: SourceLoc)
    ensures CallableSpec([IntegralType(l, true, Width(8)), BoolType(l)],
                         [Operand(Other, UnsizedIntegerType(l, 5), false), Operand(Other, UnsizedIntegerType(l, 5), false)], 64)
            == Checked(false, [Operand(ImplicitConversion, IntegralType(l, true, Width(8)), false),
                               Operand(Other, UnsizedIntegerType(l, 5), false)], [])
    ensures CallableSpec([IntegralType(l, true, Width(64)), IntegralType(l, true, Width(64))],
                         [Operand(ImplicitConversion, IntegralType(l, true, Width(8)), false),
                          Operand(Other, UnsizedIntegerType(l, 5), false)], 64)
            == Checked(false, [Operand(ImplicitConversion, IntegralType(l, true, Width(8)), false),
                               Operand(ImplicitConversion, IntegralType(l, true, Width(64)), false)], [])
    ensures CallableOn([IntegralType(l, true, Width(64)), IntegralType(l, true, Width(64))],
                       [Operand(Other, UnsizedIntegerType(l, 5), false), Operand(Other, UnsizedIntegerType(l, 5), false)], 64)
  {
    ExampleNarrows(l);
    ExampleFitsI64(l);
    ExampleRejects(l);
    var i8 := IntegralType(l, true, Width(8));
    var i64 := IntegralType(l, true, Width(64));
    var five := Operand(Other, UnsizedIntegerType(l, 5), false);
    var narrowed := Operand(ImplicitConversion, i8, false);
    assert ConvertArgs([i8, BoolType(l)], [five, five], 64) == [narrowed, five];
    assert ArgCodes([i8, BoolType(l)], [five, five], 1, 64) == [];
    assert ArgCodes([i8, BoolType(l)], [five, five], 2, 64) == [];
    assert !TryMakeCompatible(i64, narrowed, 64).ok;
    assert !TryMakeCompatible([i64, i64][0], [narrowed, five][0], 64).ok;
    assert ConvertArgs([i64, i64], [narrowed, five], 64) == [narrowed, Operand(ImplicitConversion, i64, false)];
    assert ArgCodes([i64, i64], [narrowed, five], 1, 64) == [];
    assert ArgCodes([i64, i64], [narrowed, five], 2, 64) == [];
    assert TryMakeCompatible(i64, five, 64).operand.result == i64;
    EqualReflexive(i64);
    assert TryMakeCompatible(i64, TryMakeCompatible(i64, five, 64).operand, 64).ok;
  }

  /**
   * As written, a failed candidate's conversions leak into the next: with
   * `f(i8, bool)` declared before `f(i64, i64)`, the call `f(5, 5)` narrows
   * the first literal to `i8` while trying the first overload, so the second
   * no longer accepts it and 51 is reported, although `f(i64, i64)` accepts
   * the arguments as written in the call.
   */
  lemma ConversionHidesOverload(l: SourceLoc)
    ensures var i8 := IntegralType(l, true, Width(8));
            var i64 := IntegralType(l, true, Width(64));
            var fns := [ExampleOverload(l, [i8, BoolType(l)]), ExampleOverload(l, [i64, i64])];
            var five := Operand(Other, UnsizedIntegerType(l, 5), false);
            Select(fns, [five, five], 64).chosen.None? && LastCode(Select(fns, [five, five], 64).codes) == Some(51)
            && SelectFixed(fns, [five, five], 64).chosen == Some(1)
  {
    NarrowingLeaks(l);
    FixedSkipsNarrowing(l);
  }

  /** As written, trying `f(i8, bool)` narrows the first literal, and `f(i64, i64)` then rejects it. */
  lemma NarrowingLeaks(l: SourceLoc)
    ensures var i8 := IntegralType(l, true, Width(8));
            var i64 := IntegralType(l, true, Width(64));
            var fns := [ExampleOverload(l, [i8, BoolType(l)]), ExampleOverload(l, [i64, i64])];
            var five := Operand(Other, UnsizedIntegerType(l, 5), false);
            Select(fns, [five, five], 64).chosen.None? && LastCode(Select(fns, [five, five], 64).codes) == Some(51)
  {
    ExampleCallables(l);
    var i8 := IntegralType(l, true, Width(8));
    var i64 := IntegralType(l, true, Width(64));
    var fns := [ExampleOverload(l, [i8, BoolType(l)]), ExampleOverload(l, [i64, i64])];
    var five := Operand(Other, UnsizedIntegerType(l, 5), false);
    var narrowed := Operand(ImplicitConversion, i8, false);
    var widened := Operand(ImplicitConversion, i64, false);
    assert ParamTypes(fns[0]) == [i8, BoolType(l)] && ParamTypes(fns[1]) == [i64, i64];
    assert SelectFrom(fns, [five, five], 0, None, [], 64) == SelectFrom(fns, [narrowed, five], 1, None, [], 64);
    assert SelectFrom(fns, [narrowed, five], 1, None, [], 64) == SelectFrom(fns, [narrowed, widened], 2, None, [], 64);
  }

  /** Testing each candidate on the call's own arguments selects `f(i64, i64)`. */
  lemma FixedSkipsNarrowing(l: SourceLoc)
    ensures var i8 := IntegralType(l, true, Width(8));
            var i64 := IntegralType(l, true, Width(64));
            var fns := [ExampleOverload(l, [i8, BoolType(l)]), ExampleOverload(l, [i64, i64])];
            var five := Operand(Other, UnsizedIntegerType(l, 5), false);
            SelectFixed(fns, [five, five], 64).chosen == Some(1)
  {
    ExampleCallables(l);
    var i8 := IntegralType(l, true, Width(8));
    var i64 := IntegralType(l, true, Width(64));
    var fns := [ExampleOverload(l, [i8, BoolType(l)]), ExampleOverload(l, [i64, i64])];
    var five := Operand(Other, UnsizedIntegerType(l, 5), false);
    assert ParamTypes(fns[0]) == [i8, BoolType(l)] && ParamTypes(fns[1]) == [i64, i64];
    assert !CallableOn(ParamTypes(fns[0]), [five, five], 64);
  }
}
