// Type nodes of the AST (compiler/src/ast/nodes/type.h, type.cc) and the
// generic-argument helpers of compiler/src/ast/nodes/ast_node.h.
module Types {
  import opened Basics
  import opened Ids
  import opened SourceLocs
  import Misc

  /** IntegerWidth: the platform's native width, or a bit count. */
  datatype IntegerWidth = NativeWidth | Width(bits: nat)

  datatype FloatWidth = IeeeSingle | IeeeDouble | IeeeQuadruple

  /** TypeType, one tag per kind of type node, in declaration order. */
  datatype TypeKind =
    | Reference | Slice | Pointer | BuiltinIntegral | BuiltinFloat | BuiltinBool
    | BuiltinByte | BuiltinChar | BuiltinVoid | UserDefinedUnqualified | UserDefined
    | FnPointer | DynInterfaceUnqualified | DynInterface | Error | NilPointer
    | UnsizedInteger | Array | Indirection

  /**
   * A type node. Every kind but the error type carries its source location;
   * the error type is always made at the nonexistent location.
   */
  datatype Type =
    | ReferenceType(loc: SourceLoc, mut: bool, referenced: Type)
    | SliceType(loc: SourceLoc, mut: bool, sliced: Type)
    | PointerType(loc: SourceLoc, mut: bool, pointed: Type)
    | IntegralType(loc: SourceLoc, hasSign: bool, width: IntegerWidth)
    | FloatType(loc: SourceLoc, fwidth: FloatWidth)
    | BoolType(loc: SourceLoc)
    | ByteType(loc: SourceLoc)
    | CharType(loc: SourceLoc)
    | VoidType(loc: SourceLoc)
    | UnqualifiedUserType(loc: SourceLoc, uid: UnqualifiedID, generics: seq<Type>)
    | UserType(loc: SourceLoc, id: QualifiedName, generics: seq<Type>)
    | FnPointerType(loc: SourceLoc, args: seq<Type>, ret: Type)
    | UnqualifiedDynType(loc: SourceLoc, uid: UnqualifiedID, generics: seq<Type>)
    | DynType(loc: SourceLoc, id: QualifiedName, generics: seq<Type>)
    | ErrorType
    | NilPointerType(loc: SourceLoc)
    | UnsizedIntegerType(loc: SourceLoc, value: nat)
    | ArrayType(loc: SourceLoc, size: nat, element: Type)
    | IndirectionType(loc: SourceLoc, produced: Type, mut: bool)
  {
    /** Node::loc(). */
    function Loc(): SourceLoc
    {
      if ErrorType? then Nonexistent else loc
    }
  }

  /** Type::type(): the kind tag of a node. */
  function Kind(t: Type): TypeKind
  {
    match t
    case ReferenceType(_, _, _) => Reference
    case SliceType(_, _, _) => Slice
    case PointerType(_, _, _) => Pointer
    case IntegralType(_, _, _) => BuiltinIntegral
    case FloatType(_, _) => BuiltinFloat
    case BoolType(_) => BuiltinBool
    case ByteType(_) => BuiltinByte
    case CharType(_) => BuiltinChar
    case VoidType(_) => BuiltinVoid
    case UnqualifiedUserType(_, _, _) => UserDefinedUnqualified
    case UserType(_, _, _) => UserDefined
    case FnPointerType(_, _, _) => FnPointer
    case UnqualifiedDynType(_, _, _) => DynInterfaceUnqualified
    case DynType(_, _, _) => DynInterface
    case ErrorType => Error
    case NilPointerType(_) => NilPointer
    case UnsizedIntegerType(_, _) => UnsizedInteger
    case ArrayType(_, _, _) => Array
    case IndirectionType(_, _, _) => Indirection
  }

  /**
   * Type's operator==: the error type equals everything; otherwise the kinds
   * must agree and the kind-specific fields must be equal. Locations, the
   * slice mutability and the value of an unsized literal are not compared.
   * Unqualified identifiers are compared by value (see UnqualifiedEqual).
   */
  function Equal(a: Type, b: Type): bool
    decreases a, 1
  {
    if a.ErrorType? || b.ErrorType? then true
    else Kind(a) == Kind(b) && InternalEqual(a, b)
  }

  /** internal_equals, per kind; both nodes have the same kind and neither is the error type. */
  function InternalEqual(a: Type, b: Type): bool
    requires Kind(a) == Kind(b)
    decreases a, 0
  {
    match a
    case ReferenceType(_, m, r) => m == b.mut && Equal(r, b.referenced)
    case SliceType(_, _, s) => Equal(s, b.sliced)
    case PointerType(_, m, p) => m == b.mut && Equal(p, b.pointed)
    case IntegralType(_, s, w) => w == b.width && s == b.hasSign
    case FloatType(_, w) => w == b.fwidth
    case UnqualifiedUserType(_, u, g) => UnqualifiedEqual(u, b.uid) && ElementwiseEqual(g, b.generics)
    case UserType(_, i, g) => QualifiedEqual(i, b.id) && ElementwiseEqual(g, b.generics)
    case FnPointerType(_, args, r) => Equal(r, b.ret) && ElementwiseEqual(args, b.args)
    case UnqualifiedDynType(_, u, g) => UnqualifiedEqual(u, b.uid) && ElementwiseEqual(g, b.generics)
    case DynType(_, i, g) => QualifiedEqual(i, b.id) && ElementwiseEqual(g, b.generics)
    case ArrayType(_, n, e) => n == b.size && Equal(e, b.element)
    case IndirectionType(_, p, _) => Equal(p, b.produced)
    case _ => true
  }

  /** std::equal with DerefEq over two lists of types. */
  function ElementwiseEqual(xs: seq<Type>, ys: seq<Type>): bool
    decreases xs, 2
  {
    if |xs| == 0 || |ys| == 0 then |xs| == |ys|
    else Equal(xs[0], ys[0]) && ElementwiseEqual(xs[1..], ys[1..])
  }

  /** GenericArgsCmp holds exactly for lists of one length that are equal position by position. */
  lemma {:induction false} ElementwiseEqualMeans(xs: seq<Type>, ys: seq<Type>)
    ensures ElementwiseEqual(xs, ys) <==> |xs| == |ys| && forall i :: 0 <= i < |xs| ==> Equal(xs[i], ys[i])
    decreases xs
  {
    if |xs| > 0 && |ys| > 0 {
      ElementwiseEqualMeans(xs[1..], ys[1..]);
      if |xs| == |ys| && ElementwiseEqual(xs[1..], ys[1..]) && Equal(xs[0], ys[0]) {
        forall i | 0 <= i < |xs| ensures Equal(xs[i], ys[i]) {
          if i > 0 {
            assert xs[i] == xs[1..][i - 1] && ys[i] == ys[1..][i - 1];
          }
        }
      }
      if |xs| == |ys| && (forall i :: 0 <= i < |xs| ==> Equal(xs[i], ys[i])) {
        forall i | 0 <= i < |xs| - 1 ensures Equal(xs[1..][i], ys[1..][i]) {
          assert xs[1..][i] == xs[i + 1] && ys[1..][i] == ys[i + 1];
        }
      }
    }
  }

  /** generic_params(): absent exactly when the list is empty. */
  function GenericParams(generics: seq<Type>): (r: Option<seq<Type>>)
    ensures r.None? <==> |generics| == 0
    ensures r.Some? ==> r.value == generics
  {
    if |generics| == 0 then None else Some(generics)
  }

  /**
   * The generics comparison inside Equal is the source's
   * unwrapping_equal(generic_params(), generic_params(), GenericArgsCmp).
   */
  lemma GenericsCompareUnwrapped(g1: seq<Type>, g2: seq<Type>)
    ensures ElementwiseEqual(g1, g2) == Misc.UnwrappingEqual(GenericParams(g1), GenericParams(g2), ElementwiseEqual)
  {
  }

  /** Type's operator!=. */
  predicate NotEqual(a: Type, b: Type)
  {
    !Equal(a, b)
  }

  /** Type::fully_equals: equal, and made at the same location. */
  predicate FullyEquals(a: Type, b: Type)
  {
    Equal(a, b) && a.Loc() == b.Loc()
  }

  /** Type::is_one_of: the kind is one of the given tags. */
  function IsOneOf(t: Type, kinds: seq<TypeKind>): (r: bool)
    ensures r <==> Kind(t) in kinds
  {
    if |kinds| == 0 then false
    else Kind(t) == kinds[0] || IsOneOf(t, kinds[1..])
  }

  /** width_of: no value for the native width, the bit count otherwise. */
  function WidthOf(w: IntegerWidth): (r: Option<nat>)
    ensures r.None? <==> w == NativeWidth
    ensures r.Some? ==> w == Width(r.value)
  {
    match w
    case NativeWidth => None
    case Width(bits) => Some(bits)
  }

  /** The documented range of widths: native, or a positive power of two. */
  predicate WellFormedWidth(w: IntegerWidth)
  {
    w.NativeWidth? || (w.bits > 0 && exists k: nat :: k < w.bits && Misc.Pow(2, k) == w.bits)
  }

  // ---- equality laws ----

  /** Every type equals itself. */
  lemma {:induction false} EqualReflexive(t: Type)
    ensures Equal(t, t)
    decreases t
  {
    match t
    case ReferenceType(_, _, r) => EqualReflexive(r);
    case SliceType(_, _, s) => EqualReflexive(s);
    case PointerType(_, _, p) => EqualReflexive(p);
    case UnqualifiedUserType(_, u, g) =>
      UnqualifiedEqualIsValueEquality(u, u);
      ElementwiseReflexive(g);
    case UserType(_, _, g) => ElementwiseReflexive(g);
    case FnPointerType(_, args, r) =>
      EqualReflexive(r);
      ElementwiseReflexive(args);
    case UnqualifiedDynType(_, u, g) =>
      UnqualifiedEqualIsValueEquality(u, u);
      ElementwiseReflexive(g);
    case DynType(_, _, g) => ElementwiseReflexive(g);
    case ArrayType(_, _, e) => EqualReflexive(e);
    case IndirectionType(_, p, _) => EqualReflexive(p);
    case _ =>
  }

  lemma {:induction false} ElementwiseReflexive(xs: seq<Type>)
    ensures ElementwiseEqual(xs, xs)
    decreases xs
  {
    if |xs| > 0 {
      EqualReflexive(xs[0]);
      ElementwiseReflexive(xs[1..]);
    }
  }

  /** Equality does not depend on the order of its operands. */
  lemma {:induction false} EqualSymmetric(a: Type, b: Type)
    ensures Equal(a, b) == Equal(b, a)
    decreases a, 1
  {
    if !a.ErrorType? && !b.ErrorType? && Kind(a) == Kind(b) {
      if a.ReferenceType? || a.SliceType? || a.PointerType? || a.ArrayType? || a.IndirectionType? {
        WrapperSymmetric(a, b);
      } else if a.UnqualifiedUserType? || a.UserType? || a.FnPointerType? || a.UnqualifiedDynType? || a.DynType? {
        ListSymmetric(a, b);
      }
    }
  }

  lemma {:induction false} WrapperSymmetric(a: Type, b: Type)
    requires Kind(a) == Kind(b)
    requires a.ReferenceType? || a.SliceType? || a.PointerType? || a.ArrayType? || a.IndirectionType?
    ensures Equal(a, b) == Equal(b, a)
    decreases a, 0
  {
    match a
    case ReferenceType(_, _, r) => EqualSymmetric(r, b.referenced);
    case SliceType(_, _, s) => EqualSymmetric(s, b.sliced);
    case PointerType(_, _, p) => EqualSymmetric(p, b.pointed);
    case ArrayType(_, _, e) => EqualSymmetric(e, b.element);
    case IndirectionType(_, p, _) => EqualSymmetric(p, b.produced);
  }

  lemma {:induction false} ListSymmetric(a: Type, b: Type)
    requires Kind(a) == Kind(b)
    requires a.UnqualifiedUserType? || a.UserType? || a.FnPointerType? || a.UnqualifiedDynType? || a.DynType?
    ensures Equal(a, b) == Equal(b, a)
    decreases a, 0
  {
    match a
    case UnqualifiedUserType(_, u, g) =>
      UnqualifiedEqualIsValueEquality(u, b.uid);
      UnqualifiedEqualIsValueEquality(b.uid, u);
      ElementwiseSymmetric(g, b.generics);
    case UserType(_, _, g) => ElementwiseSymmetric(g, b.generics);
    case FnPointerType(_, args, r) =>
      EqualSymmetric(r, b.ret);
      ElementwiseSymmetric(args, b.args);
    case UnqualifiedDynType(_, u, g) =>
      UnqualifiedEqualIsValueEquality(u, b.uid);
      UnqualifiedEqualIsValueEquality(b.uid, u);
      ElementwiseSymmetric(g, b.generics);
    case DynType(_, _, g) => ElementwiseSymmetric(g, b.generics);
  }

  lemma {:induction false} ElementwiseSymmetric(xs: seq<Type>, ys: seq<Type>)
    ensures ElementwiseEqual(xs, ys) == ElementwiseEqual(ys, xs)
    decreases xs
  {
    if |xs| > 0 && |ys| > 0 {
      EqualSymmetric(xs[0], ys[0]);
      ElementwiseSymmetric(xs[1..], ys[1..]);
    }
  }

  /** Because the error type equals everything, equality is not transitive. */
  lemma EqualNotTransitive()
    ensures var i32 := IntegralType(Nonexistent, true, Width(32));
            var b := BoolType(Nonexistent);
            Equal(i32, ErrorType) && Equal(ErrorType, b) && !Equal(i32, b)
  {
  }

  /** `!=` never holds between a type and itself. */
  lemma NotEqualIrreflexive(t: Type)
    ensures !NotEqual(t, t)
  {
    EqualReflexive(t);
  }

  /** fully_equals is stricter than `==`: the same type at two places is equal but not fully equal. */
  lemma FullyEqualsStricter()
    ensures var here := SourceLoc("bool", 1, 1, "a.gal");
            var there := SourceLoc("bool", 2, 1, "a.gal");
            Equal(BoolType(here), BoolType(there)) && !FullyEquals(BoolType(here), BoolType(there))
  {
  }

  // ---- equality against an independent definition ----

  /** No error type anywhere inside. */
  predicate ErrorFree(t: Type)
    decreases t
  {
    match t
    case ErrorType => false
    case ReferenceType(_, _, r) => ErrorFree(r)
    case SliceType(_, _, s) => ErrorFree(s)
    case PointerType(_, _, p) => ErrorFree(p)
    case UnqualifiedUserType(_, _, g) => AllErrorFree(g)
    case UserType(_, _, g) => AllErrorFree(g)
    case FnPointerType(_, args, r) => ErrorFree(r) && AllErrorFree(args)
    case UnqualifiedDynType(_, _, g) => AllErrorFree(g)
    case DynType(_, _, g) => AllErrorFree(g)
    case ArrayType(_, _, e) => ErrorFree(e)
    case IndirectionType(_, p, _) => ErrorFree(p)
    case _ => true
  }

  predicate AllErrorFree(ts: seq<Type>)
    decreases ts
  {
    |ts| == 0 || (ErrorFree(ts[0]) && AllErrorFree(ts[1..]))
  }

  /**
   * The node with everything equality ignores reset: every location, every
   * slice's mutability and every unsized literal's value.
   */
  function Erase(t: Type): (e: Type)
    ensures Kind(e) == Kind(t)
    decreases t
  {
    match t
    case ReferenceType(_, m, r) => ReferenceType(Nonexistent, m, Erase(r))
    case SliceType(_, _, s) => SliceType(Nonexistent, false, Erase(s))
    case PointerType(_, m, p) => PointerType(Nonexistent, m, Erase(p))
    case IntegralType(_, s, w) => IntegralType(Nonexistent, s, w)
    case FloatType(_, w) => FloatType(Nonexistent, w)
    case BoolType(_) => BoolType(Nonexistent)
    case ByteType(_) => ByteType(Nonexistent)
    case CharType(_) => CharType(Nonexistent)
    case VoidType(_) => VoidType(Nonexistent)
    case UnqualifiedUserType(_, u, g) => UnqualifiedUserType(Nonexistent, u, EraseAll(g))
    case UserType(_, i, g) => UserType(Nonexistent, i, EraseAll(g))
    case FnPointerType(_, args, r) => FnPointerType(Nonexistent, EraseAll(args), Erase(r))
    case UnqualifiedDynType(_, u, g) => UnqualifiedDynType(Nonexistent, u, EraseAll(g))
    case DynType(_, i, g) => DynType(Nonexistent, i, EraseAll(g))
    case ErrorType => ErrorType
    case NilPointerType(_) => NilPointerType(Nonexistent)
    case UnsizedIntegerType(_, _) => UnsizedIntegerType(Nonexistent, 0)
    case ArrayType(_, n, e) => ArrayType(Nonexistent, n, Erase(e))
    case IndirectionType(_, p, _) => IndirectionType(Nonexistent, Erase(p), false)
  }

  function EraseAll(ts: seq<Type>): (r: seq<Type>)
    ensures |r| == |ts|
    decreases ts
  {
    if |ts| == 0 then [] else [Erase(ts[0])] + EraseAll(ts[1..])
  }

  /**
   * Away from the error type, `==` is exactly equality of the nodes once
   * locations, slice mutability and unsized literal values are forgotten.
   */
  lemma {:induction false} EqualIsErasedEquality(a: Type, b: Type)
    requires ErrorFree(a) && ErrorFree(b)
    ensures Equal(a, b) <==> Erase(a) == Erase(b)
    decreases a, 1
  {
    if Kind(a) != Kind(b) {
      assert Kind(Erase(a)) != Kind(Erase(b));
    } else if a.ReferenceType? || a.SliceType? || a.PointerType? || a.ArrayType? || a.IndirectionType? {
      WrapperIsErasedEquality(a, b);
    } else if a.UnqualifiedUserType? || a.UserType? || a.UnqualifiedDynType? || a.DynType? {
      GenericsIsErasedEquality(a, b);
    } else if a.FnPointerType? {
      EqualIsErasedEquality(a.ret, b.ret);
      ElementwiseIsErasedEquality(a.args, b.args);
    } else {
      LeafIsErasedEquality(a, b);
    }
  }

  /** The kinds without a type inside. */
  lemma LeafIsErasedEquality(a: Type, b: Type)
    requires ErrorFree(a) && ErrorFree(b) && Kind(a) == Kind(b)
    requires a.IntegralType? || a.FloatType? || a.BoolType? || a.ByteType? || a.CharType? || a.VoidType?
          || a.NilPointerType? || a.UnsizedIntegerType?
    ensures Equal(a, b) <==> Erase(a) == Erase(b)
  {
  }

  /** The kinds that wrap one other type. */
  lemma {:induction false} WrapperIsErasedEquality(a: Type, b: Type)
    requires ErrorFree(a) && ErrorFree(b) && Kind(a) == Kind(b)
    requires a.ReferenceType? || a.SliceType? || a.PointerType? || a.ArrayType? || a.IndirectionType?
    ensures Equal(a, b) <==> Erase(a) == Erase(b)
    decreases a, 0
  {
    match a
    case ReferenceType(_, _, r) => EqualIsErasedEquality(r, b.referenced);
    case SliceType(_, _, s) => EqualIsErasedEquality(s, b.sliced);
    case PointerType(_, _, p) => EqualIsErasedEquality(p, b.pointed);
    case ArrayType(_, _, e) => EqualIsErasedEquality(e, b.element);
    case IndirectionType(_, p, _) => EqualIsErasedEquality(p, b.produced);
  }

  /** The kinds that carry generic parameters. */
  lemma {:induction false} GenericsIsErasedEquality(a: Type, b: Type)
    requires ErrorFree(a) && ErrorFree(b) && Kind(a) == Kind(b)
    requires a.UnqualifiedUserType? || a.UserType? || a.UnqualifiedDynType? || a.DynType?
    ensures Equal(a, b) <==> Erase(a) == Erase(b)
    decreases a, 0
  {
    match a
    case UnqualifiedUserType(_, u, g) =>
      UnqualifiedEqualIsValueEquality(u, b.uid);
      ElementwiseIsErasedEquality(g, b.generics);
    case UserType(_, i, g) =>
      QualifiedEqualIsSplitEquality(i, b.id);
      ElementwiseIsErasedEquality(g, b.generics);
    case UnqualifiedDynType(_, u, g) =>
      UnqualifiedEqualIsValueEquality(u, b.uid);
      ElementwiseIsErasedEquality(g, b.generics);
    case DynType(_, i, g) =>
      QualifiedEqualIsSplitEquality(i, b.id);
      ElementwiseIsErasedEquality(g, b.generics);
  }

  lemma {:induction false} ElementwiseIsErasedEquality(xs: seq<Type>, ys: seq<Type>)
    requires AllErrorFree(xs) && AllErrorFree(ys)
    ensures ElementwiseEqual(xs, ys) <==> EraseAll(xs) == EraseAll(ys)
    decreases xs
  {
    if |xs| > 0 && |ys| > 0 {
      EqualIsErasedEquality(xs[0], ys[0]);
      ElementwiseIsErasedEquality(xs[1..], ys[1..]);
      var ex, ey := EraseAll(xs), EraseAll(ys);
      assert ex == [Erase(xs[0])] + EraseAll(xs[1..]);
      assert ey == [Erase(ys[0])] + EraseAll(ys[1..]);
      if ex == ey {
        assert ex[0] == ey[0];
        assert ex[1..] == EraseAll(xs[1..]) && ey[1..] == EraseAll(ys[1..]);
      }
    }
  }

  // ---- clone ----

  /**
   * internal_clone as written. The result is None where the source hands back
   * an empty pointer: an indirection type clones to nothing, and so does
   * every node that clones one. A dyn interface type clones to a user-defined
   * type, and an unqualified user-defined type loses its generic parameters.
   */
  function CloneAsWritten(t: Type): Option<Type>
    decreases t
  {
    match t
    case ReferenceType(l, m, r) => Wrap(CloneAsWritten(r), x => ReferenceType(l, m, x))
    case SliceType(l, m, s) => Wrap(CloneAsWritten(s), x => SliceType(l, m, x))
    case PointerType(l, m, p) => Wrap(CloneAsWritten(p), x => PointerType(l, m, x))
    case UnqualifiedUserType(l, u, _) => Some(UnqualifiedUserType(l, u, []))
    case UserType(l, i, g) => WrapAll(CloneAllAsWritten(g), xs => UserType(l, i, xs))
    case FnPointerType(l, args, r) =>
      var cargs := CloneAllAsWritten(args);
      var cr := CloneAsWritten(r);
      if cargs.None? || cr.None? then None else Some(FnPointerType(l, cargs.value, cr.value))
    case UnqualifiedDynType(l, u, g) => WrapAll(CloneAllAsWritten(g), xs => UnqualifiedDynType(l, u, xs))
    case DynType(l, i, g) => WrapAll(CloneAllAsWritten(g), xs => UserType(l, i, xs))
    case ArrayType(l, n, e) => Wrap(CloneAsWritten(e), x => ArrayType(l, n, x))
    case IndirectionType(_, _, _) => None
    case _ => Some(t)
  }

  /** clone_generics / clone_span as written: every element cloned, in order. */
  function CloneAllAsWritten(ts: seq<Type>): Option<seq<Type>>
    decreases ts
  {
    if |ts| == 0 then Some([])
    else
      var h := CloneAsWritten(ts[0]);
      var rest := CloneAllAsWritten(ts[1..]);
      if h.None? || rest.None? then None else Some([h.value] + rest.value)
  }

  function Wrap(inner: Option<Type>, build: Type -> Type): Option<Type>
  {
    if inner.None? then None else Some(build(inner.value))
  }

  function WrapAll(inner: Option<seq<Type>>, build: seq<Type> -> Type): Option<Type>
  {
    if inner.None? then None else Some(build(inner.value))
  }

  /** The nodes whose written clone is faithful: no indirection, dyn, or generic unqualified type inside. */
  predicate CloneSafe(t: Type)
    decreases t
  {
    match t
    case ReferenceType(_, _, r) => CloneSafe(r)
    case SliceType(_, _, s) => CloneSafe(s)
    case PointerType(_, _, p) => CloneSafe(p)
    case UnqualifiedUserType(_, _, g) => |g| == 0
    case UserType(_, _, g) => AllCloneSafe(g)
    case FnPointerType(_, args, r) => CloneSafe(r) && AllCloneSafe(args)
    case UnqualifiedDynType(_, _, g) => AllCloneSafe(g)
    case DynType(_, _, _) => false
    case ArrayType(_, _, e) => CloneSafe(e)
    case IndirectionType(_, _, _) => false
    case _ => true
  }

  predicate AllCloneSafe(ts: seq<Type>)
    decreases ts
  {
    |ts| == 0 || (CloneSafe(ts[0]) && AllCloneSafe(ts[1..]))
  }

  /** On those nodes the written clone reproduces the node exactly, location included. */
  lemma {:induction false} CloneAsWrittenFaithful(t: Type)
    requires CloneSafe(t)
    ensures CloneAsWritten(t) == Some(t)
    decreases t
  {
    match t
    case ReferenceType(_, _, r) => CloneAsWrittenFaithful(r);
    case SliceType(_, _, s) => CloneAsWrittenFaithful(s);
    case PointerType(_, _, p) => CloneAsWrittenFaithful(p);
    case UserType(_, _, g) => CloneAllAsWrittenFaithful(g);
    case FnPointerType(_, args, r) =>
      CloneAsWrittenFaithful(r);
      CloneAllAsWrittenFaithful(args);
    case UnqualifiedDynType(_, _, g) => CloneAllAsWrittenFaithful(g);
    case ArrayType(_, _, e) => CloneAsWrittenFaithful(e);
    case _ =>
  }

  lemma {:induction false} CloneAllAsWrittenFaithful(ts: seq<Type>)
    requires AllCloneSafe(ts)
    ensures CloneAllAsWritten(ts) == Some(ts)
    decreases ts
  {
    if |ts| > 0 {
      CloneAsWrittenFaithful(ts[0]);
      CloneAllAsWrittenFaithful(ts[1..]);
      assert [ts[0]] + ts[1..] == ts;
    }
  }

  /** So a reference, pointer, integral, array or user-defined type clones to a fully equal type. */
  lemma CloneAsWrittenFullyEquals(t: Type)
    requires CloneSafe(t)
    ensures CloneAsWritten(t).Some? && FullyEquals(CloneAsWritten(t).value, t)
  {
    CloneAsWrittenFaithful(t);
    EqualReflexive(t);
  }

  /** Cloning an indirection type gives an empty pointer, even inside a reference. */
  lemma IndirectionCloneIsEmpty(l: SourceLoc, produced: Type)
    ensures CloneAsWritten(IndirectionType(l, produced, false)).None?
    ensures CloneAsWritten(ReferenceType(l, false, IndirectionType(l, produced, false))).None?
  {
  }

  /** Cloning a dyn interface type gives a user-defined type, which does not equal the original. */
  lemma DynCloneChangesKind(l: SourceLoc, id: QualifiedName)
    ensures CloneAsWritten(DynType(l, id, [])) == Some(UserType(l, id, []))
    ensures !Equal(DynType(l, id, []), UserType(l, id, []))
  {
  }

  /** Cloning an unqualified user-defined type drops its generic parameters. */
  lemma UnqualifiedCloneDropsGenerics(l: SourceLoc, uid: UnqualifiedID, g: Type)
    requires ErrorFree(g)
    ensures var t := UnqualifiedUserType(l, uid, [g]);
            CloneAsWritten(t).Some? && !Equal(t, CloneAsWritten(t).value)
  {
    var t := UnqualifiedUserType(l, uid, [g]);
    assert CloneAsWritten(t) == Some(UnqualifiedUserType(l, uid, []));
    assert !ElementwiseEqual([g], []);
  }

  /**
   * The clone the node classes evidently intend: every kind rebuilt from
   * clones of its children, keeping its own kind, its generic parameters and
   * the produced type of an indirection.
   */
  function Clone(t: Type): (c: Type)
    ensures c == t
    decreases t
  {
    match t
    case ReferenceType(l, m, r) => ReferenceType(l, m, Clone(r))
    case SliceType(l, m, s) => SliceType(l, m, Clone(s))
    case PointerType(l, m, p) => PointerType(l, m, Clone(p))
    case UnqualifiedUserType(l, u, g) => UnqualifiedUserType(l, u, CloneAll(g))
    case UserType(l, i, g) => UserType(l, i, CloneAll(g))
    case FnPointerType(l, args, r) => FnPointerType(l, CloneAll(args), Clone(r))
    case UnqualifiedDynType(l, u, g) => UnqualifiedDynType(l, u, CloneAll(g))
    case DynType(l, i, g) => DynType(l, i, CloneAll(g))
    case ArrayType(l, n, e) => ArrayType(l, n, Clone(e))
    case IndirectionType(l, p, m) => IndirectionType(l, Clone(p), m)
    case _ => t
  }

  function CloneAll(ts: seq<Type>): (cs: seq<Type>)
    ensures cs == ts
    decreases ts
  {
    if |ts| == 0 then [] else [Clone(ts[0])] + CloneAll(ts[1..])
  }

  /** The corrected clone is fully equal to its original. */
  lemma CloneFullyEquals(t: Type)
    ensures FullyEquals(Clone(t), t)
  {
    EqualReflexive(t);
  }

  /** Every element of a clone-safe list is clone-safe. */
  lemma {:induction false} AllCloneSafeAt(ts: seq<Type>, i: nat)
    requires AllCloneSafe(ts) && i < |ts|
    ensures CloneSafe(ts[i])
    decreases ts
  {
    if i > 0 {
      AllCloneSafeAt(ts[1..], i - 1);
    }
  }

  /**
   * clone_generics: one written clone per element, pushed back in order; a
   * None element is the empty pointer the written clone hands back. On
   * clone-safe elements every clone is the element itself.
   */
  method CloneGenerics(generics: seq<Type>) returns (vec: seq<Option<Type>>)
    ensures |vec| == |generics|
    ensures forall i :: 0 <= i < |vec| ==> vec[i] == CloneAsWritten(generics[i])
    ensures AllCloneSafe(generics) ==> forall i :: 0 <= i < |vec| ==> vec[i] == Some(generics[i])
  {
    vec := [];
    for k := 0 to |generics|
      invariant |vec| == k
      invariant forall i :: 0 <= i < k ==> vec[i] == CloneAsWritten(generics[i])
    {
      vec := vec + [CloneAsWritten(generics[k])];
    }
    if AllCloneSafe(generics) {
      forall i | 0 <= i < |vec|
        ensures vec[i] == Some(generics[i])
      {
        AllCloneSafeAt(generics, i);
        CloneAsWrittenFaithful(generics[i]);
      }
    }
  }
}
