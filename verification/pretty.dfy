// The type printer, the operator tables and the list layout of the AST
// printer.
module Pretty {
  import opened Basics
  import opened Ids
  import opened Types
  import Ast
  import Misc
  import Mangling

  /** A number as absl::StrCat writes it. */
  function Decimal(n: nat): string
  {
    Misc.NatDigits(n, 10)
  }

  // ---- TypeStringifier ----

  /** gal::to_string of a type. */
  function TypeString(t: Type): string
    decreases t
  {
    match t
    case ReferenceType(_, mut, inner) => (if mut then "&mut " else "&") + TypeString(inner)
    case SliceType(_, mut, inner) => (if mut then "[mut " else "[") + TypeString(inner) + "]"
    case ArrayType(_, size, element) => "[" + TypeString(element) + "; " + Decimal(size) + "]"
    case PointerType(_, mut, inner) => (if mut then "*mut " else "*const ") + TypeString(inner)
    case IntegralType(_, signed, w) =>
      (if signed then "i" else "u") + (match WidthOf(w) case Some(bits) => Decimal(bits) case None => "size")
    case FloatType(_, w) => (match w case IeeeSingle => "f32" case IeeeDouble => "f64" case IeeeQuadruple => "f128")
    case ByteType(_) => "byte"
    case BoolType(_) => "bool"
    case CharType(_) => "char"
    case UnqualifiedUserType(_, uid, _) => UnqualifiedString(uid)
    case UserType(_, id, _) => QualifiedString(id)
    case FnPointerType(_, args, ret) => "fn (" + Join(TypeStrings(args), ", ") + ") -> " + TypeString(ret)
    case UnqualifiedDynType(_, uid, _) => "dyn " + UnqualifiedString(uid)
    case DynType(_, id, _) => "dyn " + QualifiedString(id)
    case VoidType(_) => "void"
    case NilPointerType(_) => "<nil-ptr>"
    case ErrorType => "<error-type>"
    case UnsizedIntegerType(_, _) => "<integer literal>"
    case IndirectionType(_, produced, _) => "<indirection -> " + TypeString(produced) + ">"
  }

  function TypeStrings(ts: seq<Type>): (r: seq<string>)
    ensures |r| == |ts|
    decreases ts
  {
    if |ts| == 0 then [] else [TypeString(ts[0])] + TypeStrings(ts[1..])
  }

  /** A type made only of builtins, references, slices, pointers and arrays, with widths a symbol can encode. */
  predicate Structural(t: Type)
    decreases t
  {
    match t
    case ReferenceType(_, _, inner) => Structural(inner)
    case SliceType(_, _, inner) => Structural(inner)
    case PointerType(_, _, inner) => Structural(inner)
    case ArrayType(_, size, element) => size < Misc.Uint64Limit && Structural(element)
    case IntegralType(_, _, w) => w.NativeWidth? || w.bits in {8, 16, 32, 64, 128}
    case FloatType(_, _) => true
    case ByteType(_) => true
    case BoolType(_) => true
    case CharType(_) => true
    case VoidType(_) => true
    case _ => false
  }

  lemma WidthText(signed: bool, w: IntegerWidth)
    requires w.NativeWidth? || w.bits in {8, 16, 32, 64, 128}
    ensures (if signed then "i" else "u") + (match WidthOf(w) case Some(bits) => Decimal(bits) case None => "size")
            == Mangling.IntegralName(signed, w)
  {
    if w.Width? {
      var b := w.bits;
      if b == 8 {
        assert Decimal(b) == "8";
      } else if b == 16 {
        assert Decimal(b) == Decimal(1) + [Misc.DigitChar(6)] == "16";
      } else if b == 32 {
        assert Decimal(b) == Decimal(3) + [Misc.DigitChar(2)] == "32";
      } else if b == 64 {
        assert Decimal(b) == Decimal(6) + [Misc.DigitChar(4)] == "64";
      } else {
        assert Decimal(12) == Decimal(1) + [Misc.DigitChar(2)] == "12";
        assert Decimal(b) == Decimal(12) + [Misc.DigitChar(8)] == "128";
      }
    }
  }

  /**
   * The printer and the demangler spell every structural type the same
   * way: both write Gallium's own type syntax.
   */
  lemma {:induction false} TypeStringMatchesDemangler(t: Type)
    requires Structural(t)
    ensures Mangling.Mangleable(t) && TypeString(t) == Mangling.Render(t)
    decreases t
  {
    match t
    case ReferenceType(_, _, inner) => TypeStringMatchesDemangler(inner);
    case SliceType(_, _, inner) => TypeStringMatchesDemangler(inner);
    case PointerType(_, _, inner) => TypeStringMatchesDemangler(inner);
    case ArrayType(_, _, element) => TypeStringMatchesDemangler(element);
    case IntegralType(_, signed, w) => WidthText(signed, w);
    case _ =>
  }

  /** Function pointers are where the two differ: the printer puts a space after `fn`, the demangler does not. */
  lemma FnPointerSpacing(l: SourceLocs.SourceLoc, v: SourceLocs.SourceLoc)
    ensures Mangling.Mangleable(FnPointerType(l, [], VoidType(v)))
    ensures TypeString(FnPointerType(l, [], VoidType(v))) == "fn () -> void"
    ensures Mangling.Render(FnPointerType(l, [], VoidType(v))) == "fn() -> void"
  {
  }

  // ---- operator tables ----

  /** unary_op_string. */
  function UnaryOpString(op: Ast.UnaryOp): string
  {
    match op
    case Dereference => "*"
    case LogicalNot => "not"
    case BitwiseNot => "~"
    case MutRefTo => "&mut"
    case RefTo => "&"
    case Negate => "-"
  }

  /** The operator a spelling stands for, if any: the table read backwards. */
  function ParseUnaryOp(s: string): Option<Ast.UnaryOp>
  {
    if s == "*" then Some(Ast.Dereference)
    else if s == "not" then Some(Ast.LogicalNot)
    else if s == "~" then Some(Ast.BitwiseNot)
    else if s == "&mut" then Some(Ast.MutRefTo)
    else if s == "&" then Some(Ast.RefTo)
    else if s == "-" then Some(Ast.Negate)
    else None
  }

  /** The unary table gives every operator a spelling of its own. */
  lemma UnaryOpRoundTrip(op: Ast.UnaryOp)
    ensures ParseUnaryOp(UnaryOpString(op)) == Some(op)
  {
  }

  /** binary_op_string. */
  function BinaryOpString(op: Ast.BinaryOp): string
  {
    match op
    case Mul => "*"
    case Div => "/"
    case Mod => "%"
    case Add => "+"
    case Sub => "-"
    case Lt => "<"
    case Gt => ">"
    case LtEq => "<="
    case GtEq => ">="
    case Equals => "=="
    case NotEqual => "!="
    case LeftShift => "<<"
    case RightShift => ">>"
    case BitwiseAnd => "&"
    case BitwiseOr => "|"
    case BitwiseXor => "^"
    case LogicalAnd => "and"
    case LogicalOr => "or"
    case LogicalXor => "xor"
    case Assignment => ":="
    case AddEq => "+="
    case SubEq => "-="
    case MulEq => "*="
    case DivEq => "/="
    case ModEq => "%="
    case LeftShiftEq => "<<="
    case RightShiftEq => ">>="
    case BitwiseAndEq => "&="
    case BitwiseOrEq => "|="
    case BitwiseXorEq => "^="
  }

  /** The binary operator a spelling stands for, if any. */
  function ParseBinaryOp(s: string): Option<Ast.BinaryOp>
  {
    if s == "*" then Some(Ast.Mul)
    else if s == "/" then Some(Ast.Div)
    else if s == "%" then Some(Ast.Mod)
    else if s == "+" then Some(Ast.Add)
    else if s == "-" then Some(Ast.Sub)
    else if s == "<" then Some(Ast.Lt)
    else if s == ">" then Some(Ast.Gt)
    else if s == "<=" then Some(Ast.LtEq)
    else if s == ">=" then Some(Ast.GtEq)
    else if s == "==" then Some(Ast.Equals)
    else if s == "!=" then Some(Ast.NotEqual)
    else if s == "<<" then Some(Ast.LeftShift)
    else if s == ">>" then Some(Ast.RightShift)
    else if s == "&" then Some(Ast.BitwiseAnd)
    else if s == "|" then Some(Ast.BitwiseOr)
    else if s == "^" then Some(Ast.BitwiseXor)
    else if s == "and" then Some(Ast.LogicalAnd)
    else if s == "or" then Some(Ast.LogicalOr)
    else if s == "xor" then Some(Ast.LogicalXor)
    else if s == ":=" then Some(Ast.Assignment)
    else if s == "+=" then Some(Ast.AddEq)
    else if s == "-=" then Some(Ast.SubEq)
    else if s == "*=" then Some(Ast.MulEq)
    else if s == "/=" then Some(Ast.DivEq)
    else if s == "%=" then Some(Ast.ModEq)
    else if s == "<<=" then Some(Ast.LeftShiftEq)
    else if s == ">>=" then Some(Ast.RightShiftEq)
    else if s == "&=" then Some(Ast.BitwiseAndEq)
    else if s == "|=" then Some(Ast.BitwiseOrEq)
    else if s == "^=" then Some(Ast.BitwiseXorEq)
    else None
  }

  /** The binary table is total and gives every operator a spelling of its own. */
  lemma BinaryOpRoundTrip(op: Ast.BinaryOp)
    ensures ParseBinaryOp(BinaryOpString(op)) == Some(op)
  {
    if op in {Ast.Mul, Ast.Div, Ast.Mod, Ast.Add, Ast.Sub, Ast.Lt, Ast.Gt, Ast.LtEq, Ast.GtEq, Ast.Equals} {
      ArithmeticRoundTrip(op);
    } else if op in {Ast.NotEqual, Ast.LeftShift, Ast.RightShift, Ast.BitwiseAnd, Ast.BitwiseOr,
                     Ast.BitwiseXor, Ast.LogicalAnd, Ast.LogicalOr, Ast.LogicalXor, Ast.Assignment} {
      LogicalRoundTrip(op);
    } else if op in {Ast.AddEq, Ast.SubEq, Ast.MulEq, Ast.DivEq, Ast.ModEq} {
      CompoundRoundTrip(op);
    } else {
      BitwiseCompoundRoundTrip(op);
    }
  }

  /** Arithmetic and comparison operators read back. */
  lemma ArithmeticRoundTrip(op: Ast.BinaryOp)
    requires op in {Ast.Mul, Ast.Div, Ast.Mod, Ast.Add, Ast.Sub, Ast.Lt, Ast.Gt, Ast.LtEq, Ast.GtEq, Ast.Equals}
    ensures ParseBinaryOp(BinaryOpString(op)) == Some(op)
  {
  }

  /** Inequality, the shifts, the bitwise and logical operators and plain assignment read back. */
  lemma LogicalRoundTrip(op: Ast.BinaryOp)
    requires op in {Ast.NotEqual, Ast.LeftShift, Ast.RightShift, Ast.BitwiseAnd, Ast.BitwiseOr,
                    Ast.BitwiseXor, Ast.LogicalAnd, Ast.LogicalOr, Ast.LogicalXor, Ast.Assignment}
    ensures ParseBinaryOp(BinaryOpString(op)) == Some(op)
  {
  }

  /** The arithmetic compound assignments read back. */
  lemma CompoundRoundTrip(op: Ast.BinaryOp)
    requires op in {Ast.AddEq, Ast.SubEq, Ast.MulEq, Ast.DivEq, Ast.ModEq}
    ensures ParseBinaryOp(BinaryOpString(op)) == Some(op)
  {
  }

  /** The shifting and bitwise compound assignments read back. */
  lemma BitwiseCompoundRoundTrip(op: Ast.BinaryOp)
    requires op in {Ast.LeftShiftEq, Ast.RightShiftEq, Ast.BitwiseAndEq, Ast.BitwiseOrEq, Ast.BitwiseXorEq}
    ensures ParseBinaryOp(BinaryOpString(op)) == Some(op)
  {
  }

  // ---- the AST printer's lists ----

  /** padding_message: the padding below the last entry is blank, below the others it carries a bar. */
  function PaddingMessage(last: bool): string
  {
    if last then "   " else "│  "
  }

  /**
   * One list entry: the padding, the branch and index, then what the item
   * printer writes with the padding grown by the entry's message. The item
   * printer is a parameter taking the padding it runs under.
   */
  function EntryText<T>(padding: string, i: nat, n: nat, item: T, render: (string, T) -> string): string
  {
    var last := i + 1 == n;
    padding + (if last then "└─ [" else "├─ [") + Decimal(i) + "]: " + render(padding + PaddingMessage(last), item)
  }

  /** The first `k` entries of a list. */
  function EntriesText<T>(padding: string, data: seq<T>, k: nat, render: (string, T) -> string): string
    requires k <= |data|
  {
    if k == 0 then "" else EntriesText(padding, data, k - 1, render) + EntryText(padding, k - 1, |data|, data[k - 1], render)
  }

  /** print_list_internal: `[ ]` for an empty list, else a line break and one entry per item. */
  function ListText<T>(padding: string, data: seq<T>, render: (string, T) -> string): string
  {
    (if |data| == 0 then "[ ]\n" else "\n") + EntriesText(padding, data, |data|, render)
  }

  /** Appending the next entry to a text ending in the first `k` entries gives one ending in the first `k + 1`. */
  lemma EntriesStep<T>(start: string, padding: string, data: seq<T>, k: nat, render: (string, T) -> string,
                       before: string, after: string)
    requires k < |data|
    requires before == start + EntriesText(padding, data, k, render)
    requires after == before + EntryText(padding, k, |data|, data[k], render)
    ensures after == start + EntriesText(padding, data, k + 1, render)
  {
  }

  /** ASTPrinter: the text written so far and the current padding. */
  class ASTPrinter {
    var padding: string
    var final: string

    constructor ()
      ensures padding == "" && final == ""
    {
      padding := "";
      final := "";
    }

    /** WriteToPadding's constructor: the message is appended to the padding; its length is kept for the destructor. */
    method WriteToPadding(message: string) returns (len: nat)
      modifies this
      ensures padding == old(padding) + message && final == old(final) && len == |message|
    {
      padding := padding + message;
      len := |message|;
    }

    /** WriteToPadding's destructor: the padding is cut back by the length written. */
    method ReleasePadding(len: nat)
      requires len <= |padding|
      modifies this
      ensures padding == old(padding)[..|old(padding)| - len] && final == old(final)
    {
      padding := padding[..|padding| - len];
    }

    /** print_list_internal, with the item printer given as the text it writes under a padding. */
    method PrintListInternal<T>(data: seq<T>, render: (string, T) -> string)
      modifies this
      ensures padding == old(padding)
      ensures final == old(final) + ListText(old(padding), data, render)
    {
      var heading := if |data| == 0 then "[ ]\n" else "\n";
      final := final + heading;
      ghost var start := final;
      for count := 0 to |data|
        invariant padding == old(padding)
        invariant final == start + EntriesText(padding, data, count, render)
      {
        ghost var before := final;
        PrintEntry(count, |data|, data[count], render);
        EntriesStep(start, padding, data, count, render, before, final);
      }
      assert final == old(final) + heading + EntriesText(padding, data, |data|, render);
    }

    /** One iteration: the entry's heading, then the item under the padding grown by the entry's message. */
    method PrintEntry<T>(count: nat, n: nat, item: T, render: (string, T) -> string)
      modifies this
      ensures padding == old(padding)
      ensures final == old(final) + EntryText(old(padding), count, n, item, render)
    {
      var last := count + 1 == n;
      final := final + padding + (if last then "└─ [" else "├─ [") + Decimal(count) + "]: ";
      var len := WriteToPadding(PaddingMessage(last));
      final := final + render(padding, item);
      ReleasePadding(len);
      assert padding == old(padding);
    }
  }
}
