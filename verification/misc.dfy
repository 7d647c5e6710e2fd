// Model of compiler/src/utility/misc.h and misc.cc: integer exponentiation,
// narrowing, optional comparison, span cloning, and integer <-> digit text.
module Misc {
  import opened Basics

  /** 2^64: the modulus of std::uint64_t arithmetic. */
  const Uint64Limit: int := 0x1_0000_0000_0000_0000
  const Int64Min: int := -0x8000_0000_0000_0000
  const Int64Max: int := 0x7FFF_FFFF_FFFF_FFFF

  function Pow(b: nat, e: nat): nat
  {
    if e == 0 then 1 else b * Pow(b, e - 1)
  }

  lemma {:induction false} PowAdd(b: nat, e1: nat, e2: nat)
    ensures Pow(b, e1 + e2) == Pow(b, e1) * Pow(b, e2)
  {
    if e1 > 0 {
      PowAdd(b, e1 - 1, e2);
      MulAssoc(b, Pow(b, e1 - 1), Pow(b, e2));
    }
  }

  lemma MulAssoc(x: int, y: int, z: int)
    ensures x * (y * z) == (x * y) * z
  {
  }

  lemma {:induction false} PowSquare(b: nat, e: nat)
    ensures Pow(b * b, e) == Pow(b, 2 * e)
  {
    if e > 0 {
      var k := 2 * (e - 1);
      PowSquare(b, e - 1);
      PowAdd(b, 2, k);
      assert Pow(b, 1) == b;
      calc {
        Pow(b * b, e);
        (b * b) * Pow(b, k);
        Pow(b, 2) * Pow(b, k);
        Pow(b, 2 + k);
      }
    }
  }

  /** One step of exponentiation by squaring. */
  lemma PowHalve(b: nat, e: nat)
    ensures Pow(b, e) == (if e % 2 == 1 then b else 1) * Pow(b * b, e / 2)
  {
    PowSquare(b, e / 2);
    if e % 2 == 1 {
      PowAdd(b, 1, 2 * (e / 2));
    }
  }

  lemma ModUnique(x: int, m: int, q: int, r: int)
    requires m > 0 && x == q * m + r && 0 <= r < m
    ensures x % m == r
  {
    var d := q - x / m;
    assert d * m == x % m - r;
  }

  lemma MulExpand(qx: int, rx: int, qy: int, ry: int, m: int)
    ensures (qx * m + rx) * (qy * m + ry) == (qx * qy * m + qx * ry + rx * qy) * m + rx * ry
  {
  }

  lemma MulMod(x: int, y: int, m: int)
    requires m > 0
    ensures (x % m) * (y % m) % m == x * y % m
  {
    var qx, rx := x / m, x % m;
    var qy, ry := y / m, y % m;
    var k := qx * qy * m + qx * ry + rx * qy;
    MulExpand(qx, rx, qy, ry, m);
    assert x * y == k * m + rx * ry;
    var q2, r2 := rx * ry / m, rx * ry % m;
    assert x * y == (k + q2) * m + r2;
    ModUnique(x * y, m, k + q2, r2);
  }

  /** The powers of two that bound the 64-bit integer types. */
  lemma PowersOfTwo()
    ensures Pow(2, 64) == Uint64Limit && Pow(2, 63) == -Int64Min && Pow(2, 63) == 2 * Pow(2, 62)
  {
    assert Pow(2, 8) == 256;
    assert Pow(2, 7) == 128;
    PowAdd(2, 8, 8);
    PowAdd(2, 16, 16);
    PowAdd(2, 32, 32);
    PowAdd(2, 32, 31);
    PowAdd(2, 16, 15);
    PowAdd(2, 8, 7);
    PowAdd(2, 1, 62);
  }

  /**
   * ipow on std::uint64_t: exponentiation by squaring in a loop, where every
   * multiplication wraps modulo 2^64.
   */
  method IPow(base: nat, exp: nat) returns (result: nat)
    requires base < Uint64Limit && exp < Uint64Limit
    ensures result == Pow(base, exp) % Uint64Limit
  {
    result := 1;
    var b, e := base, exp;
    ghost var wideResult: nat, wideBase: nat := 1, base;
    while true
      invariant result == wideResult % Uint64Limit && b == wideBase % Uint64Limit
      invariant wideResult * Pow(wideBase, e) == Pow(base, exp)
      decreases e
    {
      ghost var factor: nat := if e % 2 == 1 then wideBase else 1;
      PowHalve(wideBase, e);
      assert wideResult * Pow(wideBase, e) == (wideResult * factor) * Pow(wideBase * wideBase, e / 2);
      if e % 2 == 1 {
        MulMod(wideResult, wideBase, Uint64Limit);
        result := result * b % Uint64Limit;
        wideResult := wideResult * wideBase;
      }
      e := e / 2;
      if e == 0 {
        break;
      }
      MulMod(wideBase, wideBase, Uint64Limit);
      b := b * b % Uint64Limit;
      wideBase := wideBase * wideBase;
    }
  }

  /** The value range of a C++ integer type. */
  datatype IntRange = IntRange(min: int, max: int)

  /** try_narrow<T>(value): the value when T can hold it, none otherwise. */
  function TryNarrow(value: int, target: IntRange): (r: Option<int>)
    ensures r.Some? <==> target.min <= value <= target.max
    ensures r.Some? ==> r.value == value
  {
    if value <= target.max && value >= target.min then Some(value) else None
  }

  /**
   * unwrapping_equal: compares the contents with `cmp` when both are present,
   * and otherwise compares whether each is present.
   */
  function UnwrappingEqual<T, U>(lhs: Option<T>, rhs: Option<U>, cmp: (T, U) -> bool): (r: bool)
    ensures lhs.Some? && rhs.Some? ==> (r <==> cmp(lhs.value, rhs.value))
    ensures !(lhs.Some? && rhs.Some?) ==> (r <==> lhs.None? && rhs.None?)
  {
    if lhs.Some? && rhs.Some? then cmp(lhs.value, rhs.value) else lhs.Some? == rhs.Some?
  }

  /** clone_if: none stays none, a present value is cloned. */
  function CloneIf<T>(maybe: Option<T>, clone: T -> T): (r: Option<T>)
    ensures r.Some? <==> maybe.Some?
    ensures r.Some? ==> r.value == clone(maybe.value)
  {
    match maybe
    case None => None
    case Some(v) => Some(clone(v))
  }

  /** clone_span: a new vector holding the clone of each element, in order. */
  method CloneSpan<T>(span: seq<T>, clone: T -> T) returns (cloned: seq<T>)
    ensures |cloned| == |span|
    ensures forall i :: 0 <= i < |span| ==> cloned[i] == clone(span[i])
  {
    cloned := [];
    for i := 0 to |span|
      invariant |cloned| == i
      invariant forall k :: 0 <= k < i ==> cloned[k] == clone(span[k])
    {
      cloned := cloned + [clone(span[i])];
    }
  }

  /** into_list: each argument pushed in argument order. */
  method IntoList<T>(args: seq<T>) returns (list: seq<T>)
    ensures list == args
  {
    list := [];
    for i := 0 to |args|
      invariant list == args[..i]
    {
      list := list + [args[i]];
    }
  }

  /** The `reverse` adapter: iteration from the last element to the first. */
  function Reverse<T>(s: seq<T>): (r: seq<T>)
  {
    if s == [] then [] else [s[|s| - 1]] + Reverse(s[..|s| - 1])
  }

  lemma {:induction false} ReverseAt<T>(s: seq<T>, i: nat)
    requires i < |s|
    ensures |Reverse(s)| == |s| && Reverse(s)[i] == s[|s| - 1 - i]
  {
    if i > 0 {
      ReverseAt(s[..|s| - 1], i - 1);
    } else if |s| > 1 {
      ReverseAt(s[..|s| - 1], 0);
    }
  }

  // ---------------------------------------------------------------------
  // Integer <-> digit text (std::to_chars / std::from_chars semantics).

  /** The digit character for `d` as std::to_chars writes it: 0-9 then a-z. */
  function DigitChar(d: nat): char
    requires d < 36
  {
    if d < 10 then ('0' as int + d) as char else ('a' as int + d - 10) as char
  }

  /** The value of a digit character in any case, or 36 when it is not a digit. */
  function DigitValue(c: char): nat
  {
    if '0' <= c <= '9' then c as int - '0' as int
    else if 'a' <= c <= 'z' then c as int - 'a' as int + 10
    else if 'A' <= c <= 'Z' then c as int - 'A' as int + 10
    else 36
  }

  lemma DigitRoundTrip(d: nat)
    requires d < 36
    ensures DigitValue(DigitChar(d)) == d
  {
  }

  /** The base-`base` digits of `n`, most significant first, without leading zeros. */
  function NatDigits(n: nat, base: nat): (r: string)
    requires 2 <= base <= 36
    ensures |r| > 0
    decreases n
  {
    if n < base then [DigitChar(n)] else NatDigits(n / base, base) + [DigitChar(n % base)]
  }

  /** What std::to_chars writes for `n`: a '-' sign for negatives, then the digits. */
  function Render(n: int, base: nat): string
    requires 2 <= base <= 36
  {
    if n < 0 then "-" + NatDigits(-n, base) else NatDigits(n, base)
  }

  /** The number of leading characters of `text` that are digits of `base`. */
  function DigitRun(text: string, base: nat): (k: nat)
    ensures k <= |text|
    ensures forall i :: 0 <= i < k ==> DigitValue(text[i]) < base
    ensures k < |text| ==> DigitValue(text[k]) >= base
  {
    if text == [] || DigitValue(text[0]) >= base then 0 else 1 + DigitRun(text[1..], base)
  }

  /** The value of a digit string, most significant digit first. */
  function DigitsValue(digits: string, base: nat): nat
  {
    if digits == [] then 0
    else DigitsValue(digits[..|digits| - 1], base) * base + DigitValue(digits[|digits| - 1])
  }

  datatype DigitsError = InvalidArgument | ResultOutOfRange

  /**
   * from_digits(text, base): std::from_chars into a std::uint64_t. The longest
   * prefix of digits is parsed and the rest of the text ignored; no digits is
   * an invalid argument and a value of 2^64 or more is out of range.
   */
  function FromDigits(text: string, base: nat): Result<nat, DigitsError>
    requires 2 <= base <= 36
  {
    var k := DigitRun(text, base);
    if k == 0 then Err(InvalidArgument)
    else if DigitsValue(text[..k], base) >= Uint64Limit then Err(ResultOutOfRange)
    else Ok(DigitsValue(text[..k], base))
  }

  lemma DigitsValueSnoc(p: string, c: char, base: nat)
    ensures DigitsValue(p + [c], base) == DigitsValue(p, base) * base + DigitValue(c)
  {
    assert (p + [c])[..|p|] == p;
  }

  lemma MulMonotone(q: nat, a: nat, b: nat)
    requires a <= b
    ensures q * a <= q * b
  {
  }

  /** Dividing by a base of at least two at least halves a number, and shrinks any number that has two digits. */
  lemma DivShrinks(n: nat, base: nat)
    requires 2 <= base
    ensures n / base <= n / 2
    ensures n >= base ==> 1 <= n / base < n
  {
    var q := n / base;
    assert q * base <= n;
    MulMonotone(q, 2, base);
  }

  lemma {:induction false} NatDigitsValue(n: nat, base: nat)
    requires 2 <= base <= 36
    ensures DigitsValue(NatDigits(n, base), base) == n
    decreases n
  {
    if n < base {
      DigitRoundTrip(n);
      assert NatDigits(n, base) == [] + [DigitChar(n)];
      DigitsValueSnoc([], DigitChar(n), base);
    } else {
      var q, r := n / base, n % base;
      assert n == q * base + r;
      DivShrinks(n, base);
      NatDigitsValue(q, base);
      DigitRoundTrip(r);
      DigitsValueSnoc(NatDigits(q, base), DigitChar(r), base);
    }
  }

  lemma {:induction false} NatDigitsAreDigits(n: nat, base: nat)
    requires 2 <= base <= 36
    ensures forall i :: 0 <= i < |NatDigits(n, base)| ==> DigitValue(NatDigits(n, base)[i]) < base
    decreases n
  {
    if n < base {
      DigitRoundTrip(n);
    } else {
      var p := NatDigits(n / base, base);
      DivShrinks(n, base);
      NatDigitsAreDigits(n / base, base);
      var c := DigitChar(n % base);
      DigitRoundTrip(n % base);
      SnocDigits(p, c, base);
    }
  }

  lemma SnocDigits(p: string, c: char, base: nat)
    requires forall i :: 0 <= i < |p| ==> DigitValue(p[i]) < base
    requires DigitValue(c) < base
    ensures forall i :: 0 <= i < |p + [c]| ==> DigitValue((p + [c])[i]) < base
  {
  }

  lemma {:induction false} DigitRunAll(s: string, base: nat)
    requires forall i :: 0 <= i < |s| ==> DigitValue(s[i]) < base
    ensures DigitRun(s, base) == |s|
    decreases |s|
  {
    if s != [] {
      DigitRunAll(s[1..], base);
    }
  }

  /** The decimal (or any base) text of a std::uint64_t parses back to the same value. */
  lemma FromDigitsRoundTrip(n: nat, base: nat)
    requires 2 <= base <= 36 && n < Uint64Limit
    ensures FromDigits(Render(n, base), base) == Ok(n)
  {
    NatDigitsValue(n, base);
    NatDigitsAreDigits(n, base);
    var s := NatDigits(n, base);
    DigitRunAll(s, base);
    assert s[..|s|] == s;
  }

  lemma {:induction false} NatDigitsLength(n: nat, base: nat, k: nat)
    requires 2 <= base <= 36 && n < Pow(2, k)
    ensures |NatDigits(n, base)| <= if k == 0 then 1 else k
    decreases n
  {
    if n >= base {
      assert k >= 2 by {
        assert Pow(2, 0) == 1 && Pow(2, 1) == 2;
      }
      DivShrinks(n, base);
      assert n / base < Pow(2, k - 1) by {
        assert Pow(2, k) == 2 * Pow(2, k - 1);
      }
      NatDigitsLength(n / base, base, k - 1);
    }
  }

  lemma {:induction false} PowerOfTwoDigits(k: nat)
    ensures |NatDigits(Pow(2, k), 2)| == k + 1
  {
    if k > 0 {
      PowerOfTwoDigits(k - 1);
      assert Pow(2, k) / 2 == Pow(2, k - 1);
    }
  }

  /** How long the text of an int64 or uint64 value in `base` can be. */
  lemma RenderFits(n: int, base: nat)
    requires 2 <= base <= 36 && Int64Min <= n < Uint64Limit
    ensures |Render(n, base)| <= 64 <==> !(n == Int64Min && base == 2)
    ensures |Render(n, base)| <= 65
  {
    PowersOfTwo();
    if n >= 0 {
      NatDigitsLength(n, base, 64);
    } else if n > Int64Min {
      NatDigitsLength(-n, base, 63);
    } else if base == 2 {
      PowerOfTwoDigits(63);
    } else {
      NatDigitsLength(-n / base, base, 62);
    }
  }

  /** The width of the buffer generic_integral_to_digits writes into. */
  const DigitsBufferSize: nat := 64

  /**
   * std::to_chars into `buffer[0..]`: the text of `n` is written when it fits,
   * otherwise the call fails with value_too_large and reports the buffer end.
   */
  method ToChars(buffer: array<char>, n: int, base: nat) returns (end: nat, ok: bool)
    requires 2 <= base <= 36
    modifies buffer
    ensures ok <==> |Render(n, base)| <= buffer.Length
    ensures ok ==> end == |Render(n, base)| && buffer[..end] == Render(n, base)
    ensures !ok ==> end == buffer.Length
  {
    var text := Render(n, base);
    if |text| > buffer.Length {
      return buffer.Length, false;
    }
    for i := 0 to |text|
      invariant buffer[..i] == text[..i]
    {
      buffer[i] := text[i];
    }
    return |text|, true;
  }

  /**
   * to_digits(n, base) for std::int64_t and std::uint64_t: a 64-character
   * buffer filled by to_chars and trimmed to the end pointer. The result is
   * none where the assertion that to_chars succeeded fails.
   */
  method ToDigits(n: int, base: nat) returns (r: Option<string>)
    requires 2 <= base <= 36 && Int64Min <= n < Uint64Limit
    ensures r.Some? <==> |Render(n, base)| <= DigitsBufferSize
    ensures r.Some? ==> r.value == Render(n, base)
  {
    r := ToDigitsInBuffer(n, base, DigitsBufferSize);
  }

  /** to_digits with a buffer of 65 characters, enough for every int64 and uint64. */
  method ToDigitsWide(n: int, base: nat) returns (r: string)
    requires 2 <= base <= 36 && Int64Min <= n < Uint64Limit
    ensures r == Render(n, base)
  {
    RenderFits(n, base);
    var o := ToDigitsInBuffer(n, base, DigitsBufferSize + 1);
    r := o.value;
  }

  method ToDigitsInBuffer(n: int, base: nat, size: nat) returns (r: Option<string>)
    requires 2 <= base <= 36
    ensures r.Some? <==> |Render(n, base)| <= size
    ensures r.Some? ==> r.value == Render(n, base)
  {
    var buffer := new char[size](_ => ' ');
    var end, ok := ToChars(buffer, n, base);
    if !ok {
      return None;
    }
    r := Some(buffer[..end]);
  }

  /** The one value to_digits cannot write: INT64_MIN in base 2 needs 65 characters. */
  lemma ToDigitsMinBase2Overflows()
    ensures |Render(Int64Min, 2)| == DigitsBufferSize + 1
  {
    PowersOfTwo();
    PowerOfTwoDigits(63);
  }
}
