/** Fixed-width integers: source values as mathematical integers in the range of their type, and
    machine words as bit patterns of a given width. */
module Integers {
  import opened Syntax

  datatype Width = W1 | W8 | W16 | W32 | W64

  function Modulus(w: Width): nat {
    match w
    case W1 => 2
    case W8 => 0x100
    case W16 => 0x1_0000
    case W32 => 0x1_0000_0000
    case W64 => 0x1_0000_0000_0000_0000
  }

  /** The width of the LLVM integer type chosen for an integer type or Bool. */
  function WidthOf(t: TypeId): Width
    requires IsInteger(t) || t.Bool?
  {
    match t
    case Int8 => W8
    case UInt8 => W8
    case Int16 => W16
    case UInt16 => W16
    case Int32 => W32
    case UInt32 => W32
    case Int64 => W64
    case UInt64 => W64
    case Bool => W1
  }

  function MinOf(t: TypeId): int
    requires IsInteger(t)
  {
    if IsSigned(t) then -(Modulus(WidthOf(t)) / 2) else 0
  }

  function MaxOf(t: TypeId): int
    requires IsInteger(t)
  {
    if IsSigned(t) then Modulus(WidthOf(t)) / 2 - 1 else Modulus(WidthOf(t)) - 1
  }

  predicate InRange(t: TypeId, n: int)
    requires IsInteger(t)
  {
    MinOf(t) <= n <= MaxOf(t)
  }

  /** Reduction of a mathematical integer into the range of a type, modulo its width. */
  function Wrap(t: TypeId, n: int): (r: int)
    requires IsInteger(t)
    ensures InRange(t, r)
  {
    SignedView(IsSigned(t), WidthOf(t), n % Modulus(WidthOf(t)))
  }

  /** Division rounding toward zero. */
  function TruncDiv(a: int, b: int): int
    requires b != 0
  {
    if a >= 0 then (if b > 0 then a / b else -(a / -b))
    else (if b > 0 then -(-a / b) else -a / -b)
  }

  /** The bit pattern that stores n at width w. */
  function Bits(w: Width, n: int): (r: nat)
    ensures r < Modulus(w)
  {
    n % Modulus(w)
  }

  /** The number that an instruction reads from a bit pattern. */
  function SignedView(signed: bool, w: Width, bits: nat): int {
    if signed && bits >= Modulus(w) / 2 then bits - Modulus(w) else bits
  }

  /** The ranges of the integer types. */
  lemma RangeLimits(n: int)
    ensures InRange(Int8, n) <==> -128 <= n <= 127
    ensures InRange(Int16, n) <==> -32768 <= n <= 32767
    ensures InRange(Int32, n) <==> -2147483648 <= n <= 2147483647
    ensures InRange(Int64, n) <==> -9223372036854775808 <= n <= 9223372036854775807
    ensures InRange(UInt8, n) <==> 0 <= n <= 255
    ensures InRange(UInt16, n) <==> 0 <= n <= 65535
    ensures InRange(UInt32, n) <==> 0 <= n <= 4294967295
    ensures InRange(UInt64, n) <==> 0 <= n <= 18446744073709551615
  {
  }

  /** A number survives being stored at a type's width, and read with the type's signedness, exactly when
      it is in the range of the type. */
  lemma DecodeEncode(t: TypeId, n: int)
    requires IsInteger(t)
    ensures SignedView(IsSigned(t), WidthOf(t), Bits(WidthOf(t), n)) == n <==> InRange(t, n)
  {
    var m := Modulus(WidthOf(t));
    assert SignedView(IsSigned(t), WidthOf(t), Bits(WidthOf(t), n)) == Wrap(t, n);
    if InRange(t, n) {
      if n < 0 {
        ModShift(n, 1, m);
        SmallRemainder(n + m, m);
      } else {
        SmallRemainder(n, m);
      }
    }
  }

  lemma SmallRemainder(n: int, m: int)
    requires 0 <= n < m
    ensures n % m == n
  {
  }

  /** Reduction leaves what is in range as it is. */
  lemma WrapInRange(t: TypeId, n: int)
    requires IsInteger(t)
    ensures Wrap(t, n) == n <==> InRange(t, n)
  {
    DecodeEncode(t, n);
  }

  /** Quotient and remainder are unique. */
  lemma RemainderUnique(a: int, q: int, r: int, m: int)
    requires m > 0 && 0 <= r < m
    requires a == q * m + r
    ensures a % m == r
  {
    var d := q - a / m;
    assert d * m == q * m - (a / m) * m;
    MulAtLeast(d, m);
  }

  lemma MulAtLeast(d: int, m: int)
    requires m > 0
    ensures d >= 1 ==> d * m >= m
    ensures d <= -1 ==> d * m <= -m
  {
    if d <= -1 {
      assert d * m == -(-d * m);
    }
  }

  lemma ModShift(x: int, k: int, m: int)
    requires m > 0
    ensures (x + k * m) % m == x % m
  {
    assert x == (x / m) * m + x % m;
    assert x + k * m == (x / m + k) * m + x % m by {
      assert (x / m + k) * m == (x / m) * m + k * m;
    }
    RemainderUnique(x + k * m, x / m + k, x % m, m);
  }

  /** Congruence of + , - and * modulo m. */
  lemma ModAdd(a: int, b: int, m: int)
    requires m > 0
    ensures (a % m + b % m) % m == (a + b) % m
  {
    ModShift(a % m + b % m, a / m + b / m, m);
    assert a % m + b % m + (a / m + b / m) * m == a + b by {
      assert (a / m + b / m) * m == (a / m) * m + (b / m) * m;
    }
  }

  lemma ModSub(a: int, b: int, m: int)
    requires m > 0
    ensures (a % m - b % m) % m == (a - b) % m
  {
    ModShift(a % m - b % m, a / m - b / m, m);
    assert a % m - b % m + (a / m - b / m) * m == a - b by {
      assert (a / m - b / m) * m == (a / m) * m - (b / m) * m;
    }
  }

  lemma ModMul(a: int, b: int, m: int)
    requires m > 0
    ensures ((a % m) * (b % m)) % m == (a * b) % m
  {
    ModMulLeft(a, b, m);
    ModMulLeft(b, a % m, m);
    Commutes(a % m, b);
    Commutes(b % m, a % m);
  }

  lemma Commutes(x: int, y: int)
    ensures x * y == y * x
  {
  }

  lemma ModMulLeft(a: int, b: int, m: int)
    requires m > 0
    ensures ((a % m) * b) % m == (a * b) % m
  {
    var i := a / m;
    Expand(a % m, i, m, b);
    ModShift((a % m) * b, i * b, m);
  }

  lemma Expand(x: int, i: int, m: int, b: int)
    ensures (x + i * m) * b == x * b + (i * b) * m
  {
    assert (i * m) * b == (i * b) * m;
  }
}
