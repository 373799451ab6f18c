/** The instruction picked from a node's annotations computes what the operator means. */
module Arithmetic {
  import opened Results
  import opened Syntax
  import opened Integers
  import opened Floats
  import opened Ir
  import opened Semantics
  import opened Codegen

  /** The machine word that stands for a source value. */
  function WordOf(v: Val): Word {
    match v
    case BoolV(b) => BoolWord(b)
    case IntV(ty, n) => if IsInteger(ty) then Word(WidthOf(ty), Bits(WidthOf(ty), n)) else BoolWord(false)
    case DoubleV(x) => DoubleWord(x)
  }

  function WordsOf(vs: seq<Val>): (ws: seq<Word>)
    ensures |ws| == |vs|
  {
    seq(|vs|, i requires 0 <= i < |vs| => WordOf(vs[i]))
  }

  lemma WordsOfAppend(vs: seq<Val>, v: Val)
    ensures WordsOf(vs + [v]) == WordsOf(vs) + [WordOf(v)]
  {
  }

  /** Within one type, different values have different words. */
  lemma WordOfInjective(u: Val, v: Val)
    requires ValOk(u) && ValOk(v) && TypeOf(u) == TypeOf(v) && WordOf(u) == WordOf(v)
    ensures u == v
  {
    if u.IntV? {
      DecodeEncode(u.ty, u.n);
      DecodeEncode(v.ty, v.n);
    }
  }

  lemma CutTwice(x: int, k: nat, m: nat)
    requires k > 0 && m > 0 && k * m > 0
    ensures (x % (k * m)) % m == x % m
  {
    var q := x / (k * m);
    assert q * (k * m) == (q * k) * m;
    ModShift(x % (k * m), q * k, m);
  }

  /** An in-range literal is encoded exactly, in spite of the detour through 64 bits. */
  lemma LiteralExact(value: int, t: TypeId)
    requires IsInteger(t) && InRange(t, value)
    ensures LiteralWord(value, Some(t)) == Ok(WordOf(IntV(t, value)))
  {
    var w := WidthOf(t);
    match w {
      case W8 => CutTwice(value, 0x100_0000_0000_0000, 0x100);
      case W16 => CutTwice(value, 0x1_0000_0000_0000, 0x1_0000);
      case W32 => CutTwice(value, 0x1_0000_0000, 0x1_0000_0000);
      case W64 => CutTwice(value, 1, Modulus(W64));
    }
  }

  /** What an instruction does to the words of two values of type t, related to the operator. */
  ghost predicate Refines(r: OpResult, m: Arith) {
    match m
    case Result(v) => r == Yields(WordOf(v))
    case ArithTrap => r == Traps
    case ArithWrong => true
  }

  lemma WrapBits(t: TypeId, n: int)
    requires IsInteger(t)
    ensures Bits(WidthOf(t), Wrap(t, n)) == Bits(WidthOf(t), n)
  {
    var m := Modulus(WidthOf(t));
    var r := n % m;
    if Wrap(t, n) != r {
      ModShift(r, -1, m);
    }
  }

  lemma WrappingRefines(op: TokenKind, t: TypeId, a: int, b: int, opcode: Opcode)
    requires IsInteger(t) && InRange(t, a) && InRange(t, b)
    requires op in {TokenKind.Plus, TokenKind.Minus, TokenKind.Asterisk}
    requires ApplyOperation(IntOperations(IsSigned(t)), op) == Ok(opcode)
    ensures var w := WidthOf(t);
            Refines(Execute(opcode, w, Bits(w, a), Bits(w, b)), Meaning(op, t, a, b))
  {
    var m := Modulus(WidthOf(t));
    match op
    case Plus => ModAdd(a, b, m); WrapBits(t, a + b);
    case Minus => ModSub(a, b, m); WrapBits(t, a - b);
    case Asterisk => ModMul(a, b, m); WrapBits(t, a * b);
  }

  lemma DivisionRefines(t: TypeId, a: int, b: int)
    requires IsInteger(t) && InRange(t, a) && InRange(t, b)
    ensures var w := WidthOf(t);
            Refines(Execute(if IsSigned(t) then SDiv else UDiv, w, Bits(w, a), Bits(w, b)),
                    Meaning(TokenKind.ForwardSlash, t, a, b))
  {
    DecodeEncode(t, a);
    DecodeEncode(t, b);
    if b != 0 {
      QuotientRange(t, a, b);
    }
  }

  /** A quotient of two values fits their type, but for the least value divided by -1. */
  lemma QuotientRange(t: TypeId, a: int, b: int)
    requires IsInteger(t) && InRange(t, a) && InRange(t, b) && b != 0
    ensures InRange(t, TruncDiv(a, b)) <==> !(IsSigned(t) && a == MinOf(t) && b == -1)
  {
    var x, y := if a < 0 then -a else a, if b < 0 then -b else b;
    QuotientBound(x, y);
    assert TruncDiv(a, b) == x / y || TruncDiv(a, b) == -(x / y);
    if y >= 2 {
      assert x / y <= x / 2;
    }
  }

  lemma QuotientBound(x: nat, y: nat)
    requires y > 0
    ensures 0 <= x / y <= x
    ensures y >= 2 ==> x / y <= x / 2
    ensures y == 1 ==> x / y == x
  {
    var q := x / y;
    assert q * y <= x;
    if y >= 2 {
      assert q * y >= q * 2 by { assert q * y == q * 2 + q * (y - 2); assert q * (y - 2) >= 0; }
    }
  }

  lemma ComparisonRefines(op: TokenKind, t: TypeId, a: int, b: int, opcode: Opcode)
    requires IsInteger(t) && InRange(t, a) && InRange(t, b) && IsBoolOperator(op)
    requires ApplyOperation(IntOperations(IsSigned(t)), op) == Ok(opcode)
    ensures var w := WidthOf(t);
            Refines(Execute(opcode, w, Bits(w, a), Bits(w, b)), Meaning(op, t, a, b))
  {
    DecodeEncode(t, a);
    DecodeEncode(t, b);
  }

  /** On floats, of either precision, the instruction picked for an operator is that operator's own, and there is
      one exactly for the nine operators with a meaning. */
  lemma FloatRefines(u: Fpu, op: TokenKind, t: TypeId, a: Double, b: Double)
    requires IsFloat(t)
    ensures var opcode := OpcodeFor(op, Some(t), Some(if IsBoolOperator(op) then TypeId.Bool else t));
            && (opcode.Ok? <==> !DoubleMeaning(u, op, a, b).ArithWrong?)
            && (opcode.Ok? ==> Refines(ExecuteFloat(u, opcode.value, a, b), DoubleMeaning(u, op, a, b)))
  {
  }

  /** For a node that has a meaning, the annotations lead to an instruction of that meaning. */
  lemma NodeRefines(u: Fpu, op: TokenKind, operand: Option<TypeId>, resolved: Option<TypeId>, a: Val, b: Val,
                    opcode: Opcode)
    requires ValOk(a) && ValOk(b) && !Apply(u, op, operand, resolved, a, b).ArithWrong?
    requires OpcodeFor(op, operand, resolved) == Ok(opcode)
    ensures Refines(ExecuteWords(u, opcode, WordOf(a), WordOf(b)), Apply(u, op, operand, resolved, a, b))
  {
    if a.DoubleV? {
      FloatRefines(u, op, Float64, a.x, b.x);
    } else if IsBoolOperator(op) {
      ComparisonRefines(op, a.ty, a.n, b.n, opcode);
    } else if op == TokenKind.ForwardSlash {
      DivisionRefines(a.ty, a.n, b.n);
    } else {
      WrappingRefines(op, a.ty, a.n, b.n, opcode);
    }
  }

  /** Results stay in the range of their type. */
  lemma ApplyOk(u: Fpu, op: TokenKind, operand: Option<TypeId>, resolved: Option<TypeId>, a: Val, b: Val)
    requires Apply(u, op, operand, resolved, a, b).Result?
    ensures var v := Apply(u, op, operand, resolved, a, b).v; ValOk(v) && resolved == Some(TypeOf(v))
  {
  }

  /** The LLVM type of a value's type is that of its word. */
  lemma WordTyped(v: Val)
    requires ValOk(v)
    ensures LlvmTypeOf(TypeOf(v)) == Ok(TypeOfWord(WordOf(v)))
  {
  }
}
