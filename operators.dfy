/**
 * The value-level operations of the interpreter (src/EmojiInterpreter.cpp):
 * C++ `int` arithmetic with its undefined behaviour made explicit, the
 * bitwise operators on 32-bit two's complement, the per-operator steps of
 * the binary-expression loops, the cast operators, the literal readers and
 * the "==" search of the equality visitor.
 */
module Operators {
  import opened Errors
  import opened Values
  import Glyphs

  // ---------------------------------------------------------------------
  // C++ int arithmetic
  // ---------------------------------------------------------------------

  function Abs(x: int): nat {
    if x < 0 then -x else x
  }

  /** C++ `/` on int: the quotient truncated toward zero. */
  function CDiv(a: int, b: int): int
    requires b != 0
  {
    var q := Abs(a) / Abs(b);
    if (a < 0) == (b < 0) then q else -q
  }

  /** C++ `%` on int: the remainder has the sign of the dividend and is smaller than the divisor. */
  function CRem(a: int, b: int): (r: int)
    requires b != 0
    ensures Abs(r) < Abs(b)
    ensures r != 0 ==> (r < 0 <==> a < 0)
  {
    if a < 0 then -(Abs(a) % Abs(b)) else Abs(a) % Abs(b)
  }

  /** The C++ division identity: (a / b) * b + a % b == a. */
  lemma CRemDivision(a: int, b: int)
    requires b != 0
    ensures a == b * CDiv(a, b) + CRem(a, b)
  {
    var q := Abs(a) / Abs(b);
    var m := Abs(a) % Abs(b);
    assert Abs(a) == Abs(b) * q + m;
    if a < 0 && b < 0 {
      assert b * q == -(Abs(b) * q);
    } else if a < 0 {
      assert b * -q == -(Abs(b) * q);
    } else if b < 0 {
      assert b * -q == Abs(b) * q;
    }
  }

  /** An int result, or undefined behaviour when the exact value does not fit in 32 bits. */
  function IntResult(x: int, what: string): (r: Result<Value>)
    ensures r.Ok? <==> InInt32(x)
    ensures r.Ok? ==> r.value.Int? && r.value.i as int == x
  {
    if InInt32(x) then Ok(Int(x as int32)) else Err(UndefinedBehaviour(what))
  }

  /** `a % b` on int: undefined for a zero divisor and for INT_MIN % -1 (whose quotient overflows). */
  function IntRem(a: int32, b: int32): (r: Result<Value>)
    ensures r.Ok? <==> b != 0 && !(a as int == IntMin && b == -1)
    ensures r.Ok? ==> r.value.Int? && r.value.i as int == CRem(a as int, b as int)
  {
    if b == 0 then Err(UndefinedBehaviour("% by zero"))
    else if a as int == IntMin && b == -1 then Err(UndefinedBehaviour("INT_MIN % -1"))
    else Ok(Int(CRem(a as int, b as int) as int32))
  }

  // ---------------------------------------------------------------------
  // Bitwise operators on 32-bit two's complement
  // ---------------------------------------------------------------------

  function Pow2(w: nat): (p: nat)
    ensures p >= 1
  {
    if w == 0 then 1 else 2 * Pow2(w - 1)
  }

  lemma {:induction false} Pow2Add(a: nat, b: nat)
    ensures Pow2(a + b) == Pow2(a) * Pow2(b)
    decreases a
  {
    if a > 0 {
      Pow2Add(a - 1, b);
      assert Pow2(a + b) == 2 * Pow2(a - 1 + b);
    }
  }

  /** The width of the C++ int. */
  const WordBits: nat := 32

  lemma Pow2Word()
    ensures Pow2(WordBits) == 0x1_0000_0000
  {
    assert Pow2(8) == 256;
    Pow2Add(8, 8);
    Pow2Add(16, 16);
  }

  datatype BitOp = AndBits | OrBits | XorBits

  /** One bit of a & b, a | b or a ^ b. */
  function Combine(op: BitOp, x: nat, y: nat): (r: nat)
    requires x < 2 && y < 2
    ensures r < 2
  {
    match op
    case AndBits => x * y
    case OrBits => if x + y > 0 then 1 else 0
    case XorBits => (x + y) % 2
  }

  /** The low w bits of a & b, a | b or a ^ b, computed bit by bit from the least significant. */
  function Bitwise(op: BitOp, a: nat, b: nat, w: nat): (r: nat)
    ensures r < Pow2(w)
  {
    if w == 0 then 0 else Combine(op, a % 2, b % 2) + 2 * Bitwise(op, a / 2, b / 2, w - 1)
  }

  /** The 32-bit two's complement pattern of an int, read as an unsigned number. */
  function ToUnsigned(x: int32): (u: nat)
    ensures u < 0x1_0000_0000
    ensures u as int % 0x1_0000_0000 == x as int % 0x1_0000_0000
  {
    if x < 0 then x as int + 0x1_0000_0000 else x as int
  }

  /** The int a 32-bit pattern stands for. */
  function FromUnsigned(u: nat): (x: int32)
    requires u < 0x1_0000_0000
    ensures ToUnsigned(x) == u
  {
    if u < 0x8000_0000 then u as int32 else (u as int - 0x1_0000_0000) as int32
  }

  function BitwiseInt(op: BitOp, x: int32, y: int32): int32 {
    Pow2Word();
    FromUnsigned(Bitwise(op, ToUnsigned(x), ToUnsigned(y), WordBits))
  }

  function BitAnd(x: int32, y: int32): int32 {
    BitwiseInt(AndBits, x, y)
  }

  function BitOr(x: int32, y: int32): int32 {
    BitwiseInt(OrBits, x, y)
  }

  function BitXor(x: int32, y: int32): int32 {
    BitwiseInt(XorBits, x, y)
  }

  /** C++ `~x` on int: the two's complement of x, which is -x-1 and never overflows. */
  function BitNot(x: int32): (r: int32)
    ensures r as int == -(x as int) - 1
  {
    (-(x as int) - 1) as int32
  }

  lemma {:induction false} XorTwice(a: nat, b: nat, w: nat)
    requires a < Pow2(w)
    ensures Bitwise(XorBits, Bitwise(XorBits, a, b, w), b, w) == a
  {
    if w > 0 {
      var c := Bitwise(XorBits, a, b, w);
      assert c % 2 == Combine(XorBits, a % 2, b % 2) && c / 2 == Bitwise(XorBits, a / 2, b / 2, w - 1);
      XorTwice(a / 2, b / 2, w - 1);
    }
  }

  lemma {:induction false} WithAllOnes(a: nat, w: nat)
    requires a < Pow2(w)
    ensures Bitwise(AndBits, a, Pow2(w) - 1, w) == a
    ensures Bitwise(XorBits, a, Pow2(w) - 1, w) == Pow2(w) - 1 - a
  {
    if w > 0 {
      assert (Pow2(w) - 1) % 2 == 1 && (Pow2(w) - 1) / 2 == Pow2(w - 1) - 1;
      WithAllOnes(a / 2, w - 1);
    }
  }

  lemma {:induction false} WithZero(a: nat, w: nat)
    requires a < Pow2(w)
    ensures Bitwise(OrBits, a, 0, w) == a
  {
    if w > 0 {
      WithZero(a / 2, w - 1);
    }
  }

  /** x ^ y ^ y == x: exclusive or with the same operand twice is the identity. */
  lemma BitXorCancels(x: int32, y: int32)
    ensures BitXor(BitXor(x, y), y) == x
  {
    Pow2Word();
    XorTwice(ToUnsigned(x), ToUnsigned(y), WordBits);
  }

  /** x & -1 == x and x | 0 == x. */
  lemma BitIdentities(x: int32)
    ensures BitAnd(x, -1) == x
    ensures BitOr(x, 0) == x
  {
    Pow2Word();
    WithAllOnes(ToUnsigned(x), WordBits);
    WithZero(ToUnsigned(x), WordBits);
  }

  /** ~x == x ^ -1: the arithmetic form of ~ is the bitwise complement. */
  lemma BitNotIsComplement(x: int32)
    ensures BitNot(x) == BitXor(x, -1)
  {
    Pow2Word();
    WithAllOnes(ToUnsigned(x), WordBits);
  }

  // ---------------------------------------------------------------------
  // Operator spellings the interpreter recognises
  // ---------------------------------------------------------------------

  const PlusOps: set<string> := {"+", Glyphs.Plus}
  const MinusOps: set<string> := {"-", Glyphs.Minus}
  const TimesOps: set<string> := {"*", Glyphs.Times}
  const DivideOps: set<string> := {"/", Glyphs.Divide}
  const ModuloOps: set<string> := {"%", "mod", Glyphs.Modulo}
  const BitAndOps: set<string> := {"&", Glyphs.BitAnd}
  const XorOps: set<string> := {"^", "xor", Glyphs.Xor}
  const BitOrOps: set<string> := {"|", Glyphs.BitOr}
  const LogicalAndOps: set<string> := {"&&", "and", Glyphs.And}
  const LogicalOrOps: set<string> := {"||", "or", Glyphs.Or}
  const NotOps: set<string> := {"!", "not", Glyphs.Not}
  const TildeOps: set<string> := {"~", Glyphs.Tilde}

  /**
   * The seven binary-expression visitors share one loop shape and differ in
   * the operator step; the kind says which visitor it is.
   */
  datatype FoldKind =
    | Additive | Multiplicative | BitwiseAnd | ExclusiveOr | InclusiveOr | LogicalAnd | LogicalOr

  /** The operators a visitor acts on; any other operator leaves the running value alone. */
  function KindOps(kind: FoldKind): set<string> {
    match kind
    case Additive => PlusOps + MinusOps
    case Multiplicative => TimesOps + DivideOps + ModuloOps
    case BitwiseAnd => BitAndOps
    case ExclusiveOr => XorOps
    case InclusiveOr => BitOrOps
    case LogicalAnd => LogicalAndOps
    case LogicalOr => LogicalOrOps
  }

  /** + - * on two ints stays int; any other pair of operands goes through double. */
  function Arith(op: string, left: Value, right: Value, fp: FloatOps): Result<Value>
    requires op in PlusOps + MinusOps + TimesOps
  {
    if left.Int? && right.Int? then
      var a := left.i as int;
      var b := right.i as int;
      if op in PlusOps then IntResult(a + b, "int overflow in +")
      else if op in MinusOps then IntResult(a - b, "int overflow in -")
      else IntResult(a * b, "int overflow in *")
    else
      var x := ValueToDouble(left, fp);
      var y := ValueToDouble(right, fp);
      if op in PlusOps then Ok(Double(fp.add(x, y)))
      else if op in MinusOps then Ok(Double(fp.sub(x, y)))
      else Ok(Double(fp.mul(x, y)))
  }

  /**
   * One iteration of a binary-expression loop: the running value combined
   * with the value of the right operand under the operator's spelling.
   */
  function Step(kind: FoldKind, op: string, left: Value, right: Value, fp: FloatOps): (r: Result<Value>)
    ensures op !in KindOps(kind) ==> r == Ok(left)
    ensures r.Err? ==> r.error.UndefinedBehaviour? && (kind == Additive || kind == Multiplicative)
    ensures r.Ok? && op in KindOps(kind) && kind in {BitwiseAnd, ExclusiveOr, InclusiveOr} ==> r.value.Int?
    ensures r.Ok? && op in KindOps(kind) && kind in {LogicalAnd, LogicalOr} ==> r.value.Bool?
    ensures kind == Multiplicative && op in DivideOps ==> r.Ok? && r.value.Double?
  {
    match kind
    case Additive =>
      if op in PlusOps || op in MinusOps then Arith(op, left, right, fp) else Ok(left)
    case Multiplicative =>
      if op in TimesOps then Arith(op, left, right, fp)
      else if op in DivideOps then Ok(Double(fp.div(ValueToDouble(left, fp), ValueToDouble(right, fp))))
      else if op in ModuloOps then IntRem(ValueToInt(left, fp), ValueToInt(right, fp))
      else Ok(left)
    case BitwiseAnd =>
      if op in BitAndOps then Ok(Int(BitAnd(ValueToInt(left, fp), ValueToInt(right, fp)))) else Ok(left)
    case ExclusiveOr =>
      if op in XorOps then Ok(Int(BitXor(ValueToInt(left, fp), ValueToInt(right, fp)))) else Ok(left)
    case InclusiveOr =>
      if op in BitOrOps then Ok(Int(BitOr(ValueToInt(left, fp), ValueToInt(right, fp)))) else Ok(left)
    case LogicalAnd =>
      if op in LogicalAndOps then Ok(Bool(ValueToBool(left, fp) && ValueToBool(right, fp))) else Ok(left)
    case LogicalOr =>
      if op in LogicalOrOps then Ok(Bool(ValueToBool(left, fp) || ValueToBool(right, fp))) else Ok(left)
  }

  /** Integer addition, subtraction and multiplication are exact when they fit and undefined otherwise. */
  lemma IntArithmetic(kind: FoldKind, op: string, a: int32, b: int32, fp: FloatOps)
    requires (kind == Additive && op in PlusOps + MinusOps) || (kind == Multiplicative && op in TimesOps)
    ensures var exact := if op in PlusOps then a as int + b as int
                         else if op in MinusOps then a as int - b as int
                         else a as int * b as int;
            && (Step(kind, op, Int(a), Int(b), fp).Ok? <==> InInt32(exact))
            && (InInt32(exact) ==> Step(kind, op, Int(a), Int(b), fp) == Ok(Int(exact as int32)))
  {
    if kind == Multiplicative {
      assert op !in PlusOps && op !in MinusOps;
    }
  }

  /** The remainder operator is C++'s truncating % on the operands read as ints. */
  lemma ModuloIsTruncating(op: string, left: Value, right: Value, fp: FloatOps)
    requires op in ModuloOps
    ensures var a := ValueToInt(left, fp);
            var b := ValueToInt(right, fp);
            var r := Step(Multiplicative, op, left, right, fp);
            && (r.Ok? <==> b != 0 && !(a as int == IntMin && b == -1))
            && (r.Ok? ==> r.value.Int? && a as int == b as int * CDiv(a as int, b as int) + r.value.i as int)
  {
    assert op !in TimesOps && op !in DivideOps;
    var a := ValueToInt(left, fp);
    var b := ValueToInt(right, fp);
    if b != 0 {
      CRemDivision(a as int, b as int);
    }
  }

  // ---------------------------------------------------------------------
  // Casts and literals
  // ---------------------------------------------------------------------

  /** visitCastExpression with an operator: logical not, bitwise not, or nothing for any other operator. */
  function CastValue(op: string, v: Value, fp: FloatOps): (r: Value)
    ensures op in NotOps ==> r == Bool(!ValueToBool(v, fp))
    ensures op in TildeOps ==> r.Int? && r.i as int == -(ValueToInt(v, fp) as int) - 1
    ensures op !in NotOps + TildeOps ==> r == Unit
  {
    if op in NotOps then Bool(!ValueToBool(v, fp))
    else if op in TildeOps then Int(BitNot(ValueToInt(v, fp)))
    else Unit
  }

  /** Two logical nots give the truth of the operand as a bool. */
  lemma DoubleNegation(op1: string, op2: string, v: Value, fp: FloatOps)
    requires op1 in NotOps && op2 in NotOps
    ensures CastValue(op1, CastValue(op2, v, fp), fp) == Bool(ValueToBool(v, fp))
  {
  }

  /** Two bitwise nots give the operand read as an int. */
  lemma DoubleComplement(op1: string, op2: string, v: Value, fp: FloatOps)
    requires op1 in TildeOps && op2 in TildeOps
    ensures CastValue(op1, CastValue(op2, v, fp), fp) == Int(ValueToInt(v, fp))
  {
    assert op1 !in NotOps && op2 !in NotOps;
  }

  /**
   * visitNumber on a token text: a text with a '.' is read by std::stod,
   * any other by std::stoi, and a text they reject reads as int 0.
   */
  function NumberText(s: string, fp: FloatOps): (v: Value)
    ensures '.' !in s ==> v.Int?
    ensures v.Double? ==> '.' in s
  {
    if '.' in s then
      match fp.stod(s)
      case Some(d) => Double(d)
      case None => Int(0)
    else
      match Stoi(s)
      case Some(n) => Int(n)
      case None => Int(0)
  }

  /** The decimal text of every int reads back as that int. */
  lemma NumberTextOfInt(n: int32, fp: FloatOps)
    ensures NumberText(IntToString(n as int), fp) == Int(n)
  {
    var s := IntToString(n as int);
    var m: nat := if n < 0 then -(n as int) else n as int;
    assert s == if n < 0 then "-" + NatToString(m) else NatToString(m);
    assert forall i :: 0 <= i < |s| ==> s[i] == '-' || IsDigit(s[i]);
    assert '.' !in s;
    StoiOfIntToString(n);
  }

  /** visitBoolean on a token text: true exactly for "true" and ✔. */
  function BooleanText(s: string): (v: Value)
    ensures v.Bool? && (v.b <==> s == "true" || s == Glyphs.True)
  {
    Bool(s == "true" || s == Glyphs.True)
  }

  // ---------------------------------------------------------------------
  // The "==" search of visitEqualityExpression
  // ---------------------------------------------------------------------

  /** std::string::find("==") != npos */
  predicate HasDoubleEquals(s: string) {
    |s| >= 2 && ((s[0] == '=' && s[1] == '=') || HasDoubleEquals(s[1..]))
  }

  /** The search finds exactly the texts with two adjacent '=' characters. */
  lemma {:induction false} HasDoubleEqualsAt(s: string)
    ensures HasDoubleEquals(s) <==> exists k :: 0 <= k && k + 1 < |s| && s[k] == '=' && s[k + 1] == '='
  {
    if |s| >= 2 {
      HasDoubleEqualsAt(s[1..]);
      if !(s[0] == '=' && s[1] == '=') && exists k :: 0 <= k && k + 1 < |s| && s[k] == '=' && s[k + 1] == '=' {
        var k :| 0 <= k && k + 1 < |s| && s[k] == '=' && s[k + 1] == '=';
        assert k > 0;
        assert s[1..][k - 1] == '=' && s[1..][k] == '=';
      }
    }
  }

  /**
   * Joining two texts with a space between them creates no "==": the joined
   * text has one exactly when one of the parts has.
   */
  lemma {:induction false} JoinedHasDoubleEquals(a: string, b: string)
    ensures HasDoubleEquals(a + " " + b) <==> HasDoubleEquals(a) || HasDoubleEquals(b)
    decreases |a|
  {
    if |a| == 0 {
      assert a + " " + b == [' '] + b;
      assert (a + " " + b)[1..] == b;
    } else {
      JoinedHasDoubleEquals(a[1..], b);
      assert (a + " " + b)[1..] == a[1..] + " " + b;
      if |a| == 1 {
        assert (a + " " + b)[1] == ' ';
      } else {
        assert (a + " " + b)[1] == a[1];
      }
    }
  }
}
