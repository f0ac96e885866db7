/**
 * The interpreter's dynamic value: the C++ variant
 * `std::variant<std::monostate, int, double, bool, std::string>`
 * (include/SymbolTable.hpp:8), and the coercions of
 * src/EmojiInterpreter.cpp:485-552.
 *
 * `int` is the 32-bit C++ int. `double` is kept opaque: the model does not
 * interpret IEEE arithmetic, parsing or formatting, so those operations are
 * supplied by a `FloatOps` record that every evaluation is parameterised by.
 */
module Values {
  import opened Errors

  const IntMin: int := -0x8000_0000
  const IntMax: int := 0x7fff_ffff

  /** The C++ `int` (32 bits, two's complement). */
  newtype int32 = x: int | -0x8000_0000 <= x < 0x8000_0000

  predicate InInt32(x: int) {
    IntMin <= x <= IntMax
  }

  /** The C++ `double`, left uninterpreted. */
  type Float64(==)

  /** The floating-point operations the interpreter uses, as parameters. */
  datatype FloatOps = FloatOps(
    fromInt: int32 -> Float64,              // static_cast<double>(int); also the literals 0.0 and 1.0
    stod: string -> Option<Float64>,        // std::stod; None when it throws
    add: (Float64, Float64) -> Float64,
    sub: (Float64, Float64) -> Float64,
    mul: (Float64, Float64) -> Float64,
    div: (Float64, Float64) -> Float64,
    isZero: Float64 -> bool,                // d == 0.0
    toInt: Float64 -> int32,                // static_cast<int>(d)
    format: Float64 -> string               // std::to_string(double)
  )

  datatype Value =
    | Unit                  // std::monostate
    | Int(i: int32)
    | Double(d: Float64)
    | Bool(b: bool)
    | Str(s: string)

  // ---------------------------------------------------------------------
  // Character classes (ASCII, as std::isspace / std::isdigit in the C locale)
  // ---------------------------------------------------------------------

  predicate IsSpace(c: char) {
    c == ' ' || c == '\t' || c == '\n' || c == '\r' || c == '\U{0B}' || c == '\U{0C}'
  }

  predicate IsDigit(c: char) {
    '0' <= c <= '9'
  }

  function DigitValue(c: char): (d: nat)
    requires IsDigit(c)
    ensures d < 10
  {
    (c as int) - ('0' as int)
  }

  function DigitChar(d: nat): (c: char)
    requires d < 10
    ensures IsDigit(c) && DigitValue(c) == d
  {
    (('0' as int) + d) as char
  }

  // ---------------------------------------------------------------------
  // std::to_string(int)
  // ---------------------------------------------------------------------

  /** Decimal digits of n, most significant first, no leading zeros. */
  function NatToString(n: nat): (s: string)
    ensures |s| > 0
    ensures forall i :: 0 <= i < |s| ==> IsDigit(s[i])
    ensures s[0] == '0' ==> n == 0
  {
    if n < 10 then [DigitChar(n)] else NatToString(n / 10) + [DigitChar(n % 10)]
  }

  /** std::to_string(int): a '-' sign for negative numbers, then the decimal digits. */
  function IntToString(n: int): string {
    if n < 0 then "-" + NatToString(-n) else NatToString(n)
  }

  // ---------------------------------------------------------------------
  // std::stoi
  // ---------------------------------------------------------------------

  /** Drops the leading white space that strtol skips. */
  function SkipSpace(s: string): (t: string)
    ensures |t| <= |s| && t == s[|s| - |t|..]
    ensures |t| > 0 ==> !IsSpace(t[0])
  {
    if |s| > 0 && IsSpace(s[0]) then SkipSpace(s[1..]) else s
  }

  /** The longest prefix of s made of decimal digits. */
  function DigitPrefix(s: string): (d: string)
    ensures |d| <= |s| && d == s[..|d|]
    ensures forall i :: 0 <= i < |d| ==> IsDigit(d[i])
    ensures |d| < |s| ==> !IsDigit(s[|d|])
  {
    if |s| > 0 && IsDigit(s[0]) then [s[0]] + DigitPrefix(s[1..]) else []
  }

  /** The number a string of decimal digits denotes. */
  function DigitsValue(d: string): nat
    requires forall i :: 0 <= i < |d| ==> IsDigit(d[i])
  {
    if |d| == 0 then 0 else 10 * DigitsValue(d[..|d| - 1]) + DigitValue(d[|d| - 1])
  }

  /**
   * std::stoi(s): skip white space, an optional sign, then the longest run of
   * digits. None when std::stoi throws: no digit (invalid_argument) or a value
   * outside int (out_of_range).
   */
  function Stoi(s: string): Option<int32> {
    var t := SkipSpace(s);
    var negative := |t| > 0 && t[0] == '-';
    var u := if |t| > 0 && (t[0] == '-' || t[0] == '+') then t[1..] else t;
    var d := DigitPrefix(u);
    if |d| == 0 then None
    else
      var magnitude: int := DigitsValue(d);
      var v := if negative then -magnitude else magnitude;
      if InInt32(v) then Some(v as int32) else None
  }

  lemma {:induction false} DigitsValueOfNatToString(n: nat)
    ensures DigitsValue(NatToString(n)) == n
  {
    var s := NatToString(n);
    if n >= 10 {
      DigitsValueOfNatToString(n / 10);
      assert s[..|s| - 1] == NatToString(n / 10);
    }
  }

  lemma {:induction false} DigitPrefixOfDigits(d: string)
    requires forall i :: 0 <= i < |d| ==> IsDigit(d[i])
    ensures DigitPrefix(d) == d
  {
    if |d| > 0 {
      DigitPrefixOfDigits(d[1..]);
    }
  }

  /** std::stoi reads back what std::to_string(int) writes. */
  lemma StoiOfIntToString(n: int32)
    ensures Stoi(IntToString(n as int)) == Some(n)
  {
    var s := IntToString(n as int);
    var m: nat := if n < 0 then -(n as int) else n as int;
    var digits := NatToString(m);
    DigitsValueOfNatToString(m);
    DigitPrefixOfDigits(digits);
    assert !IsSpace(s[0]);
    assert SkipSpace(s) == s;
    if n < 0 {
      assert s == "-" + digits;
      assert s[1..] == digits;
      assert Stoi(s) == Some(n);
    } else {
      assert s == digits && IsDigit(s[0]);
      assert Stoi(s) == Some(n);
    }
  }

  /** The decimal text of an int is "0" exactly for zero. */
  lemma IntToStringIsZero(n: int)
    ensures IntToString(n) == "0" <==> n == 0
  {
    if n < 0 {
      assert IntToString(n)[0] == '-';
    } else if n >= 10 {
      assert |NatToString(n / 10)| > 0;
    }
  }

  // ---------------------------------------------------------------------
  // The coercions of EmojiInterpreter
  // ---------------------------------------------------------------------

  /** EmojiInterpreter::valueToString */
  function ValueToString(v: Value, fp: FloatOps): string {
    match v
    case Unit => "0"
    case Int(i) => IntToString(i as int)
    case Double(d) => fp.format(d)
    case Bool(b) => if b then "true" else "false"
    case Str(s) => s
  }

  /** EmojiInterpreter::valueToDouble */
  function ValueToDouble(v: Value, fp: FloatOps): Float64 {
    match v
    case Unit => fp.fromInt(0)
    case Int(i) => fp.fromInt(i)
    case Double(d) => d
    case Bool(b) => if b then fp.fromInt(1) else fp.fromInt(0)
    case Str(s) => match fp.stod(s) case Some(d) => d case None => fp.fromInt(0)
  }

  /** EmojiInterpreter::valueToBool */
  function ValueToBool(v: Value, fp: FloatOps): bool {
    match v
    case Unit => false
    case Int(i) => i != 0
    case Double(d) => !fp.isZero(d)
    case Bool(b) => b
    case Str(s) => s != "" && s != "false" && s != "0"
  }

  /** EmojiInterpreter::valueToInt */
  function ValueToInt(v: Value, fp: FloatOps): int32 {
    match v
    case Unit => 0
    case Int(i) => i
    case Double(d) => fp.toInt(d)
    case Bool(b) => if b then 1 else 0
    case Str(s) => match Stoi(s) case Some(n) => n case None => 0
  }

  /**
   * Truthiness survives printing: for every value that is not a double, the
   * truth of its string form is its own truth.
   */
  lemma ValueToBoolOfString(v: Value, fp: FloatOps)
    requires !v.Double?
    ensures ValueToBool(Str(ValueToString(v, fp)), fp) == ValueToBool(v, fp)
  {
    if v.Int? {
      IntToStringIsZero(v.i as int);
      var s := IntToString(v.i as int);
      assert |NatToString(if v.i < 0 then -(v.i as int) else v.i as int)| > 0;
      assert IsDigit(s[0]) || s[0] == '-';
      assert s != "false" by {
        assert "false"[0] == 'f';
      }
    }
  }

  /** An int, the unit value and a number-text string read back as the same int. */
  lemma ValueToIntOfString(v: Value, fp: FloatOps)
    requires v.Int? || v.Unit? || v.Str?
    ensures ValueToInt(Str(ValueToString(v, fp)), fp) == ValueToInt(v, fp)
  {
    match v
    case Int(i) =>
      StoiOfIntToString(i);
      assert ValueToInt(Str(IntToString(i as int)), fp) == i;
    case Unit =>
      StoiOfIntToString(0);
      assert IntToString(0) == "0";
      assert ValueToInt(Str("0"), fp) == 0;
    case Str(_) =>
  }

  /**
   * Every value but a string or a double converts to a double through the
   * int it converts to; a string that stod rejects converts as 0.
   */
  lemma ValueToDoubleThroughInt(v: Value, fp: FloatOps)
    ensures v.Unit? || v.Int? || v.Bool? ==> ValueToDouble(v, fp) == fp.fromInt(ValueToInt(v, fp))
    ensures v.Str? && fp.stod(v.s) == None ==> ValueToDouble(v, fp) == fp.fromInt(0)
  {
  }

  /** A value is "0" as text exactly when it is unit, int 0 or the string "0" (for non-doubles). */
  lemma ValueToStringIsZero(v: Value, fp: FloatOps)
    requires !v.Double?
    ensures ValueToString(v, fp) == "0" <==> (v.Unit? || v == Int(0) || v == Str("0"))
  {
    if v.Int? {
      IntToStringIsZero(v.i as int);
    }
  }
}
