/**
 * The JavaScript values the handlers and the client code inspect, and the
 * language operations they rely on: truthiness, `||`, `??`, optional member
 * access, `Number(x)` and `String(x)`. Numbers are integers here.
 */
module Js {
  import opened Strings

  datatype Value =
    | Undefined
    | Null
    | Bool(b: bool)
    | Num(n: int)
    | Str(s: string)
    | Arr(items: seq<Value>)
    | Obj(fields: map<string, Value>)

  /** `Boolean(v)`: the falsy values are undefined, null, false, 0 and "". */
  predicate Truthy(v: Value) {
    match v
    case Undefined => false
    case Null => false
    case Bool(b) => b
    case Num(n) => n != 0
    case Str(s) => s != ""
    case Arr(_) => true
    case Obj(_) => true
  }

  /** `v == null`. */
  predicate Nullish(v: Value) {
    v.Undefined? || v.Null?
  }

  /** `a || b`. */
  function Or(a: Value, b: Value): (r: Value)
    ensures Truthy(a) ==> r == a
    ensures !Truthy(a) ==> r == b
  {
    if Truthy(a) then a else b
  }

  /** `a ?? b`. */
  function Coalesce(a: Value, b: Value): (r: Value)
    ensures !Nullish(a) ==> r == a
    ensures Nullish(a) ==> r == b
  {
    if Nullish(a) then b else a
  }

  /** `v?.[k]`: a missing key, or a value that is not an object, gives undefined. */
  function Get(v: Value, k: string): Value {
    if v.Obj? && k in v.fields then v.fields[k] else Undefined
  }

  /** `Array.isArray(v)`. */
  predicate IsArray(v: Value) {
    v.Arr?
  }

  /** The result of `Number(x)`. */
  datatype Number = Finite(i: int) | NaN | Infinite(positive: bool)

  /**
   * `Number(s)` for a string, after the StringNumericLiteral grammar of
   * section 7.1.4.1 of ECMA-262: surrounding white space is ignored and ""
   * is 0; otherwise an optionally signed decimal literal (digits, a
   * fraction, an exponent) or Infinity, or an unsigned 0x, 0o or 0b
   * literal. A literal whose value is not an integer gives NaN here.
   */
  function StrToNumber(s: string): Number {
    var t := Trim(s);
    if t == "" then Finite(0)
    else if t == "Infinity" || t == "+Infinity" then Infinite(true)
    else if t == "-Infinity" then Infinite(false)
    else if |t| > 2 && t[0] == '0' && Radix(t[1]) > 0 then RadixNumber(t[2..], Radix(t[1]))
    else if t[0] == '+' then DecimalNumber(t[1..], false)
    else if t[0] == '-' then DecimalNumber(t[1..], true)
    else DecimalNumber(t, false)
  }

  /** The base a prefix letter selects: x 16, o 8, b 2; 0 for any other character. */
  function Radix(c: char): nat {
    if c == 'x' || c == 'X' then 16
    else if c == 'o' || c == 'O' then 8
    else if c == 'b' || c == 'B' then 2
    else 0
  }

  /** The value of a hexadecimal digit in either case; 16 for any other character. */
  function DigitOf(c: char): nat {
    if '0' <= c <= '9' then c as int - '0' as int
    else if 'a' <= c <= 'f' then c as int - 'a' as int + 10
    else if 'A' <= c <= 'F' then c as int - 'A' as int + 10
    else 16
  }

  predicate RadixDigits(d: string, base: nat) {
    forall i :: 0 <= i < |d| ==> DigitOf(d[i]) < base
  }

  /** The value of the digits `d` in `base`, most significant first. */
  function RadixValue(d: string, base: nat): nat
    requires RadixDigits(d, base)
  {
    if d == [] then 0 else RadixValue(d[..|d| - 1], base) * base + DigitOf(d[|d| - 1])
  }

  /** The digits after a 0x, 0o or 0b prefix. */
  function RadixNumber(d: string, base: nat): Number {
    if RadixDigits(d, base) then Finite(RadixValue(d, base)) else NaN
  }

  /** The first index holding `a` or `b`, or |s| when neither occurs. */
  function Mark(s: string, a: char, b: char): (i: nat)
    ensures i <= |s|
    ensures i < |s| ==> s[i] == a || s[i] == b
    ensures forall j :: 0 <= j < i ==> s[j] != a && s[j] != b
  {
    if s == [] || s[0] == a || s[0] == b then 0 else 1 + Mark(s[1..], a, b)
  }

  /** The text after `e`: an optional sign and at least one digit. */
  predicate ExponentText(x: string) {
    var d := if x != [] && (x[0] == '+' || x[0] == '-') then x[1..] else x;
    d != [] && AllDigits(d)
  }

  function ExponentValue(x: string): int
    requires ExponentText(x)
  {
    if x[0] == '-' then -(DigitsValue(x[1..]) as int)
    else if x[0] == '+' then DigitsValue(x[1..])
    else DigitsValue(x)
  }

  function Pow10(k: nat): (r: nat)
    ensures r >= 1
  {
    if k == 0 then 1 else 10 * Pow10(k - 1)
  }

  /** `m` has at least `k` trailing decimal zeros. */
  predicate EndsInZeros(m: nat, k: nat) {
    k == 0 || (m % 10 == 0 && EndsInZeros(m / 10, k - 1))
  }

  /** `m` with `k` trailing zeros removed. */
  function DropZeros(m: nat, k: nat): nat
    requires EndsInZeros(m, k)
  {
    if k == 0 then m else DropZeros(m / 10, k - 1)
  }

  function Signed(v: nat, negative: bool): Number {
    Finite(if negative then -(v as int) else v)
  }

  /** `m` times ten to the `scale`, with the sign; NaN when that is not an integer. */
  function Scaled(m: nat, scale: int, negative: bool): Number {
    if scale >= 0 then Signed(m * Pow10(scale), negative)
    else if EndsInZeros(m, -scale) then Signed(DropZeros(m, -scale), negative)
    else NaN
  }

  /** An unsigned decimal literal: a mantissa, then an optional exponent; NaN for anything else. */
  function DecimalNumber(u: string, negative: bool): Number {
    var e := Mark(u, 'e', 'E');
    if e == |u| then Mantissa(u, 0, negative)
    else if ExponentText(u[e + 1..]) then Mantissa(u[..e], ExponentValue(u[e + 1..]), negative)
    else NaN
  }

  /** Digits with an optional fraction, at least one digit in all, times ten to the `exp`. */
  function Mantissa(m: string, exp: int, negative: bool): Number {
    var p := Mark(m, '.', '.');
    var whole := m[..p];
    var frac := if p < |m| then m[p + 1..] else "";
    if AllDigits(whole) && AllDigits(frac) && whole + frac != "" then
      DigitsConcat(whole, frac);
      Scaled(DigitsValue(whole + frac), exp - |frac|, negative)
    else NaN
  }

  lemma DigitsConcat(a: string, b: string)
    requires AllDigits(a) && AllDigits(b)
    ensures AllDigits(a + b)
  {
    assert forall i :: 0 <= i < |a + b| ==> (a + b)[i] == if i < |a| then a[i] else b[i - |a|];
  }

  /** `Number(v)`. */
  function ToNumber(v: Value): Number {
    match v
    case Undefined => NaN
    case Null => Finite(0)
    case Bool(b) => Finite(if b then 1 else 0)
    case Num(n) => Finite(n)
    case Str(s) => StrToNumber(s)
    case Arr(_) => StrToNumber(ToStr(v))
    case Obj(_) => NaN
  }

  /** An empty array converts to 0, a one-element array as its element's text, a nullish element as "". */
  lemma SingletonArrayNumber(x: Value)
    ensures ToNumber(Arr([])) == Finite(0)
    ensures ToNumber(Arr([x])) == if Nullish(x) then Finite(0) else StrToNumber(ToStr(x))
  {
    assert ToStr(Arr([])) == "";
    assert ToStr(Arr([x])) == if Nullish(x) then "" else ToStr(x);
    assert Trim("") == "";
  }

  /** `Number(v) || 0`: NaN and 0 both give 0; an infinite value is kept. */
  function NumberOrZero(v: Value): (r: Number)
    ensures !r.NaN?
    ensures r == Finite(0) <==> ToNumber(v) == NaN || ToNumber(v) == Finite(0)
    ensures r != Finite(0) ==> r == ToNumber(v)
  {
    if ToNumber(v).NaN? then Finite(0) else ToNumber(v)
  }

  /** `String(v)`; inside an array, undefined and null elements print as "". */
  function ToStr(v: Value): string
    decreases v, 1, 0
  {
    match v
    case Undefined => "undefined"
    case Null => "null"
    case Bool(b) => if b then "true" else "false"
    case Num(n) => IntToStr(n)
    case Str(s) => s
    case Arr(items) => JoinElements(v, 0)
    case Obj(_) => "[object Object]"
  }

  /** `items.slice(i).join(",")` for the array `whole`. */
  function JoinElements(whole: Value, i: nat): string
    requires whole.Arr? && i <= |whole.items|
    decreases whole, 0, |whole.items| - i
  {
    if i == |whole.items| then ""
    else
      var e := whole.items[i];
      var part := if Nullish(e) then "" else ToStr(e);
      if i == |whole.items| - 1 then part else part + "," + JoinElements(whole, i + 1)
  }

  lemma StringRoundTrip(s: string)
    ensures ToStr(Str(s)) == s
  {
  }

  /** A string that `Trim` leaves alone and that is no spelling of Infinity. */
  lemma PlainNumberText(t: string)
    requires t != [] && !IsSpace(t[0]) && !IsSpace(t[|t| - 1]) && t[|t| - 1] != 'y'
    ensures Trim(t) == t
    ensures t != "Infinity" && t != "+Infinity" && t != "-Infinity"
  {
    TrimOfTrimmed(t);
  }

  /** A trimmed text that starts with a digit and has no radix prefix is read as a decimal literal. */
  lemma DecimalText(t: string)
    requires t != [] && IsDigit(t[0]) && !IsSpace(t[|t| - 1]) && t[|t| - 1] != 'y'
    requires |t| > 2 && t[0] == '0' ==> Radix(t[1]) == 0
    ensures StrToNumber(t) == DecimalNumber(t, false)
  {
    PlainNumberText(t);
  }

  /** A minus sign and a trimmed text: the negated decimal literal. */
  lemma NegativeText(t: string)
    requires |t| > 1 && t[0] == '-' && !IsSpace(t[|t| - 1]) && t[|t| - 1] != 'y'
    ensures StrToNumber(t) == DecimalNumber(t[1..], true)
  {
    PlainNumberText(t);
  }

  /** A run of digits has neither an exponent mark nor a decimal point. */
  lemma MarksOfDigits(d: string)
    requires AllDigits(d)
    ensures Mark(d, 'e', 'E') == |d| && Mark(d, '.', '.') == |d|
  {
  }

  /** A non-empty run of digits, read as an unsigned decimal literal. */
  lemma DecimalOfDigits(d: string, negative: bool)
    requires d != [] && AllDigits(d)
    ensures DecimalNumber(d, negative) == Signed(DigitsValue(d), negative)
  {
    MarksOfDigits(d);
    MantissaOfDigits(d, 0, negative);
  }

  /** A non-empty run of digits as a mantissa: its value, scaled. */
  lemma MantissaOfDigits(d: string, exp: int, negative: bool)
    requires d != [] && AllDigits(d)
    ensures Mantissa(d, exp, negative) == Scaled(DigitsValue(d), exp, negative)
  {
    MarksOfDigits(d);
    assert d[..|d|] == d && d + "" == d;
  }

  /** A non-empty run of digits reads as its value. */
  lemma DigitsNumberPositive(d: string)
    requires d != [] && AllDigits(d)
    ensures StrToNumber(d) == Finite(DigitsValue(d))
  {
    assert IsDigit(d[0]) && IsDigit(d[|d| - 1]);
    assert |d| > 2 ==> IsDigit(d[1]);
    DecimalText(d);
    DecimalOfDigits(d, false);
  }

  /** A minus sign followed by a non-empty run of digits reads as the negated value. */
  lemma DigitsNumberNegative(d: string)
    requires d != [] && AllDigits(d)
    ensures StrToNumber("-" + d) == Finite(-(DigitsValue(d) as int))
  {
    var t := "-" + d;
    assert IsDigit(d[|d| - 1]) && t[|t| - 1] == d[|d| - 1];
    assert t[1..] == d;
    NegativeText(t);
    DecimalOfDigits(d, true);
  }

  /** The digits of `w` followed by the zeros `z` are worth `w`'s value times ten to the |z|. */
  lemma {:induction false} DigitsWithZeros(w: string, z: string)
    requires AllDigits(w) && forall i :: 0 <= i < |z| ==> z[i] == '0'
    ensures AllDigits(w + z) && DigitsValue(w + z) == DigitsValue(w) * Pow10(|z|)
  {
    DigitsConcat(w, z);
    if z == [] {
      assert w + z == w;
    } else {
      var z0 := z[..|z| - 1];
      DigitsWithZeros(w, z0);
      assert (w + z)[..|w + z| - 1] == w + z0;
      assert (w + z)[|w + z| - 1] == '0';
      assert DigitsValue(w + z) == DigitsValue(w + z0) * 10;
      MulPow10(DigitsValue(w), |z|);
    }
  }

  lemma MulPow10(m: nat, k: nat)
    requires k >= 1
    ensures m * Pow10(k) == (m * Pow10(k - 1)) * 10
  {
  }

  /** Ten to the `k` times `m` ends in `k` zeros, and dropping them gives back `m`. */
  lemma {:induction false} ZerosDropped(m: nat, k: nat)
    ensures EndsInZeros(m * Pow10(k), k) && DropZeros(m * Pow10(k), k) == m
  {
    if k > 0 {
      ZerosDropped(m, k - 1);
      MulPow10(m, k);
      var x := m * Pow10(k - 1);
      assert (x * 10) % 10 == 0 && (x * 10) / 10 == x;
    }
  }

  /** Where the point stands in `w.f`, and what stands on either side of it. */
  lemma FractionMarks(w: string, f: string)
    requires AllDigits(w) && AllDigits(f)
    ensures var u := w + "." + f;
      Mark(u, 'e', 'E') == |u| && Mark(u, '.', '.') == |w| && u[..|w|] == w && u[|w| + 1..] == f
  {
    var u := w + "." + f;
    assert forall i :: 0 <= i < |u| ==> u[i] == '.' || IsDigit(u[i]);
    assert u[|w|] == '.';
    assert forall j :: 0 <= j < |w| ==> u[j] == w[j];
    assert u[..|w|] == w && u[|w| + 1..] == f;
  }

  /** A literal with a fraction and no exponent: the digits of both parts, scaled down by the fraction's length. */
  lemma FractionNumber(w: string, f: string, negative: bool)
    requires AllDigits(w) && AllDigits(f) && w + f != ""
    ensures AllDigits(w + f)
    ensures DecimalNumber(w + "." + f, negative) == Scaled(DigitsValue(w + f), -|f|, negative)
  {
    var u := w + "." + f;
    FractionMarks(w, f);
    DigitsConcat(w, f);
    assert DecimalNumber(u, negative) == Mantissa(u, 0, negative);
  }

  /** "5.0", "10.00", "7.": digits, a point and only zeros read as the whole part. */
  lemma ZeroFractionNumber(w: string, z: string)
    requires w != [] && AllDigits(w) && forall i :: 0 <= i < |z| ==> z[i] == '0'
    ensures StrToNumber(w + "." + z) == Finite(DigitsValue(w))
  {
    var t := w + "." + z;
    assert AllDigits(z);
    assert t[0] == w[0] && IsDigit(w[0]);
    assert |t| > 2 ==> t[1] == '.' || IsDigit(t[1]);
    assert t[|t| - 1] == '.' || IsDigit(t[|t| - 1]);
    DecimalText(t);
    FractionNumber(w, z, false);
    DigitsWithZeros(w, z);
    ZerosDropped(DigitsValue(w), |z|);
  }

  /** Where the exponent mark stands in `m` `mark` `x`, and what stands on either side of it. */
  lemma ExponentMarks(m: string, mark: char, x: string)
    requires AllDigits(m) && (mark == 'e' || mark == 'E')
    ensures var u := m + [mark] + x;
      Mark(u, 'e', 'E') == |m| && u[..|m|] == m && u[|m| + 1..] == x
  {
    var u := m + [mark] + x;
    assert u[|m|] == mark;
    assert forall j :: 0 <= j < |m| ==> u[j] == m[j];
    assert u[..|m|] == m && u[|m| + 1..] == x;
  }

  /** Digits, an exponent mark and an exponent: the digits' value scaled by the exponent. */
  lemma ExponentDecimal(m: string, mark: char, x: string, negative: bool)
    requires m != [] && AllDigits(m) && (mark == 'e' || mark == 'E') && ExponentText(x)
    ensures DecimalNumber(m + [mark] + x, negative) == Scaled(DigitsValue(m), ExponentValue(x), negative)
  {
    var u := m + [mark] + x;
    ExponentMarks(m, mark, x);
    assert |m| < |u| && u[..|m|] == m && u[|m| + 1..] == x;
    assert DecimalNumber(u, negative) == Mantissa(m, ExponentValue(x), negative);
    MantissaOfDigits(m, ExponentValue(x), negative);
  }

  /** "1e2", "25E+3": digits, an exponent mark and a non-negative exponent read as the digits' value times that power of ten. */
  lemma ExponentNumber(m: string, k: nat)
    requires m != [] && AllDigits(m)
    ensures StrToNumber(m + "e" + NatToStr(k)) == Finite(DigitsValue(m) * Pow10(k))
    ensures StrToNumber(m + "E+" + NatToStr(k)) == Finite(DigitsValue(m) * Pow10(k))
  {
    var x := NatToStr(k);
    PlainExponent(k);
    ExponentLiteral(m, 'e', x);
    assert m + "e" + x == m + ['e'] + x;
    SignedExponentNumber(m, k);
  }

  lemma SignedExponentNumber(m: string, k: nat)
    requires m != [] && AllDigits(m)
    ensures StrToNumber(m + "E+" + NatToStr(k)) == Finite(DigitsValue(m) * Pow10(k))
  {
    var x := NatToStr(k);
    var y := "+" + x;
    var u := m + "E+" + x;
    assert u == m + ['E'] + y;
    PlainExponent(k);
    ExponentLiteral(m, 'E', y);
    calc {
      StrToNumber(u);
      StrToNumber(m + ['E'] + y);
      Scaled(DigitsValue(m), k, false);
    }
  }

  /** The decimal text of `k`, with or without a plus sign, is an exponent worth `k`. */
  lemma PlainExponent(k: nat)
    ensures var x := NatToStr(k);
      ExponentText(x) && ExponentValue(x) == k && IsDigit(x[|x| - 1])
      && ExponentText("+" + x) && ExponentValue("+" + x) == k && IsDigit(("+" + x)[|"+" + x| - 1])
  {
    var x := NatToStr(k);
    DigitsOfNat(k);
    assert x[0] != '+' && x[0] != '-';
    var y := "+" + x;
    assert y[0] == '+' && y[1..] == x;
    assert y[|y| - 1] == x[|x| - 1];
  }

  /** Digits, an exponent mark and an exponent ending in a digit: the digits' value scaled by the exponent. */
  lemma ExponentLiteral(m: string, mark: char, x: string)
    requires m != [] && AllDigits(m) && (mark == 'e' || mark == 'E') && ExponentText(x) && IsDigit(x[|x| - 1])
    ensures StrToNumber(m + [mark] + x) == Scaled(DigitsValue(m), ExponentValue(x), false)
  {
    ExponentIsDecimal(m, mark, x);
    ExponentDecimal(m, mark, x, false);
  }

  /** The whole literal is read as a decimal one. */
  lemma ExponentIsDecimal(m: string, mark: char, x: string)
    requires m != [] && AllDigits(m) && (mark == 'e' || mark == 'E') && x != [] && IsDigit(x[|x| - 1])
    ensures StrToNumber(m + [mark] + x) == DecimalNumber(m + [mark] + x, false)
  {
    var u := m + [mark] + x;
    assert u[0] == m[0] && u[|u| - 1] == x[|x| - 1];
    assert |u| > 2 ==> u[1] == mark || IsDigit(u[1]);
    DecimalText(u);
  }

  /** "0x1F", "0o17", "0b101": a prefix and digits of its base read as their value. */
  lemma RadixLiteral(c: char, d: string)
    requires Radix(c) > 0 && d != [] && RadixDigits(d, Radix(c))
    ensures StrToNumber(['0', c] + d) == Finite(RadixValue(d, Radix(c)))
  {
    var t := ['0', c] + d;
    assert DigitOf(d[|d| - 1]) < 16;
    assert t[|t| - 1] == d[|d| - 1];
    PlainNumberText(t);
    assert t[2..] == d;
  }

  /** A text starting with a lower-case letter is no number. */
  lemma WordIsNaN(s: string)
    requires s != [] && Trimmed(s) && 'a' <= s[0] <= 'z'
    ensures StrToNumber(s) == NaN
  {
    TrimOfTrimmed(s);
    assert s != "Infinity" && s != "+Infinity" && s != "-Infinity" by {
      assert "Infinity"[0] == 'I' && "+Infinity"[0] == '+' && "-Infinity"[0] == '-';
    }
    assert StrToNumber(s) == DecimalNumber(s, false);
    WordMantissa(s);
  }

  /** A text starting with a letter has no digits before its mark. */
  lemma WordMantissa(s: string)
    requires s != [] && 'a' <= s[0] <= 'z'
    ensures DecimalNumber(s, false) == NaN
  {
    var e := Mark(s, 'e', 'E');
    if e == 0 {
      var m := s[..0];
      assert Mark(m, '.', '.') == 0;
      assert m[..0] == "" && m + "" == "";
    } else {
      var m := if e == |s| then s else s[..e];
      assert m[0] == s[0];
      assert Mark(m, '.', '.') > 0;
      assert !IsDigit(m[..Mark(m, '.', '.')][0]);
    }
  }

  /** `String(n)` reads back as `n` through `Number`. */
  lemma NumberOfIntString(n: int)
    ensures ToNumber(Str(IntToStr(n))) == Finite(n)
  {
    var m: nat := if n < 0 then -n else n;
    DigitsOfNat(m);
    if n < 0 {
      DigitsNumberNegative(NatToStr(m));
    } else {
      DigitsNumberPositive(NatToStr(m));
    }
  }
}
