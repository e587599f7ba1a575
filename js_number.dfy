/**
 * JavaScript's `Number(value)` on the values a parsed document holds, and the
 * addition the stages do with it. A sum that meets NaN or an infinity stays
 * non-finite, and `JSON.stringify` writes every non-finite number as null, so
 * the model keeps a single non-finite value. Finite numbers are reals:
 * IEEE-754 rounding is not modelled.
 */
module JsNumber {
  import opened Wrappers
  import opened Json
  import opened Text

  datatype Number = Finite(value: real) | NonFinite

  /** `a + b`. */
  function Add(a: Number, b: Number): (r: Number)
    ensures r.Finite? <==> a.Finite? && b.Finite?
  {
    if a.Finite? && b.Finite? then Finite(a.value + b.value) else NonFinite
  }

  /** What `JSON.stringify` writes for a number. */
  function ToJson(x: Number): Json {
    if x.Finite? then Num(x.value) else Null
  }

  /** The value of a digit in bases up to 16. */
  function DigitValue(c: char): Option<nat> {
    if '0' <= c <= '9' then Some(c as nat - '0' as nat)
    else if 'a' <= c <= 'f' then Some(c as nat - 'a' as nat + 10)
    else if 'A' <= c <= 'F' then Some(c as nat - 'A' as nat + 10)
    else None
  }

  predicate IsDigits(s: string, radix: nat) {
    forall i :: 0 <= i < |s| ==> DigitValue(s[i]).Some? && DigitValue(s[i]).value < radix
  }

  /** The value of a digit string, most significant digit first. */
  function DigitsValue(s: string, radix: nat): nat
    requires IsDigits(s, radix)
    decreases |s|
  {
    if s == [] then 0
    else DigitsValue(s[..|s| - 1], radix) * radix + DigitValue(s[|s| - 1]).value
  }

  function Pow10(k: nat): (p: real)
    ensures p >= 1.0
  {
    if k == 0 then 1.0 else 10.0 * Pow10(k - 1)
  }

  /** `m × 10^e`. */
  function Scale(m: real, e: int): real {
    if e >= 0 then m * Pow10(e) else m / Pow10(-e)
  }

  /** The index of the first character of `s` satisfying `p`, or `|s|` when there is none. */
  function Find(s: string, p: char -> bool): (i: nat)
    ensures i <= |s|
    ensures forall j :: 0 <= j < i ==> !p(s[j])
    ensures i < |s| ==> p(s[i])
    decreases |s|
  {
    if s == [] then 0
    else if p(s[0]) then 0
    else 1 + Find(s[1..], p)
  }

  /** The exponent of a decimal literal: an optional sign and at least one digit. */
  function Exponent(s: string): Option<int> {
    if s != [] && (s[0] == '+' || s[0] == '-') then
      var digits := s[1..];
      if digits != [] && IsDigits(digits, 10) then
        var magnitude: int := DigitsValue(digits, 10);
        Some(if s[0] == '-' then -magnitude else magnitude)
      else None
    else if s != [] && IsDigits(s, 10) then Some(DigitsValue(s, 10))
    else None
  }

  /** An unsigned decimal literal: `digits [. digits] [e exponent]` or `. digits [e exponent]`. */
  function UnsignedDecimal(t: string): Option<real> {
    var e := Find(t, c => c == 'e' || c == 'E');
    var mantissa := t[..e];
    var exponent := if e == |t| then Some(0) else Exponent(t[e + 1..]);
    var dot := Find(mantissa, c => c == '.');
    var whole := mantissa[..dot];
    var fraction := if dot == |mantissa| then "" else mantissa[dot + 1..];
    if exponent.Some? && IsDigits(whole, 10) && IsDigits(fraction, 10) && (whole != "" || fraction != "") then
      Some(Scale(DigitsValue(whole, 10) as real + DigitsValue(fraction, 10) as real / Pow10(|fraction|), exponent.value))
    else None
  }

  /** A `0x`, `0o` or `0b` literal, or None. */
  function NonDecimal(t: string): Option<nat> {
    if |t| > 2 && t[0] == '0' then
      var radix := if t[1] in "xX" then 16 else if t[1] in "oO" then 8 else if t[1] in "bB" then 2 else 0;
      if radix != 0 && IsDigits(t[2..], radix) then Some(DigitsValue(t[2..], radix)) else None
    else None
  }

  /** ECMAScript StringToNumber: white space around the literal is ignored and an empty text is 0. */
  function StringToNumber(s: string): Number {
    var t := Trim(s);
    if t == "" then Finite(0.0)
    else if NonDecimal(t).Some? then Finite(NonDecimal(t).value as real)
    else
      var negative := t[0] == '-';
      var body := if t[0] == '-' || t[0] == '+' then t[1..] else t;
      if body == "Infinity" then NonFinite
      else match UnsignedDecimal(body)
        case Some(v) => Finite(if negative then -v else v)
        case None => NonFinite
  }

  /**
   * `Number(v)` for a value of a parsed document, or for undefined (None).
   * An array converts through its `join(',')` text: an empty one is 0, one
   * element converts as the text of that element, and two or more never form a
   * numeric literal. A plain object's text is "[object Object]".
   */
  function ToNumber(v: Option<Json>): Number {
    match v
    case None => NonFinite
    case Some(j) => JsonToNumber(j)
  }

  function JsonToNumber(j: Json): Number
    decreases j, 0
  {
    match j
    case Null => Finite(0.0)
    case Bool(b) => Finite(if b then 1.0 else 0.0)
    case Num(n) => Finite(n)
    case Str(s) => StringToNumber(s)
    case Arr(elems) =>
      if |elems| == 0 then Finite(0.0)
      else if |elems| == 1 then ElementToNumber(elems[0])
      else NonFinite
    case Obj(_) => NonFinite
  }

  /** `Number(String([e]))`: null joins as the empty text, booleans as "true"/"false". */
  function ElementToNumber(e: Json): Number
    decreases e, 1
  {
    match e
    case Null => Finite(0.0)
    case Bool(_) => NonFinite
    case Num(n) => Finite(n)
    case Str(s) => StringToNumber(s)
    case Arr(_) => JsonToNumber(e)
    case Obj(_) => NonFinite
  }

  /** The decimal text of a natural number, without leading zeros. */
  function Decimal(n: nat): (s: string)
    ensures s != [] && IsDigits(s, 10)
    ensures '0' <= s[0] <= '9' && (n >= 10 ==> s[0] != '0')
  {
    if n < 10 then ["0123456789"[n]] else Decimal(n / 10) + ["0123456789"[n % 10]]
  }

  lemma {:induction false} DecimalValue(n: nat)
    ensures DigitsValue(Decimal(n), 10) == n
  {
    if n >= 10 {
      var q, r := n / 10, n % 10;
      DecimalValue(q);
      var s := Decimal(n);
      assert s == Decimal(q) + ["0123456789"[r]];
      assert s[..|s| - 1] == Decimal(q);
      DigitOf(r);
      assert DigitsValue(s, 10) == DigitsValue(Decimal(q), 10) * 10 + r;
    }
  }

  /** The digit character of `r` has the value `r`. */
  lemma DigitOf(r: nat)
    requires r < 10
    ensures DigitValue("0123456789"[r]) == Some(r)
  {
  }

  lemma {:induction false} FindAbsent(s: string, p: char -> bool)
    requires forall i :: 0 <= i < |s| ==> !p(s[i])
    ensures Find(s, p) == |s|
    decreases |s|
  {
    if s != [] {
      FindAbsent(s[1..], p);
    }
  }

  /** A plain digit string is an unsigned decimal literal with its digits' value. */
  lemma DigitsAreDecimal(t: string)
    requires t != [] && IsDigits(t, 10)
    ensures UnsignedDecimal(t) == Some(DigitsValue(t, 10) as real)
  {
    forall i | 0 <= i < |t|
      ensures '0' <= t[i] <= '9'
    {
      assert DigitValue(t[i]).value < 10;
    }
    FindAbsent(t, c => c == 'e' || c == 'E');
    FindAbsent(t, c => c == '.');
    assert t[..|t|] == t;
  }

  /** A text whose trim is a plain digit string, not a `0x`/`0o`/`0b` literal, converts to the digits' value. */
  lemma DigitTextToNumber(s: string)
    requires Trim(s) != [] && IsDigits(Trim(s), 10) && NonDecimal(Trim(s)).None?
    ensures StringToNumber(s) == Finite(DigitsValue(Trim(s), 10) as real)
  {
    var t := Trim(s);
    assert '0' <= t[0] <= '9' by {
      assert DigitValue(t[0]).value < 10;
    }
    UnsignedText(s);
    DigitsAreDecimal(t);
  }

  /** A trimmed text that starts with a digit and is not a `0x`/`0o`/`0b` literal converts as an unsigned decimal literal. */
  lemma UnsignedText(s: string)
    requires Trim(s) != [] && '0' <= Trim(s)[0] <= '9' && NonDecimal(Trim(s)).None?
    ensures UnsignedDecimal(Trim(s)).Some? ==> StringToNumber(s) == Finite(UnsignedDecimal(Trim(s)).value)
  {
    assert Trim(s) != "Infinity" by {
      assert "Infinity"[0] == 'I';
    }
  }

  /** An amount written as a text of decimal digits, with white space around it or not, counts as its value. */
  lemma DecimalTextIsItsValue(n: nat, pad: string)
    requires forall i :: 0 <= i < |pad| ==> IsSpace(pad[i])
    ensures StringToNumber(pad + Decimal(n) + pad) == Finite(n as real)
  {
    var t := Decimal(n);
    assert !IsSpace(t[0]) && !IsSpace(t[|t| - 1]) by {
      assert DigitValue(t[|t| - 1]).Some?;
    }
    TrimPadded(pad, t);
    DecimalValue(n);
    assert NonDecimal(t).None? by {
      assert |t| > 2 ==> n >= 10 && t[0] != '0';
    }
    DigitTextToNumber(pad + t + pad);
  }

  lemma TrimPadded(pad: string, t: string)
    requires forall i :: 0 <= i < |pad| ==> IsSpace(pad[i])
    requires t != [] && !IsSpace(t[0]) && !IsSpace(t[|t| - 1])
    ensures Trim(pad + t + pad) == t
  {
    var s := pad + t + pad;
    var start := TrimStart(s);
    assert forall i :: 0 <= i < |pad| ==> s[i] == pad[i];
    assert s[|pad|] == t[0];
    assert |start| > 0 && start[0] == s[|s| - |start|];
    assert |s| - |start| == |pad|;
    assert start == t + pad;
    var end := TrimEnd(start);
    assert forall i :: |t| <= i < |start| ==> start[i] == pad[i - |t|];
    assert start[|t| - 1] == t[|t| - 1];
    assert |end| > 0 && end[|end| - 1] == start[|end| - 1];
    assert |end| == |t|;
  }
}
