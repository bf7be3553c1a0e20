/** PHP 7's loose `==` as used by the processor's settings tests
    (`$this->getSetting('account_type') == '1'`): two strings compare as
    numbers when both are numeric strings, and byte for byte otherwise; `null`
    compared with a string equals only the empty string. */
module PhpCompare {
  import opened Wrappers
  import opened PhpRuntime

  /** A numeric string's value: (-1)^negative * digits * 10^exponent. */
  datatype Decimal = Decimal(negative: bool, digits: nat, exponent: int)

  /** Whitespace a numeric string may start with: " \t\n\r\v\f". */
  predicate IsNumericWhitespace(c: char)
  {
    c == ' ' || c == '\t' || c == '\n' || c == '\r' || c == '\U{B}' || c == '\U{C}'
  }

  function Pow10(n: nat): (r: nat)
    ensures r >= 1
    ensures n > 0 ==> r >= 10
  {
    if n == 0 then 1 else 10 * Pow10(n - 1)
  }

  /** The end of the run of digits that starts at `i`. */
  function DigitEnd(s: string, i: nat): (k: nat)
    requires i <= |s|
    ensures i <= k <= |s|
    ensures forall j :: i <= j < k ==> IsDigit(s[j])
    ensures k == |s| || !IsDigit(s[k])
    decreases |s| - i
  {
    if i < |s| && IsDigit(s[i]) then DigitEnd(s, i + 1) else i
  }

  /** The end of the run of numeric whitespace that starts at `i`. */
  function WhitespaceEnd(s: string, i: nat): (k: nat)
    requires i <= |s|
    ensures i <= k <= |s|
    ensures forall j :: i <= j < k ==> IsNumericWhitespace(s[j])
    ensures k == |s| || !IsNumericWhitespace(s[k])
    decreases |s| - i
  {
    if i < |s| && IsNumericWhitespace(s[i]) then WhitespaceEnd(s, i + 1) else i
  }

  /** The value of a string of decimal digits. */
  function DigitsValue(s: string): nat
    requires forall i :: 0 <= i < |s| ==> IsDigit(s[i])
  {
    if s == [] then 0
    else
      assert IsDigit(s[|s| - 1]);
      10 * DigitsValue(s[..|s| - 1]) + (s[|s| - 1] as int - '0' as int)
  }

  /** PHP 7's numeric-string test with its value: leading whitespace, an
      optional sign, digits with an optional decimal point (at least one
      digit in all), an optional exponent `e`/`E` with optional sign and at
      least one digit, and nothing after. */
  function ParseNumeric(s: string): Option<Decimal>
  {
    var i := WhitespaceEnd(s, 0);
    var negative := i < |s| && s[i] == '-';
    var j := if i < |s| && (s[i] == '-' || s[i] == '+') then i + 1 else i;
    var k := DigitEnd(s, j);
    var dot := k < |s| && s[k] == '.';
    var f := if dot then k + 1 else k;
    var m := DigitEnd(s, f);
    if j == k && f == m then None
    else
      var digits := DigitsValue(s[j..k] + s[f..m]);
      var scale := -(m - f);
      if m == |s| then Some(Decimal(negative, digits, scale))
      else if s[m] == 'e' || s[m] == 'E' then
        var signed := m + 1 < |s| && (s[m + 1] == '-' || s[m + 1] == '+');
        var e := if signed then m + 2 else m + 1;
        var q := DigitEnd(s, e);
        if q == e || q != |s| then None
        else
          var power := DigitsValue(s[e..q]);
          Some(Decimal(negative, digits, if signed && s[m + 1] == '-' then scale - power else scale + power))
      else None
  }

  /** `digits * 10^(exponent - low)`, the value of `d` in units of `10^low`. */
  function Scaled(d: Decimal, low: int): nat
    requires low <= d.exponent
  {
    d.digits * Pow10(d.exponent - low)
  }

  /** Two numeric values are equal: both zero (whatever their signs), or of
      one sign and the same magnitude. */
  predicate SameValue(x: Decimal, y: Decimal)
  {
    if x.digits == 0 || y.digits == 0 then x.digits == 0 && y.digits == 0
    else
      var low := if x.exponent <= y.exponent then x.exponent else y.exponent;
      x.negative == y.negative && Scaled(x, low) == Scaled(y, low)
  }

  /** `$a == $b` for two strings. */
  predicate LooseEquals(a: string, b: string)
  {
    match (ParseNumeric(a), ParseNumeric(b))
    case (Some(x), Some(y)) => SameValue(x, y)
    case _ => a == b
  }

  /** `$a == $b` for a string or `null` on the left and a string on the right. */
  predicate LooseEqualsNullable(a: Option<string>, b: string)
  {
    match a
    case None => b == ""
    case Some(v) => LooseEquals(v, b)
  }

  /** A value equal to one: positive, and its digits are exactly 10^-exponent. */
  predicate DenotesOne(d: Decimal)
  {
    !d.negative && d.exponent <= 0 && d.digits == Pow10(-d.exponent)
  }

  lemma ParseOne()
    ensures ParseNumeric("1") == Some(Decimal(false, 1, 0))
  {
    var s := "1";
    assert WhitespaceEnd(s, 0) == 0;
    assert DigitEnd(s, 1) == 1;
    assert DigitEnd(s, 0) == 1;
    assert s[0..1] + s[1..1] == "1";
  }

  /** A string is loosely equal to "1" exactly when it is a numeric string
      whose value is one. */
  lemma LooseEqualsOne(s: string)
    ensures LooseEquals(s, "1") <==> ParseNumeric(s).Some? && DenotesOne(ParseNumeric(s).value)
  {
    ParseOne();
    var one := Decimal(false, 1, 0);
    match ParseNumeric(s)
    case None =>
      assert s != "1";
    case Some(x) =>
      if x.digits != 0 && x.exponent > 0 {
        assert Scaled(x, 0) >= 10;
      }
  }

  /** `null == '1'` is false; a string is `== '1'` when its numeric value is one. */
  lemma LooseEqualsNullableOne(v: Option<string>)
    ensures LooseEqualsNullable(v, "1") <==>
              v.Some? && ParseNumeric(v.value).Some? && DenotesOne(ParseNumeric(v.value).value)
  {
    if v.Some? {
      LooseEqualsOne(v.value);
    }
  }

  /** Leading zeros and a fraction do not change a numeric string's value. */
  lemma ZeroPaddedEqualsOne()
    ensures LooseEquals("01", "1")
    ensures LooseEquals("1.0", "1")
  {
    ParseOne();
    assert ParseNumeric("01") == Some(Decimal(false, 1, 0)) by {
      var t := "01";
      assert DigitEnd(t, 2) == 2 && DigitEnd(t, 1) == 2 && DigitEnd(t, 0) == 2;
      assert t[0..2] + t[2..2] == t;
      assert DigitsValue(t[..1]) == 0;
    }
    assert ParseNumeric("1.0") == Some(Decimal(false, 10, -1)) by {
      var t := "1.0";
      assert DigitEnd(t, 1) == 1 && DigitEnd(t, 0) == 1;
      assert DigitEnd(t, 3) == 3 && DigitEnd(t, 2) == 3;
      assert t[0..1] + t[2..3] == "10";
      assert DigitsValue("10"[..1]) == 1;
    }
  }

  /** Leading whitespace and a plus sign are allowed before the digits. */
  lemma SignedEqualsOne()
    ensures LooseEquals(" 1", "1")
    ensures LooseEquals("+1", "1")
  {
    ParseOne();
    assert ParseNumeric(" 1") == Some(Decimal(false, 1, 0));
    assert ParseNumeric("+1") == Some(Decimal(false, 1, 0));
  }

  /** An exponent scales the digits. */
  lemma ExponentEqualsOne()
    ensures LooseEquals("1e0", "1")
    ensures LooseEquals("10e-1", "1")
  {
    ParseOne();
    assert ParseNumeric("1e0") == Some(Decimal(false, 1, 0));
    assert ParseNumeric("10e-1") == Some(Decimal(false, 10, -1)) by {
      var t := "10e-1";
      assert DigitEnd(t, 2) == 2 && DigitEnd(t, 1) == 2 && DigitEnd(t, 0) == 2;
      assert DigitEnd(t, 5) == 5 && DigitEnd(t, 4) == 5;
      assert t[0..2] + t[2..2] == "10";
      assert DigitsValue("10"[..1]) == 1;
      assert t[4..5] == "1";
    }
  }

  /** Trailing whitespace or trailing text make a string non-numeric, so it
      is compared byte for byte and is not `== '1'`. */
  lemma TrailingTextNotEqualsOne()
    ensures !LooseEquals("1 ", "1")
    ensures !LooseEquals("1abc", "1")
    ensures !LooseEquals("1e", "1")
  {
    ParseOne();
    assert ParseNumeric("1 ") == None;
    assert ParseNumeric("1abc") == None;
    assert ParseNumeric("1e") == None;
  }

  /** The empty string is not numeric, and "-1" is a different value. */
  lemma EmptyAndNegativeNotEqualsOne()
    ensures !LooseEquals("", "1")
    ensures !LooseEquals("-1", "1")
  {
    ParseOne();
    assert ParseNumeric("") == None;
    assert ParseNumeric("-1") == Some(Decimal(true, 1, 0));
  }
}
