/**
  Conversion of locale-formatted percentage text, such as "25,5%", to a number:
  every '%' is removed, every ',' becomes '.', and the result is read as a
  decimal. Python's `float` grammar is wider than the subset read here: an
  optional sign, digits, and at most one '.', with at least one digit overall.
 */
module PercentParsing {
  import opened Wrappers

  predicate IsDigit(c: char)
  {
    '0' <= c <= '9'
  }

  predicate AllDigits(s: string)
  {
    forall i :: 0 <= i < |s| ==> IsDigit(s[i])
  }

  function DigitValue(c: char): (d: nat)
    requires IsDigit(c)
    ensures d < 10
  {
    c as int - '0' as int
  }

  /** The value of a string of decimal digits, most significant first. */
  function DigitsValue(s: string): nat
    requires AllDigits(s)
  {
    if s == [] then 0 else DigitsValue(s[..|s| - 1]) * 10 + DigitValue(s[|s| - 1])
  }

  function Pow10(n: nat): (p: nat)
    ensures p >= 1
  {
    if n == 0 then 1 else 10 * Pow10(n - 1)
  }

  /** Position of the first `c` in `s`, or |s| when there is none. */
  function IndexOf(s: string, c: char): (k: nat)
    ensures k <= |s|
    ensures k < |s| ==> s[k] == c
    ensures forall j :: 0 <= j < k ==> s[j] != c
  {
    if s == [] then 0
    else if s[0] == c then 0
    else 1 + IndexOf(s[1..], c)
  }

  /** `s.replace(c, "")`. */
  function RemoveAll(s: string, c: char): (r: string)
    ensures forall x :: x in r <==> x in s && x != c
    ensures |r| <= |s|
  {
    if s == [] then []
    else (if s[0] == c then [] else [s[0]]) + RemoveAll(s[1..], c)
  }

  /** `s.replace(c, d)` for single characters. */
  function ReplaceAll(s: string, c: char, d: char): (r: string)
    ensures |r| == |s|
    ensures forall i :: 0 <= i < |s| ==> r[i] == (if s[i] == c then d else s[i])
    ensures forall x :: x in r ==> x == d || (x in s && x != c)
  {
    if s == [] then []
    else [if s[0] == c then d else s[0]] + ReplaceAll(s[1..], c, d)
  }

  /** The text `float` is applied to: '%' removed, then ',' replaced by '.'. */
  function Delocalize(s: string): (r: string)
    ensures forall x :: x in r ==> x == '.' || (x in s && x != '%' && x != ',')
  {
    ReplaceAll(RemoveAll(s, '%'), ',', '.')
  }

  /** The value of the digits after a decimal point: "25" stands for 0.25. */
  function FractionValue(digits: string): (v: real)
    requires AllDigits(digits)
    ensures 0.0 <= v
  {
    DigitsValue(digits) as real / Pow10(|digits|) as real
  }

  /** Digits, optionally one '.', and optionally more digits; at least one digit. */
  function ParseUnsigned(s: string): (r: Option<real>)
    ensures r.Some? ==> r.value >= 0.0
    ensures r.Some? ==> exists i :: 0 <= i < |s| && IsDigit(s[i])
  {
    var k := IndexOf(s, '.');
    var whole := s[..k];
    var fraction := if k < |s| then s[k + 1..] else [];
    if AllDigits(whole) && AllDigits(fraction) && |whole| + |fraction| > 0 then
      assert if |whole| > 0 then IsDigit(s[0]) else IsDigit(s[k + 1]);
      Some(DigitsValue(whole) as real + FractionValue(fraction))
    else None
  }

  /** A decimal number with an optional leading sign. */
  function ParseDecimal(s: string): (r: Option<real>)
    ensures r.Some? && (s == [] || s[0] != '-') ==> r.value >= 0.0
    ensures r.Some? ==> exists i :: 0 <= i < |s| && IsDigit(s[i])
  {
    if |s| > 0 && (s[0] == '+' || s[0] == '-') then
      match ParseUnsigned(s[1..])
      case Some(v) => Some(if s[0] == '-' then -v else v)
      case None => None
    else ParseUnsigned(s)
  }

  /** `float(s.replace("%", "").replace(",", "."))`, with None where `float` raises ValueError. */
  function ParsePercent(s: string): (r: Option<real>)
    ensures r.Some? ==> exists i :: 0 <= i < |s| && IsDigit(s[i])
  {
    var d := Delocalize(s);
    var r := ParseDecimal(d);
    assert r.Some? ==> exists i :: 0 <= i < |s| && IsDigit(s[i]) by {
      if r.Some? {
        var j :| 0 <= j < |d| && IsDigit(d[j]);
        assert d[j] in d;
      }
    }
    r
  }

  /** The decimal digits of `n`, without leading zeros. */
  function Show(n: nat): (s: string)
    ensures |s| > 0 && AllDigits(s)
  {
    if n < 10 then ['0' + n as char] else Show(n / 10) + ['0' + (n % 10) as char]
  }

  lemma {:induction false} ShowValue(n: nat)
    ensures DigitsValue(Show(n)) == n
  {
    if n >= 10 {
      ShowValue(n / 10);
      var s := Show(n);
      assert s[..|s| - 1] == Show(n / 10);
    }
  }

  lemma {:induction false} RemoveAllConcat(a: string, b: string, c: char)
    ensures RemoveAll(a + b, c) == RemoveAll(a, c) + RemoveAll(b, c)
  {
    if a != [] {
      assert (a + b)[1..] == a[1..] + b;
      RemoveAllConcat(a[1..], b, c);
    } else {
      assert a + b == b;
    }
  }

  lemma {:induction false} RemoveAllAbsent(s: string, c: char)
    requires c !in s
    ensures RemoveAll(s, c) == s
  {
    if s != [] {
      RemoveAllAbsent(s[1..], c);
      assert s == [s[0]] + s[1..];
    }
  }

  lemma {:induction false} IndexOfAbsent(s: string, c: char)
    requires c !in s
    ensures IndexOf(s, c) == |s|
  {
    if s != [] {
      IndexOfAbsent(s[1..], c);
    }
  }

  lemma {:induction false} IndexOfAfter(a: string, c: char, b: string)
    requires c !in a
    ensures IndexOf(a + [c] + b, c) == |a|
  {
    if a != [] {
      assert (a + [c] + b)[1..] == a[1..] + [c] + b;
      IndexOfAfter(a[1..], c, b);
    }
  }

  lemma UnsignedWhenDigitFirst(s: string)
    requires |s| > 0 && IsDigit(s[0])
    ensures ParseDecimal(s) == ParseUnsigned(s)
  {
  }

  lemma NoDotInDigits(s: string)
    requires AllDigits(s)
    ensures '.' !in s
  {
    forall j | 0 <= j < |s| ensures s[j] != '.' { assert IsDigit(s[j]); }
  }

  /** Reading "whole.fraction" where both parts are digits and the whole part is not empty. */
  lemma {:induction false} ReadDecimalDigits(whole: string, fraction: string)
    requires AllDigits(whole) && AllDigits(fraction) && |whole| > 0
    ensures ParseDecimal(whole + "." + fraction)
         == Some(DigitsValue(whole) as real + FractionValue(fraction))
  {
    var d := whole + "." + fraction;
    NoDotInDigits(whole);
    IndexOfAfter(whole, '.', fraction);
    var k := IndexOf(d, '.');
    assert k == |whole| < |d|;
    assert d[..k] == whole;
    assert d[k + 1..] == fraction;
    assert IsDigit(d[0]);
    assert ParseUnsigned(d)
        == Some(DigitsValue(whole) as real + FractionValue(fraction));
    UnsignedWhenDigitFirst(d);
  }

  /** Reading a non-empty run of digits. */
  lemma {:induction false} ReadWholeDigits(whole: string)
    requires AllDigits(whole) && |whole| > 0
    ensures ParseDecimal(whole) == Some(DigitsValue(whole) as real)
  {
    NoDotInDigits(whole);
    IndexOfAbsent(whole, '.');
    assert whole[..|whole|] == whole;
    var k := IndexOf(whole, '.');
    assert k == |whole|;
    assert DigitsValue([]) == 0;
    assert Pow10(0) == 1;
    assert ParseUnsigned(whole) == Some(DigitsValue(whole) as real);
    UnsignedWhenDigitFirst(whole);
  }

  lemma {:induction false} ReplaceAllConcat(a: string, b: string, c: char, d: char)
    ensures ReplaceAll(a + b, c, d) == ReplaceAll(a, c, d) + ReplaceAll(b, c, d)
  {
    if a != [] {
      assert (a + b)[1..] == a[1..] + b;
      ReplaceAllConcat(a[1..], b, c, d);
    } else {
      assert a + b == b;
    }
  }

  lemma DigitsHaveNoMarks(s: string)
    requires AllDigits(s)
    ensures '%' !in s && ',' !in s && '.' !in s
  {
    forall j | 0 <= j < |s| ensures s[j] != '%' && s[j] != ',' && s[j] != '.' { assert IsDigit(s[j]); }
  }

  lemma ReplaceAllAbsent(s: string, c: char, d: char)
    requires c !in s
    ensures ReplaceAll(s, c, d) == s
  {
  }

  /** A run of digits, with or without a trailing percent sign, delocalizes to the digits. */
  lemma {:induction false} DelocalizeDigits(s: string)
    requires AllDigits(s)
    ensures Delocalize(s) == s && Delocalize(s + "%") == s
  {
    DigitsHaveNoMarks(s);
    RemoveAllAbsent(s, '%');
    RemoveAllConcat(s, "%", '%');
    assert RemoveAll("%", '%') == [];
    assert s + [] == s;
    ReplaceAllAbsent(s, ',', '.');
  }

  /** A text free of marks, a comma, digits and an optional percent sign delocalize with a dot for the comma. */
  lemma {:induction false} DelocalizeComma(whole: string, decimals: string, tail: string)
    requires '%' !in whole && ',' !in whole && AllDigits(decimals)
    requires tail == "" || tail == "%"
    ensures Delocalize(whole + "," + decimals + tail) == whole + "." + decimals
  {
    DigitsHaveNoMarks(decimals);
    RemoveAllConcat(whole + ",", decimals, '%');
    RemoveAllConcat(whole, ",", '%');
    RemoveAllConcat(whole + "," + decimals, tail, '%');
    RemoveAllAbsent(whole, '%');
    RemoveAllAbsent(decimals, '%');
    assert RemoveAll(",", '%') == ",";
    assert RemoveAll(tail, '%') == [];
    assert RemoveAll(whole + "," + decimals + tail, '%') == whole + "," + decimals;
    ReplaceAllConcat(whole + ",", decimals, ',', '.');
    ReplaceAllConcat(whole, ",", ',', '.');
    ReplaceAllAbsent(whole, ',', '.');
    ReplaceAllAbsent(decimals, ',', '.');
    assert ReplaceAll(",", ',', '.') == ".";
  }

  /** Digits, a comma, digits and an optional percent sign read as the decimal number they spell. */
  lemma {:induction false} DecimalCommaRead(whole: string, decimals: string, tail: string)
    requires AllDigits(whole) && |whole| > 0 && AllDigits(decimals)
    requires tail == "" || tail == "%"
    ensures ParsePercent(whole + "," + decimals + tail)
         == Some(DigitsValue(whole) as real + FractionValue(decimals))
  {
    DigitsHaveNoMarks(whole);
    DelocalizeComma(whole, decimals, tail);
    ReadDecimalDigits(whole, decimals);
  }

  /**
    Any whole number written in decimal, a comma, a run of decimals and an
    optional percent sign is read as the number it denotes.
   */
  lemma LocaleRoundTrip(n: nat, decimals: string, percent: bool)
    requires AllDigits(decimals)
    ensures ParsePercent(Show(n) + "," + decimals + (if percent then "%" else ""))
         == Some(n as real + FractionValue(decimals))
  {
    DecimalCommaRead(Show(n), decimals, if percent then "%" else "");
    ShowValue(n);
  }

  /** Digits with or without a trailing percent sign read as the whole number they spell. */
  lemma {:induction false} DigitsRead(whole: string, tail: string)
    requires AllDigits(whole) && |whole| > 0
    requires tail == "" || tail == "%"
    ensures ParsePercent(whole + tail) == Some(DigitsValue(whole) as real)
  {
    DelocalizeDigits(whole);
    assert whole + "" == whole;
    ReadWholeDigits(whole);
  }

  /** Whole numbers written in decimal, with or without a percent sign, read back exactly. */
  lemma WholeRoundTrip(n: nat, percent: bool)
    ensures ParsePercent(Show(n) + (if percent then "%" else "")) == Some(n as real)
  {
    DigitsRead(Show(n), if percent then "%" else "");
    ShowValue(n);
  }

  /** The pieces of "25,5%": the digits "25" and "5" and what they stand for. */
  lemma CommaDecimalPieces()
    ensures AllDigits("25") && DigitsValue("25") == 25
    ensures AllDigits("5") && FractionValue("5") == 0.5
    ensures "25" + "," + "5" + "%" == "25,5%"
  {
    assert DigitsValue("2") == 2 by { assert "2"[..0] == []; }
    assert "25"[..1] == "2";
    assert DigitsValue("5") == 5 by { assert "5"[..0] == []; }
    assert Pow10(1) == 10;
  }

  /** "25,5%" is read as 25.5. */
  lemma CommaDecimalExample()
    ensures ParsePercent("25,5%") == Some(25.5)
  {
    CommaDecimalPieces();
    DecimalCommaRead("25", "5", "%");
  }

  /** A second '.' after the decimal point makes the text unreadable. */
  lemma {:induction false} SecondDotUnreadable(whole: string, fraction: string)
    requires '.' !in whole && '.' in fraction
    ensures ParseUnsigned(whole + "." + fraction) == None
  {
    IndexOfAfter(whole, '.', fraction);
    var d := whole + "." + fraction;
    assert d[|whole| + 1..] == fraction;
    var j :| 0 <= j < |fraction| && fraction[j] == '.';
    assert !IsDigit(fraction[j]);
  }

  /**
    A thousands separator together with a decimal comma makes the text
    unreadable: the separator '.' and the comma turned '.' are two points.
   */
  lemma {:induction false} ThousandsSeparatorUnreadable(whole: string, group: string, decimals: string)
    requires AllDigits(whole) && |whole| > 0 && AllDigits(group) && AllDigits(decimals)
    ensures Delocalize(whole + "." + group + "," + decimals) == whole + "." + group + "." + decimals
    ensures ParsePercent(whole + "." + group + "," + decimals) == None
  {
    DigitsHaveNoMarks(whole);
    DigitsHaveNoMarks(group);
    var grouped := whole + "." + group;
    DelocalizeComma(grouped, decimals, "");
    assert grouped + "," + decimals + "" == grouped + "," + decimals;
    var d := grouped + "." + decimals;
    var rest := group + "." + decimals;
    assert d == whole + "." + rest;
    assert rest[|group|] == '.';
    SecondDotUnreadable(whole, rest);
    assert IsDigit(d[0]);
    UnsignedWhenDigitFirst(d);
  }

  /** The pieces of "1.234,5": three runs of digits around a '.' and a ','. */
  lemma ThousandsSeparatorPieces()
    ensures AllDigits("1") && AllDigits("234") && AllDigits("5")
    ensures "1" + "." + "234" + "," + "5" == "1.234,5"
    ensures "1" + "." + "234" + "." + "5" == "1.234.5"
  {
  }

  /** "1.234,5" becomes "1.234.5", which is not a number. */
  lemma ThousandsSeparatorExample()
    ensures Delocalize("1.234,5") == "1.234.5"
    ensures ParsePercent("1.234,5") == None
  {
    ThousandsSeparatorPieces();
    ThousandsSeparatorUnreadable("1", "234", "5");
  }

  /** A text without a minus sign never reads as a negative number. */
  lemma NoMinusNonNegative(s: string)
    requires '-' !in s
    ensures ParsePercent(s).Some? ==> ParsePercent(s).value >= 0.0
  {
    var d := Delocalize(s);
    if |d| > 0 {
      assert d[0] in d;
    }
  }
}
