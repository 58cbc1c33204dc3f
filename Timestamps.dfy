// The timestamp validator of the events calendar (is_timestamp): a value is
// accepted when it is an int, or when it is a string that survives the round
// trip string -> (int) -> (string) unchanged.

module Timestamps {
  import opened Php

  /** is_timestamp: ints pass as they are; anything else must equal the decimal
      rendering of its own (int) cast. The two range comparisons of the source
      can never fail, because a PHP int always lies in that range. */
  function IsTimestamp(v: Value): (ok: bool)
    ensures v.Int? ==> ok
    ensures v.Bool? || v.Null? ==> !ok
    ensures v.Str? && ok ==> v.s != "" && v.s[0] != '+' && !IsSpace(v.s[0])
  {
    var check := if v.Int? then v else Str(Render(IntCast(v)));
    RenderShape(IntCast(v));
    check == v && IntCast(v) <= MaxInt64 && IntCast(v) >= MinInt64
  }

  /** Positive decimal numeral: digits only, no leading zero. */
  predicate PositiveNumeral(d: string) {
    |d| >= 1 && d[0] != '0' && AllDigits(d)
  }

  /** The canonical decimal numerals: "0", "n" and "-n" for a positive numeral n. */
  predicate CanonicalDecimal(s: string) {
    s == "0" || PositiveNumeral(s) || (|s| >= 2 && s[0] == '-' && PositiveNumeral(s[1..]))
  }

  function CanonicalValue(s: string): int
    requires CanonicalDecimal(s)
  {
    if s[0] == '-' then -(DigitsValue(s[1..]) as int) else DigitsValue(s)
  }

  /** A string passes is_timestamp exactly when it is a canonical decimal numeral
      whose value a 64-bit PHP int can hold. */
  lemma StringTimestampIff(s: string)
    ensures IsTimestamp(Str(s)) <==> CanonicalDecimal(s) && MinInt64 <= CanonicalValue(s) <= MaxInt64
  {
    var n := IntCast(Str(s));
    if IsTimestamp(Str(s)) {
      assert s == Render(n);
      RenderShape(n);
    }
    if CanonicalDecimal(s) && MinInt64 <= CanonicalValue(s) <= MaxInt64 {
      var v: Int64 := CanonicalValue(s);
      RenderOfValue(s);
      CastOfRender(v);
    }
  }

  /** A canonical numeral within range passes. */
  lemma AcceptsSample()
    ensures IsTimestamp(Str("1700000000"))
  {
    SampleDigitsValue();
    assert "1700000000"[0] == '1';
    StringTimestampIff("1700000000");
  }

  /** "0" passes. */
  lemma AcceptsZero()
    ensures IsTimestamp(Str("0"))
  {
    StringTimestampIff("0");
  }

  /** A numeral followed by garbage, and garbage alone, fail. */
  lemma RejectsGarbage()
    ensures !IsTimestamp(Str("12abc")) && !IsTimestamp(Str("abc"))
  {
    assert !IsTimestamp(Str("12abc")) by {
      assert !IsDigit("12abc"[2]);
      StringTimestampIff("12abc");
    }
    StringTimestampIff("abc");
  }

  /** Leading zeros and "-0" fail: they do not survive the round trip. */
  lemma RejectsNonCanonicalZeros()
    ensures !IsTimestamp(Str("007")) && !IsTimestamp(Str("-0"))
  {
    assert !IsTimestamp(Str("007")) by {
      StringTimestampIff("007");
    }
    StringTimestampIff("-0");
  }

  /** An explicit plus sign, leading whitespace and the empty string fail. */
  lemma RejectsSignsAndPadding()
    ensures !IsTimestamp(Str("+5")) && !IsTimestamp(Str(" 1")) && !IsTimestamp(Str(""))
  {
  }

  /** PHP_INT_MAX passes; the numeral one beyond it saturates on the cast and fails. */
  lemma RangeBoundaryExamples()
    ensures IsTimestamp(Str("9223372036854775807"))
    ensures !IsTimestamp(Str("9223372036854775808"))
  {
    assert IsTimestamp(Str("9223372036854775807")) by {
      IntMaxNumeral();
      StringTimestampIff("9223372036854775807");
    }
    assert !IsTimestamp(Str("9223372036854775808")) by {
      IntMaxDigitsValue();
      StringTimestampIff("9223372036854775808");
    }
  }

  // The value of the first 18 digits of PHP_INT_MAX, computed digit by digit.
  lemma IntMaxDigits5()
    ensures AllDigits("92233") && DigitsValue("92233") == 92233
  {
    assert "9" + ['2'] == "92";
    DigitsValueSnoc("9", '2');
    assert "92" + ['2'] == "922";
    DigitsValueSnoc("92", '2');
    assert "922" + ['3'] == "9223";
    DigitsValueSnoc("922", '3');
    assert "9223" + ['3'] == "92233";
    DigitsValueSnoc("9223", '3');
  }

  lemma IntMaxDigits9()
    ensures AllDigits("922337203") && DigitsValue("922337203") == 922337203
  {
    IntMaxDigits5();
    assert "92233" + ['7'] == "922337";
    DigitsValueSnoc("92233", '7');
    assert "922337" + ['2'] == "9223372";
    DigitsValueSnoc("922337", '2');
    assert "9223372" + ['0'] == "92233720";
    DigitsValueSnoc("9223372", '0');
    assert "92233720" + ['3'] == "922337203";
    DigitsValueSnoc("92233720", '3');
  }

  lemma IntMaxDigits13()
    ensures AllDigits("9223372036854") && DigitsValue("9223372036854") == 9223372036854
  {
    IntMaxDigits9();
    assert "922337203" + ['6'] == "9223372036";
    DigitsValueSnoc("922337203", '6');
    assert "9223372036" + ['8'] == "92233720368";
    DigitsValueSnoc("9223372036", '8');
    assert "92233720368" + ['5'] == "922337203685";
    DigitsValueSnoc("92233720368", '5');
    assert "922337203685" + ['4'] == "9223372036854";
    DigitsValueSnoc("922337203685", '4');
  }

  lemma IntMaxPrefixValue()
    ensures AllDigits("922337203685477580") && DigitsValue("922337203685477580") == 922337203685477580
  {
    IntMaxDigits13();
    assert "9223372036854" + ['7'] == "92233720368547";
    DigitsValueSnoc("9223372036854", '7');
    assert "92233720368547" + ['7'] == "922337203685477";
    DigitsValueSnoc("92233720368547", '7');
    assert "922337203685477" + ['5'] == "9223372036854775";
    DigitsValueSnoc("922337203685477", '5');
    assert "9223372036854775" + ['8'] == "92233720368547758";
    DigitsValueSnoc("9223372036854775", '8');
    assert "92233720368547758" + ['0'] == "922337203685477580";
    DigitsValueSnoc("92233720368547758", '0');
  }

  // The value of 1700000000, computed digit by digit.
  lemma SampleDigits4()
    ensures AllDigits("1700") && DigitsValue("1700") == 1700
  {
    assert "1" + ['7'] == "17";
    DigitsValueSnoc("1", '7');
    assert "17" + ['0'] == "170";
    DigitsValueSnoc("17", '0');
    assert "170" + ['0'] == "1700";
    DigitsValueSnoc("170", '0');
  }

  lemma SampleDigits7()
    ensures AllDigits("1700000") && DigitsValue("1700000") == 1700000
  {
    SampleDigits4();
    assert "1700" + ['0'] == "17000";
    DigitsValueSnoc("1700", '0');
    assert "17000" + ['0'] == "170000";
    DigitsValueSnoc("17000", '0');
    assert "170000" + ['0'] == "1700000";
    DigitsValueSnoc("170000", '0');
  }

  lemma SampleDigitsValue()
    ensures AllDigits("1700000000") && DigitsValue("1700000000") == 1700000000
  {
    SampleDigits7();
    assert "1700000" + ['0'] == "17000000";
    DigitsValueSnoc("1700000", '0');
    assert "17000000" + ['0'] == "170000000";
    DigitsValueSnoc("17000000", '0');
    assert "170000000" + ['0'] == "1700000000";
    DigitsValueSnoc("170000000", '0');
  }

  lemma IntMaxNumeral()
    ensures CanonicalDecimal("9223372036854775807")
    ensures CanonicalValue("9223372036854775807") == MaxInt64
  {
    IntMaxDigitsValue();
    assert "9223372036854775807"[0] == '9';
  }

  lemma IntMaxDigitsValue()
    ensures AllDigits("9223372036854775807") && DigitsValue("9223372036854775807") == MaxInt64
    ensures DigitsValue("9223372036854775808") == MaxInt64 + 1
  {
    IntMaxPrefixValue();
    assert "922337203685477580" + ['7'] == "9223372036854775807";
    DigitsValueSnoc("922337203685477580", '7');
    assert "922337203685477580" + ['8'] == "9223372036854775808";
    DigitsValueSnoc("922337203685477580", '8');
  }



  // ---- helper lemmas about the cast and the rendering ----

  lemma DigitsValueSnoc(d: string, c: char)
    requires AllDigits(d) && IsDigit(c)
    ensures AllDigits(d + [c]) && DigitsValue(d + [c]) == DigitsValue(d) * 10 + DigitValue(c)
  {
    assert (d + [c])[..|d|] == d;
  }

  lemma NatDigitsShape(n: nat)
    ensures AllDigits(NatDigits(n)) && |NatDigits(n)| >= 1
    ensures n == 0 ==> NatDigits(n) == "0"
    ensures n > 0 ==> PositiveNumeral(NatDigits(n))
    ensures DigitsValue(NatDigits(n)) == n
    decreases n
  {
    if n >= 10 {
      NatDigitsShape(n / 10);
      var d := NatDigits(n / 10);
      assert (d + [DigitChar(n % 10)])[..|d|] == d;
    }
  }

  /** Every rendered int is a canonical numeral denoting that int. */
  lemma RenderShape(n: int)
    ensures CanonicalDecimal(Render(n)) && CanonicalValue(Render(n)) == n
    ensures Render(n)[0] == '-' || IsDigit(Render(n)[0])
  {
    if n < 0 {
      NatDigitsShape(-n);
      assert Render(n)[1..] == NatDigits(-n);
    } else {
      NatDigitsShape(n);
    }
  }

  lemma {:induction false} PositiveValue(d: string)
    requires PositiveNumeral(d)
    ensures DigitsValue(d) >= 1
    decreases |d|
  {
    if |d| > 1 {
      PositiveValue(d[..|d| - 1]);
    }
  }

  lemma {:induction false} NatDigitsOfValue(d: string)
    requires PositiveNumeral(d)
    ensures NatDigits(DigitsValue(d)) == d
    decreases |d|
  {
    var v := DigitsValue(d);
    if |d| > 1 {
      var p := d[..|d| - 1];
      PositiveValue(p);
      NatDigitsOfValue(p);
      assert v / 10 == DigitsValue(p) && v % 10 == DigitValue(d[|d| - 1]);
      assert d == p + [d[|d| - 1]];
    }
  }

  /** Rendering the value of a canonical numeral gives the numeral back. */
  lemma RenderOfValue(s: string)
    requires CanonicalDecimal(s)
    ensures Render(CanonicalValue(s)) == s
  {
    if s == "0" {
    } else if s[0] == '-' {
      NatDigitsOfValue(s[1..]);
      PositiveValue(s[1..]);
      assert s == "-" + s[1..];
    } else {
      NatDigitsOfValue(s);
    }
  }

  lemma {:induction false} DigitPrefixOfDigits(d: string)
    requires AllDigits(d)
    ensures DigitPrefix(d) == d
    decreases |d|
  {
    if d != [] {
      DigitPrefixOfDigits(d[1..]);
      assert d == [d[0]] + d[1..];
    }
  }

  /** (int) of the rendering of an int is that int. */
  lemma CastOfRender(n: Int64)
    ensures IntCast(Str(Render(n))) == n
  {
    var r := Render(n);
    RenderShape(n);
    assert !IsSpace(r[0]);
    assert TrimLeft(r) == r;
    if n < 0 {
      var m: nat := -(n as int);
      NatDigitsShape(m);
      assert r[1..] == NatDigits(m);
      DigitPrefixOfDigits(r[1..]);
      assert DigitPrefix(r[1..]) == NatDigits(m);
      assert DigitsValue(DigitPrefix(r[1..])) == m;
      assert StringToInt(r) == Saturate(-(m as int));
    } else {
      NatDigitsShape(n);
      DigitPrefixOfDigits(r);
      assert r[0] != '-' && r[0] != '+';
      assert DigitsValue(DigitPrefix(r)) == n;
      assert StringToInt(r) == Saturate(n);
    }
  }
}
