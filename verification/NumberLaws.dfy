/** What the texts of numbers mean, digit by digit, and when a number is printed with an exponent. */
module NumberLaws {
  import opened Prelude
  import opened Strings
  import opened Numbers

  // ----- Reading -----

  /** The text is read as a number of the amount `x`. */
  ghost predicate Reads(s: string, x: real) {
    ParseFloat(s).Some? && Amount(ParseFloat(s).value) == x
  }

  function Digit(c: char): real
    requires IsDigit(c)
  {
    (c as int - '0' as int) as real
  }

  lemma AmountOfDigits(negative: bool, ds: string, e: int)
    requires AllDigits(ds)
    ensures Amount(FromDigits(negative, ds, e)) == if negative then 0.0 - Worth(DigitsValue(ds), e) else Worth(DigitsValue(ds), e)
  {
    hide Pow10, DigitsValue, Normal, Amount;
    NormalWorth(if negative then 0 - DigitsValue(ds) else DigitsValue(ds), e);
    var p := Pow10(e);
    assert (0 - DigitsValue(ds)) as real * p == 0.0 - DigitsValue(ds) as real * p;
  }

  lemma FloatOf(s: string, a: string, b: string, tail: string, x: int)
    requires s != "" && IsDigit(s[0]) && AllDigits(a) && AllDigits(b) && a != "" && AllDigits(a + b)
    requires DigitRun(s) == a && ParseFraction(s[|a|..]) == Read(b, tail) && ParseExponent(tail) == Read(x, "")
    ensures ParseFloat(s) == Some(FromDigits(false, a + b, x - |b|))
  {
    hide FromDigits, DigitRun, ParseFraction, ParseExponent, AllDigits;
  }

  lemma NoExponent()
    ensures ParseExponent("") == Read(0, "")
  {
  }

  /** A text of digits, a point and digits, without a sign or an exponent. */
  lemma PointRead(a: string, b: string)
    requires AllDigits(a) && AllDigits(b) && a != ""
    ensures ParseFloat(a + "." + b).Some?
    ensures AllDigits(a + b) && Amount(ParseFloat(a + "." + b).value) == Worth(DigitsValue(a + b), 0 - |b|)
  {
    hide *;
    var s := a + "." + b;
    DigitsJoin(a, b);
    PointParts(a, b);
    FractionRead(b);
    NoExponent();
    FloatOf(s, a, b, "", 0);
    AmountOfDigits(false, a + b, 0 - |b|);
  }

  lemma PointParts(a: string, b: string)
    requires AllDigits(a) && a != ""
    ensures var s := a + "." + b; s != "" && IsDigit(s[0]) && DigitRun(s) == a && s[|a|..] == "." + b
  {
    var s := a + "." + b;
    assert s[0] == a[0];
    assert s == a + ("." + b);
    RunOf(a, "." + b);
    hide DigitRun, AllDigits;
  }

  lemma FractionRead(b: string)
    requires AllDigits(b)
    ensures ParseFraction("." + b) == Read(b, "")
  {
    assert b + "" == b;
    RunOf(b, "");
    assert ("." + b)[1..] == b;
    hide DigitRun, AllDigits;
  }

  lemma WholeRead(a: string)
    requires AllDigits(a) && a != ""
    ensures ParseFloat(a).Some? && Amount(ParseFloat(a).value) == Worth(DigitsValue(a), 0)
  {
    assert a + "" == a;
    RunOf(a, "");
    assert a[|a|..] == "";
    assert IsDigit(a[0]);
    hide FromDigits, DigitsValue, Worth, Amount, ParseFloat, ParseExponent, DigitRun;
    assert ParseFraction("") == Read("", "");
    NoExponent();
    FloatOf(a, a, "", "", 0);
    AmountOfDigits(false, a, 0);
  }

  /** A digit means itself, and each further digit ten times what stands before it plus itself. */
  lemma DigitsRead(a: string, c: char)
    requires AllDigits(a) && IsDigit(c)
    ensures Reads([c], Digit(c))
    ensures a != "" ==> forall x :: Reads(a, x) ==> Reads(a + [c], 10.0 * x + Digit(c))
  {
    hide ParseFloat, Amount;
    WholeRead([c]);
    assert [c][..0] == "" && DigitsValue([c]) == c as int - '0' as int;
    if a != "" {
      WholeRead(a);
      WholeRead(a + [c]);
      assert (a + [c])[..|a|] == a;
    }
  }

  /** What a digit counts at the place number `k` behind the point. */
  function Place(c: char, k: nat): real
    requires IsDigit(c)
  {
    Digit(c) * Pow10(0 - k)
  }

  lemma OneDeeper(v: nat, c: char, k: nat)
    requires IsDigit(c)
    ensures Worth(10 * v + (c as int - '0' as int), 0 - (k + 1)) == Worth(v, 0 - k) + Place(c, k + 1)
  {
    hide Pow10;
    TenUp(v, 0 - (k + 1));
    SumWorth(10 * v, c as int - '0' as int, 0 - (k + 1));
  }

  /** A point adds nothing. */
  lemma PointAdds(a: string)
    requires AllDigits(a) && a != ""
    ensures forall x :: Reads(a, x) ==> Reads(a + ".", x)
  {
    hide ParseFloat, Amount, Worth;
    WholeRead(a);
    PointRead(a, "");
    assert a + "." + "" == a + "." && a + "" == a;
  }

  /** Behind the point each digit counts a tenth of the place before it. */
  lemma PlacesRead(a: string, b: string, c: char)
    requires AllDigits(a) && AllDigits(b) && a != "" && IsDigit(c)
    ensures forall x :: Reads(a + "." + b, x) ==> Reads(a + "." + b + [c], x + Place(c, |b| + 1))
  {
    hide ParseFloat, Amount, Worth, Pow10, Place;
    var text := a + "." + b;
    PlaceAdds(a, b, c);
    PointRead(a, b);
    forall x | Reads(text, x) ensures Reads(text + [c], x + Place(c, |b| + 1)) {
      assert Amount(ParseFloat(text).value) == x;
    }
  }

  lemma PlaceAdds(a: string, b: string, c: char)
    requires AllDigits(a) && AllDigits(b) && a != "" && IsDigit(c)
    ensures AllDigits(a + b) && Reads(a + "." + b, Worth(DigitsValue(a + b), 0 - |b|))
    ensures Reads(a + "." + b + [c], Worth(DigitsValue(a + b), 0 - |b|) + Place(c, |b| + 1))
  {
    hide *;
    DigitsJoin(a, b);
    OneDigit(c);
    DigitsJoin(b, [c]);
    WorthNext(a, b, c);
    ReadsPoint(a, b);
    ReadsPoint(a, b + [c]);
    assert a + "." + (b + [c]) == a + "." + b + [c];
  }

  lemma OneDigit(c: char)
    requires IsDigit(c)
    ensures AllDigits([c])
  {
  }

  lemma ReadsPoint(a: string, b: string)
    requires AllDigits(a) && AllDigits(b) && a != ""
    ensures AllDigits(a + b) && Reads(a + "." + b, Worth(DigitsValue(a + b), 0 - |b|))
  {
    hide ParseFloat, Amount, Worth, Pow10, DigitsValue, AllDigits;
    PointRead(a, b);
  }

  lemma WorthNext(a: string, b: string, c: char)
    requires AllDigits(a + b) && IsDigit(c)
    ensures AllDigits(a + (b + [c]))
    ensures Worth(DigitsValue(a + (b + [c])), 0 - |b + [c]|) == Worth(DigitsValue(a + b), 0 - |b|) + Place(c, |b| + 1)
  {
    hide *;
    NextDigit(a + b, c);
    assert a + (b + [c]) == a + b + [c];
    var v, v' := DigitsValue(a + b), DigitsValue(a + (b + [c]));
    assert v' == 10 * v + (c as int - '0' as int);
    var k := |b|;
    assert |b + [c]| == k + 1;
    OneDeeper(v, c, k);
  }

  /** A minus sign negates. */
  lemma SignRead(s: string)
    requires s != "" && IsDigit(s[0])
    ensures forall x :: Reads(s, x) ==> Reads("-" + s, 0.0 - x) && Reads("+" + s, x)
  {
    hide FromDigits, Amount, ParseExponent, ParseFraction, DigitRun;
    assert ("-" + s)[1..] == s && ("+" + s)[1..] == s;
    var a := DigitRun(s);
    var fraction := ParseFraction(s[|a|..]);
    var x := ParseExponent(fraction.rest);
    DigitsJoin(a, fraction.value);
    if x.Read? {
      AmountOfDigits(true, a + fraction.value, x.value - |fraction.value|);
      AmountOfDigits(false, a + fraction.value, x.value - |fraction.value|);
    }
  }

  /** An exponent moves the point: `e` with digits, a sign between them or none. */
  lemma ExponentRead(a: string, ds: string)
    requires AllDigits(a) && AllDigits(ds) && a != "" && ds != ""
    ensures Reads(a, Worth(DigitsValue(a), 0)) && Reads(ds, Worth(DigitsValue(ds), 0))
    ensures Reads(a + ("e" + ds), Worth(DigitsValue(a), DigitsValue(ds)))
    ensures Reads(a + ("e+" + ds), Worth(DigitsValue(a), DigitsValue(ds)))
    ensures Reads(a + ("e-" + ds), Worth(DigitsValue(a), 0 - DigitsValue(ds)))
  {
    hide *;
    WholeReads(a);
    WholeReads(ds);
    BareExponent(ds);
    assert ds + "" == ds;
    NothingEnds();
    SignedBack("+", ds, "");
    SignedBack("-", ds, "");
    assert "e" + "+" + (ds + "") == "e+" + ds && "e" + "-" + (ds + "") == "e-" + ds;
    PoweredRead(a, "e" + ds, DigitsValue(ds));
    PoweredRead(a, "e+" + ds, DigitsValue(ds));
    PoweredRead(a, "e-" + ds, 0 - DigitsValue(ds));
  }

  lemma WholeReads(a: string)
    requires AllDigits(a) && a != ""
    ensures Reads(a, Worth(DigitsValue(a), 0))
  {
    hide ParseFloat, Amount, Worth, DigitsValue, AllDigits;
    WholeRead(a);
  }

  lemma NothingEnds()
    ensures Ends("")
  {
  }

  lemma BareExponent(ds: string)
    requires AllDigits(ds) && ds != ""
    ensures ParseExponent("e" + ds) == Read(DigitsValue(ds), "")
  {
    var t := "e" + ds;
    assert IsDigit(ds[0]) && t[1] == ds[0] && t[1..] == ds && ds + "" == ds;
    RunOf(ds, "");
    hide DigitRun, DigitsValue, AllDigits;
    assert ds[|ds|..] == "";
  }

  lemma PoweredRead(a: string, tail: string, x: int)
    requires AllDigits(a) && a != "" && tail != "" && tail[0] == 'e' && ParseExponent(tail) == Read(x, "")
    ensures Reads(a + tail, Worth(DigitsValue(a), x))
  {
    var s := a + tail;
    TailParts(a, tail);
    hide *;
    FloatOf(s, a, "", tail, x);
    assert a + "" == a;
    AmountOfDigits(false, a, x);
    ReadsAmount(s, FromDigits(false, a, x), Worth(DigitsValue(a), x));
  }

  lemma ReadsAmount(s: string, n: Number, x: real)
    requires ParseFloat(s) == Some(n) && Amount(n) == x
    ensures Reads(s, x)
  {
  }

  lemma TailParts(a: string, tail: string)
    requires AllDigits(a) && a != "" && tail != "" && tail[0] == 'e'
    ensures var s := a + tail;
            && s != "" && IsDigit(s[0]) && DigitRun(s) == a && ParseFraction(s[|a|..]) == Read("", tail)
            && AllDigits("") && AllDigits(a + "")
  {
    var s := a + tail;
    assert s[0] == a[0] && IsDigit(a[0]);
    RunOf(a, tail);
    assert s[|a|..] == tail;
    assert a + "" == a;
    hide DigitRun;
  }

  // ----- Exponents -----

  lemma {:induction false} ShiftOne(k: nat)
    ensures Shift(1, k) >= 1 && Shift(1, k) as real == Pow10(k)
  {
    if k > 0 {
      ShiftOne(k - 1);
    }
  }

  lemma {:induction false} DecimalSize(n: nat)
    requires n > 0
    ensures |Decimal(n)| > 0 && Shift(1, |Decimal(n)| - 1) <= n < Shift(1, |Decimal(n)|)
  {
    if n >= 10 {
      DecimalSize(n / 10);
    } else {
      assert Shift(1, 1) == 10 * Shift(1, 0) == 10;
    }
  }

  lemma PowerUp(e: int)
    ensures Pow10(e + 1) == 10.0 * Pow10(e)
  {
  }

  function Product(p: real, q: real): real {
    p * q
  }

  lemma {:induction false} PowersAdd(k: nat, e: int)
    ensures Product(Pow10(k), Pow10(e)) == Pow10(k + e)
    decreases k
  {
    if k == 0 {
      assert Pow10(0) == 1.0;
    } else {
      hide Pow10, Product;
      PowersAdd(k - 1, e + 1);
      assert k - 1 + (e + 1) == k + e;
      PowerUp(k - 1);
      PowerUp(e);
      TenAcross(Pow10(k - 1), Pow10(e), Pow10(k), Pow10(e + 1));
    }
  }

  lemma TenAcross(p: real, q: real, p': real, q': real)
    requires p' == 10.0 * p && q' == 10.0 * q
    ensures Product(p', q) == Product(p, q')
  {
  }

  lemma {:induction false} PowersGrow(a: int, b: int)
    requires a <= b
    ensures Pow10(a) <= Pow10(b)
    decreases b - a
  {
    if a < b {
      PowersGrow(a + 1, b);
      PowerUp(a);
    }
  }

  function Size(x: real): real {
    if x < 0.0 then 0.0 - x else x
  }

  /** The amount lies between two powers of ten, given by the digits and the exponent. */
  lemma AmountSize(n: Number)
    requires n.m != 0
    ensures var d := |Decimal(Abs(n.m))| + n.e; Pow10(d - 1) <= Size(Amount(n)) < Pow10(d)
  {
    var l := |Decimal(Abs(n.m))|;
    DecimalSize(Abs(n.m));
    hide Decimal, Pow10, Shift, Worth;
    ShiftOne(l - 1);
    ShiftOne(l);
    assert Size(n.m as real) == Abs(n.m) as real;
    WorthSize(n.m, l, n.e);
    assert l - 1 + n.e == l + n.e - 1;
  }

  lemma WorthSize(m: int, l: nat, e: int)
    requires l > 0 && Pow10(l - 1) <= Size(m as real) < Pow10(l)
    ensures Pow10(l - 1 + e) <= Size(Worth(m, e)) < Pow10(l + e)
  {
    hide Pow10, Size;
    var r, p := m as real, Pow10(e);
    PowersAdd(l - 1, e);
    PowersAdd(l, e);
    Between(Pow10(l - 1), Size(r), Pow10(l), p);
    SizeTimes(r, p);
    assert Size(Worth(m, e)) == Size(r) * p by {
      assert Worth(m, e) == r * p;
    }
  }

  lemma Between(a: real, x: real, b: real, p: real)
    requires a <= x < b && p > 0.0
    ensures a * p <= x * p < b * p
  {
  }

  lemma SizeTimes(r: real, p: real)
    requires p > 0.0
    ensures Size(r * p) == Size(r) * p
  {
    if r < 0.0 {
      var q := 0.0 - r;
      NotNegative(q, p);
      Negated(r, p);
      SameFactor(Size(r), q, p);
    } else {
      NotNegative(r, p);
      SameFactor(Size(r), r, p);
    }
  }

  lemma SameFactor(a: real, b: real, p: real)
    requires a == b
    ensures a * p == b * p
  {
  }

  lemma NotNegative(r: real, p: real)
    requires r >= 0.0 && p > 0.0
    ensures r * p >= 0.0
  {
  }

  lemma Negated(r: real, p: real)
    ensures (0.0 - r) * p == 0.0 - r * p
  {
  }

  lemma Powers()
    ensures Pow10(6) == 1000000.0 && Pow10(21) == 1000000000000000000000.0
    ensures Pow10(-4) == 0.0001 && Pow10(-6) == 0.000001
  {
    assert Pow10(3) == 1000.0;
    assert Pow10(6) == 1000000.0;
    PowersAdd(6, 6);
    assert Pow10(12) == 1000000000000.0;
    PowersAdd(12, 6);
    assert Pow10(18) == 1000000000000000000.0;
    PowersAdd(18, 3);
    assert Pow10(-2) == 0.01;
    assert Pow10(-4) == 0.0001;
    assert Pow10(-6) == 0.000001;
  }

  lemma PlainHasNoE(ds: string, e: int)
    requires AllDigits(ds)
    ensures 'e' !in Plain(ds, e)
  {
    ZerosAreDigits(if e >= 0 then e else 0);
    ZerosAreDigits(if |ds| + e < 0 then -(|ds| + e) else 0);
    hide Zeros;
  }

  lemma ScientificHasE(ds: string, e: int, width: nat)
    requires ds != ""
    ensures 'e' in Scientific(ds, e, width)
  {
    hide Decimal;
    var front := [ds[0]] + (if |ds| == 1 then "" else "." + ds[1..]);
    assert Scientific(ds, e, width)[|front|] == 'e';
  }

  /** The JSON encoder uses an exponent exactly below a millionth and from a sextillion on; zero has none. */
  lemma JsonForm(n: Number)
    ensures var x := Size(Amount(n));
            'e' in JsonNumber(n) <==> x != 0.0 && (x < 0.000001 || x >= 1000000000000000000000.0)
  {
    FormOfNumber(n, -5, 21, 1);
    Powers();
    hide Scientific, Plain, Decimal, Pow10;
  }

  /** The default format exactly below a ten-thousandth and from a million on. */
  lemma DefaultForm(n: Number)
    ensures var x := Size(Amount(n));
            'e' in DefaultNumber(n) <==> x != 0.0 && (x < 0.0001 || x >= 1000000.0)
  {
    FormOfNumber(n, -3, 6, 2);
    Powers();
    hide Scientific, Plain, Decimal, Pow10;
  }

  lemma FormOfNumber(n: Number, low: int, high: int, width: nat)
    requires low <= high
    ensures var ds := Decimal(Abs(n.m));
            var x := Size(Amount(n));
            var powered := n.m != 0 && !(low <= |ds| + n.e <= high);
            && (powered ==> ds != "" && 'e' in Sign(n.m) + Scientific(ds, n.e, width))
            && (!powered ==> 'e' !in Sign(n.m) + Plain(ds, n.e))
            && (powered <==> x != 0.0 && (x < Pow10(low - 1) || x >= Pow10(high)))
  {
    var ds := Decimal(Abs(n.m));
    DecimalDigits(Abs(n.m));
    hide Decimal;
    PlainHasNoE(ds, n.e);
    if n.m != 0 {
      AmountSize(n);
      ScientificHasE(ds, n.e, width);
      var d := |ds| + n.e;
      if d < low { PowersGrow(d, low - 1); } else { PowersGrow(low - 1, d - 1); }
      if d > high { PowersGrow(high, d - 1); } else { PowersGrow(d, high); }
    }
    hide Scientific, Plain, Pow10;
  }
}
