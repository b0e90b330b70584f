/** Decimal numbers: their exact values, how Go prints them, and how they are read. */
module Numbers {
  import opened Prelude
  import opened Strings

  /** m times ten to the power e. */
  datatype Scaled = Scaled(m: int, e: int)

  /** The only form of each value: no factor ten is left in m, and zero has exponent zero. */
  type Number = n: Scaled | (if n.m == 0 then n.e == 0 else n.m % 10 != 0) witness Scaled(0, 0)

  function Abs(m: int): nat {
    if m < 0 then -m else m
  }

  function Normal(m: int, e: int): Number
    decreases Abs(m)
  {
    if m == 0 then Scaled(0, 0) else if m % 10 == 0 then Normal(m / 10, e + 1) else Scaled(m, e)
  }

  // ----- Values -----

  function Pow10(e: int): (r: real)
    ensures r > 0.0
    decreases Abs(e)
  {
    if e == 0 then 1.0 else if e > 0 then 10.0 * Pow10(e - 1) else Pow10(e + 1) / 10.0
  }

  function Worth(m: int, e: int): real {
    m as real * Pow10(e)
  }

  function Amount(n: Number): real {
    Worth(n.m, n.e)
  }

  lemma TenUp(m: int, e: int)
    ensures Worth(10 * m, e) == Worth(m, e + 1)
  {
    var p := Pow10(e);
    assert Pow10(e + 1) == 10.0 * p;
    assert (10 * m) as real == 10.0 * m as real;
    assert (10.0 * m as real) * p == m as real * (10.0 * p);
  }

  lemma {:induction false} NormalWorth(m: int, e: int)
    ensures Amount(Normal(m, e)) == Worth(m, e)
    decreases Abs(m)
  {
    if m != 0 && m % 10 == 0 {
      NormalWorth(m / 10, e + 1);
      TenUp(m / 10, e);
      assert 10 * (m / 10) == m;
    }
  }

  /** m with k zeros appended. */
  function Shift(m: int, k: nat): int {
    if k == 0 then m else 10 * Shift(m, k - 1)
  }

  lemma {:induction false} ShiftWorth(m: int, k: nat, e: int)
    ensures Worth(Shift(m, k), e) == Worth(m, e + k)
    decreases k
  {
    if k > 0 {
      TenUp(Shift(m, k - 1), e);
      ShiftWorth(m, k - 1, e + 1);
    }
  }

  function Add(a: Number, b: Number): Number {
    var e := if a.e < b.e then a.e else b.e;
    Normal(Shift(a.m, a.e - e) + Shift(b.m, b.e - e), e)
  }

  lemma AddExact(a: Number, b: Number)
    ensures Amount(Add(a, b)) == Amount(a) + Amount(b)
  {
    hide Normal, Shift, Pow10;
    var e := if a.e < b.e then a.e else b.e;
    var x, y := Shift(a.m, a.e - e), Shift(b.m, b.e - e);
    NormalWorth(x + y, e);
    ShiftWorth(a.m, a.e - e, e);
    ShiftWorth(b.m, b.e - e, e);
    SumWorth(x, y, e);
  }

  lemma SumWorth(x: int, y: int, e: int)
    ensures Worth(x + y, e) == Worth(x, e) + Worth(y, e)
  {
    hide Pow10;
    var p := Pow10(e);
    assert (x as real + y as real) * p == x as real * p + y as real * p;
  }

  lemma {:induction false} NormalShift(m: int, k: nat, e: int)
    requires m % 10 != 0
    ensures Normal(Shift(m, k), e) == Scaled(m, e + k)
    decreases k
  {
    if k > 0 {
      ShiftNonzero(m, k - 1);
      assert Shift(m, k) % 10 == 0 && Shift(m, k) / 10 == Shift(m, k - 1);
      NormalShift(m, k - 1, e + 1);
    }
  }

  lemma {:induction false} ShiftNonzero(m: int, k: nat)
    requires m != 0
    ensures Shift(m, k) != 0
  {
    if k > 0 {
      ShiftNonzero(m, k - 1);
    }
  }

  /** Numbers are the amounts they stand for: no two have the same. */
  lemma SameAmount(a: Number, b: Number)
    requires Amount(a) == Amount(b)
    ensures a == b
  {
    if a.e <= b.e {
      Shifted(a, b);
    } else {
      Shifted(b, a);
    }
  }

  lemma Shifted(a: Number, b: Number)
    requires Amount(a) == Amount(b) && a.e <= b.e
    ensures a == b
  {
    var k := b.e - a.e;
    ShiftWorth(b.m, k, a.e);
    CancelPower(a.m, Shift(b.m, k), a.e);
    if b.m != 0 {
      ShiftNonzero(b.m, k);
    } else {
      ShiftZero(k);
    }
  }

  lemma CancelPower(x: int, y: int, e: int)
    requires Worth(x, e) == Worth(y, e)
    ensures x == y
  {
    hide Pow10;
    var p := Pow10(e);
    assert (x as real - y as real) * p == 0.0;
  }

  // ----- Digits -----

  predicate IsDigit(c: char) {
    '0' <= c <= '9'
  }

  predicate AllDigits(s: string) {
    forall i :: 0 <= i < |s| ==> IsDigit(s[i])
  }

  /** The digits at the front. */
  function DigitRun(t: string): (r: string)
    ensures r <= t && AllDigits(r)
  {
    if t == "" || !IsDigit(t[0]) then "" else [t[0]] + DigitRun(t[1..])
  }

  lemma DigitsJoin(a: string, b: string)
    requires AllDigits(a) && AllDigits(b)
    ensures AllDigits(a + b)
  {
  }

  function DigitsValue(s: string): nat
    requires AllDigits(s)
  {
    if s == "" then 0
    else
      assert IsDigit(s[|s| - 1]);
      DigitsValue(s[..|s| - 1]) * 10 + (s[|s| - 1] - '0') as nat
  }

  lemma {:induction false} RunOf(ds: string, rest: string)
    requires AllDigits(ds) && (rest == "" || !IsDigit(rest[0]))
    ensures DigitRun(ds + rest) == ds
    decreases |ds|
  {
    if ds == "" {
      assert ds + rest == rest;
    } else {
      assert (ds + rest)[1..] == ds[1..] + rest;
      RunOf(ds[1..], rest);
      assert [ds[0]] + ds[1..] == ds;
    }
  }

  lemma {:induction false} DecimalDigits(n: nat)
    ensures AllDigits(Decimal(n)) && DigitsValue(Decimal(n)) == n
    ensures n > 0 ==> Decimal(n)[0] != '0'
    ensures n == 0 ==> Decimal(n) == "0"
  {
    if n >= 10 {
      DecimalDigits(n / 10);
      assert Decimal(n)[..|Decimal(n)| - 1] == Decimal(n / 10);
    } else {
      assert Decimal(n)[..0] == "";
    }
  }

  function Zeros(k: nat): string {
    if k == 0 then "" else Zeros(k - 1) + "0"
  }

  lemma {:induction false} ZerosAreDigits(k: nat)
    ensures |Zeros(k)| == k && AllDigits(Zeros(k))
  {
    if k > 0 {
      ZerosAreDigits(k - 1);
    }
  }

  lemma {:induction false} ZerosBehind(ds: string, k: nat)
    requires AllDigits(ds)
    ensures AllDigits(ds + Zeros(k)) && DigitsValue(ds + Zeros(k)) == Shift(DigitsValue(ds), k)
    decreases k
  {
    if k == 0 {
      assert ds + "" == ds;
    } else {
      ZerosBehind(ds, k - 1);
      var front := ds + Zeros(k - 1);
      assert ds + Zeros(k) == front + "0";
      hide Zeros;
      NextDigit(front, '0');
    }
  }

  lemma NextDigit(ds: string, c: char)
    requires AllDigits(ds) && IsDigit(c)
    ensures AllDigits(ds + [c]) && DigitsValue(ds + [c]) == 10 * DigitsValue(ds) + (c as int - '0' as int)
  {
    assert (ds + [c])[..|ds|] == ds;
  }

  lemma {:induction false} ZerosInFront(k: nat, ds: string)
    requires AllDigits(ds)
    ensures AllDigits(Zeros(k) + ds) && DigitsValue(Zeros(k) + ds) == DigitsValue(ds)
    decreases |ds|
  {
    ZerosAreDigits(k);
    if ds == "" {
      assert Zeros(k) + "" == Zeros(k) == "" + Zeros(k);
      ZerosBehind("", k);
      ShiftZero(k);
    } else {
      var s := Zeros(k) + ds;
      ZerosInFront(k, ds[..|ds| - 1]);
      assert s[..|s| - 1] == Zeros(k) + ds[..|ds| - 1];
    }
  }

  lemma {:induction false} ShiftZero(k: nat)
    ensures Shift(0, k) == 0
  {
    if k > 0 {
      ShiftZero(k - 1);
    }
  }

  // ----- Printing -----

  /** The digits with the point in its place, no exponent. */
  function Plain(ds: string, e: int): string {
    var point := |ds| + e;
    if e >= 0 then ds + Zeros(e)
    else if point > 0 then ds[..point] + "." + ds[point..]
    else "0." + Zeros(-point) + ds
  }

  /** An exponent of at least `width` digits, one or two. */
  function Exponent(x: int, width: nat): string {
    "e" + (if x < 0 then "-" else "+") + (if width == 2 && Abs(x) < 10 then "0" else "") + Decimal(Abs(x))
  }

  function Scientific(ds: string, e: int, width: nat): string
    requires ds != ""
  {
    [ds[0]] + (if |ds| == 1 then "" else "." + ds[1..]) + Exponent(|ds| - 1 + e, width)
  }

  function Sign(m: int): string {
    if m < 0 then "-" else ""
  }

  /** As the JSON encoder prints it: exponents only below 1e-6 and from 1e21 on. */
  function JsonNumber(n: Number): string {
    var ds := Decimal(Abs(n.m));
    Sign(n.m) + if n.m != 0 && !(-5 <= |ds| + n.e <= 21) then Scientific(ds, n.e, 1) else Plain(ds, n.e)
  }

  /** As the default format prints it: exponents below 1e-4 and from a million on, in two digits at least. */
  function DefaultNumber(n: Number): string {
    var ds := Decimal(Abs(n.m));
    Sign(n.m) + if n.m != 0 && !(-3 <= |ds| + n.e <= 6) then Scientific(ds, n.e, 2) else Plain(ds, n.e)
  }

  // ----- Reading -----

  datatype Reading<T> = Fail | Read(value: T, rest: string)

  /** The digits after a point, if there is one. */
  function ParseFraction(t: string): (r: Reading<string>)
    ensures r.Read? && |r.rest| <= |t| && AllDigits(r.value)
  {
    if t == "" || t[0] != '.' then Read("", t)
    else
      var ds := DigitRun(t[1..]);
      Read(ds, t[1 + |ds|..])
  }

  function ParseExponent(t: string): (r: Reading<int>)
    ensures r.Read? ==> |r.rest| <= |t|
  {
    if t == "" || (t[0] != 'e' && t[0] != 'E') then Read(0, t)
    else
      var signed := |t| > 1 && (t[1] == '-' || t[1] == '+');
      var u := if signed then t[2..] else t[1..];
      var ds := DigitRun(u);
      if ds == "" then Fail
      else Read(if signed && t[1] == '-' then 0 - DigitsValue(ds) else DigitsValue(ds), u[|ds|..])
  }

  function FromDigits(negative: bool, ds: string, e: int): Number
    requires AllDigits(ds)
  {
    Normal(if negative then 0 - DigitsValue(ds) else DigitsValue(ds), e)
  }

  /** A number of JSON: digits without a leading zero, a point only with digits behind it, an exponent. */
  function ParseNumber(t: string): (r: Reading<Number>)
    ensures r.Read? ==> |r.rest| < |t|
  {
    var negative := t != "" && t[0] == '-';
    var u := if negative then t[1..] else t;
    var a := DigitRun(u);
    if a == "" || (|a| > 1 && a[0] == '0') then Fail
    else
      var v := u[|a|..];
      var fraction := ParseFraction(v);
      if v != "" && v[0] == '.' && fraction.value == "" then Fail
      else
        var x := ParseExponent(fraction.rest);
        if x.Fail? then Fail
        else
          DigitsJoin(a, fraction.value);
          Read(FromDigits(negative, a + fraction.value, x.value - |fraction.value|), x.rest)
  }

  /** A text that spells a number as a whole: a sign, digits on either side of a point, an exponent. */
  function ParseFloat(s: string): Option<Number> {
    var negative := s != "" && s[0] == '-';
    var u := if s != "" && (s[0] == '-' || s[0] == '+') then s[1..] else s;
    var a := DigitRun(u);
    var fraction := ParseFraction(u[|a|..]);
    var x := ParseExponent(fraction.rest);
    if |a| + |fraction.value| == 0 || x.Fail? || x.rest != "" then None
    else
      DigitsJoin(a, fraction.value);
      Some(FromDigits(negative, a + fraction.value, x.value - |fraction.value|))
  }

  // ----- The round trip -----

  /** What may follow a number: nothing that could belong to it. */
  predicate Ends(rest: string) {
    rest == "" || rest[0] == ',' || rest[0] == ']' || rest[0] == '}'
  }

  function Fraction(b: string): string {
    if b == "" then "" else "." + b
  }

  function Power(x: Option<int>, width: nat): string {
    if x.None? then "" else Exponent(x.value, width)
  }

  lemma ExponentBack(x: Option<int>, width: nat, rest: string)
    requires Ends(rest)
    ensures ParseExponent(Power(x, width) + rest) == Read(if x.Some? then x.value else 0, rest)
  {
    hide Decimal, DigitRun, DigitsValue, AllDigits;
    if x.Some? {
      hide ParseExponent;
      var pad := if width == 2 && Abs(x.value) < 10 then "0" else "";
      PaddedDigits(Abs(x.value), pad);
      var sign := if x.value < 0 then "-" else "+";
      SignedBack(sign, pad + Decimal(Abs(x.value)), rest);
      ExponentParts(sign, pad, Decimal(Abs(x.value)), rest);
    } else {
      assert "" + rest == rest;
    }
  }

  lemma SignedBack(sign: string, ds: string, rest: string)
    requires Ends(rest) && AllDigits(ds) && ds != "" && (sign == "-" || sign == "+")
    ensures ParseExponent("e" + sign + (ds + rest)) == Read(if sign == "-" then 0 - DigitsValue(ds) else DigitsValue(ds), rest)
  {
    hide DigitRun, DigitsValue, AllDigits;
    EndsDigits(rest);
    RunOf(ds, rest);
    var t := "e" + sign + (ds + rest);
    assert t[2..] == ds + rest;
    assert (ds + rest)[|ds|..] == rest;
    assert t[0] == 'e' && t[1] == sign[0];
  }

  lemma EndsDigits(rest: string)
    requires Ends(rest)
    ensures rest == "" || !IsDigit(rest[0])
  {
  }

  lemma PaddedDigits(n: nat, pad: string)
    requires pad == "" || pad == "0"
    ensures AllDigits(pad + Decimal(n)) && DigitsValue(pad + Decimal(n)) == n && pad + Decimal(n) != ""
  {
    DecimalDigits(n);
    hide Decimal;
    if pad == "" {
      assert pad + Decimal(n) == Decimal(n);
    } else {
      ZerosInFront(1, Decimal(n));
      assert Zeros(1) == pad;
    }
  }

  lemma ExponentParts(sign: string, pad: string, ds: string, rest: string)
    ensures "e" + sign + pad + ds + rest == "e" + sign + (pad + ds + rest)
  {
  }

  lemma FractionBack(b: string, rest: string)
    requires AllDigits(b) && (rest == "" || (!IsDigit(rest[0]) && rest[0] != '.'))
    ensures ParseFraction(Fraction(b) + rest) == Read(b, rest)
  {
    hide DigitRun, AllDigits;
    if b == "" {
      assert "" + rest == rest;
    } else {
      RunOf(b, rest);
      assert (Fraction(b) + rest)[1..] == b + rest;
      assert (Fraction(b) + rest)[1 + |b|..] == rest;
    }
  }

  lemma PowerFirst(x: Option<int>, width: nat, rest: string)
    requires Ends(rest)
    ensures var t := Power(x, width) + rest; t == "" || (!IsDigit(t[0]) && t[0] != '.')
  {
    hide Decimal;
  }

  lemma FractionFirst(b: string, t: string)
    requires t == "" || (!IsDigit(t[0]) && t[0] != '.')
    ensures var u := Fraction(b) + t; (u == "" || !IsDigit(u[0])) && (u != "" && u[0] == '.' <==> b != "")
  {
  }

  /** A number text in its parts reads as what the parts say. */
  lemma PartsBack(negative: bool, a: string, b: string, x: Option<int>, width: nat, rest: string)
    requires AllDigits(a) && AllDigits(b) && a != "" && IsDigit(a[0]) && (a[0] == '0' ==> |a| == 1) && Ends(rest)
    ensures AllDigits(a + b)
    ensures ParseNumber((if negative then "-" else "") + (a + (Fraction(b) + (Power(x, width) + rest)))) ==
            Read(FromDigits(negative, a + b, (if x.Some? then x.value else 0) - |b|), rest)
  {
    hide ParseExponent, ParseFraction, Fraction, Power, FromDigits, DigitRun, AllDigits, Ends;
    var tail := Power(x, width) + rest;
    var v := Fraction(b) + tail;
    ExponentBack(x, width, rest);
    PowerFirst(x, width, rest);
    FractionBack(b, tail);
    FractionFirst(b, tail);
    RunOf(a, v);
    DigitsJoin(a, b);
    assert (a + v)[|a|..] == v;
    if negative {
      assert ("-" + (a + v))[1..] == a + v;
    } else {
      assert "" + (a + v) == a + v;
    }
  }

  /** The digits of a number say what it is. */
  lemma DigitsSay(n: Number, ds: string, e: int)
    requires ds == Decimal(Abs(n.m)) && e == n.e
    ensures AllDigits(ds) && FromDigits(n.m < 0, ds, e) == n
  {
    DecimalDigits(Abs(n.m));
    hide Decimal;
  }

  lemma FirstDigit(n: Number, ds: string)
    requires ds == Decimal(Abs(n.m))
    ensures AllDigits(ds) && IsDigit(ds[0]) && (n.m != 0 ==> ds[0] != '0') && (n.m == 0 ==> ds == "0")
  {
    DecimalDigits(Abs(n.m));
    hide Decimal;
  }

  lemma WholeSays(n: Number, ds: string)
    requires n.e >= 0 && ds == Decimal(Abs(n.m))
    ensures AllDigits(ds + Zeros(n.e)) && FromDigits(n.m < 0, ds + Zeros(n.e), 0) == n
    ensures n.e == 0 ==> ds + Zeros(n.e) == ds
  {
    DecimalDigits(Abs(n.m));
    ZerosBehind(ds, n.e);
    hide Decimal, DigitsValue, AllDigits;
    if n.m != 0 {
      NormalShift(n.m, n.e, 0);
      ShiftSign(n.m, n.e);
    }
  }

  lemma {:induction false} ShiftSign(m: int, k: nat)
    ensures Shift(m, k) == if m < 0 then 0 - Shift(Abs(m), k) else Shift(Abs(m), k)
  {
    if k > 0 {
      ShiftSign(m, k - 1);
    }
  }

  /** The parts of a number text: digits before the point, digits behind it, and an exponent if there is one. */
  datatype Form = Form(a: string, b: string, x: Option<int>)

  function Text(f: Form, width: nat): string {
    f.a + Fraction(f.b) + Power(f.x, width)
  }

  ghost predicate FormOf(n: Number, f: Form) {
    && AllDigits(f.a) && AllDigits(f.b) && AllDigits(f.a + f.b)
    && f.a != "" && IsDigit(f.a[0]) && (f.a[0] == '0' ==> |f.a| == 1)
    && FromDigits(n.m < 0, f.a + f.b, (if f.x.Some? then f.x.value else 0) - |f.b|) == n
  }

  lemma SplitDigits(ds: string, k: nat)
    requires AllDigits(ds) && k <= |ds|
    ensures AllDigits(ds[..k]) && AllDigits(ds[k..]) && ds[..k] + ds[k..] == ds
  {
  }

  lemma PointInside(n: Number, ds: string) returns (f: Form)
    requires n.e < 0 < |ds| + n.e && ds == Decimal(Abs(n.m))
    ensures FormOf(n, f) && forall width :: Plain(ds, n.e) == Text(f, width)
  {
    FirstDigit(n, ds);
    DigitsSay(n, ds, n.e);
    SplitDigits(ds, |ds| + n.e);
    hide Decimal, FromDigits, AllDigits;
    f := Form(ds[..|ds| + n.e], ds[|ds| + n.e..], None);
    assert f.a + f.b == ds;
    assert f.a[0] == ds[0];
  }

  lemma PointBefore(n: Number, ds: string) returns (f: Form)
    requires n.e < 0 && |ds| + n.e <= 0 && ds == Decimal(Abs(n.m))
    ensures FormOf(n, f) && forall width :: Plain(ds, n.e) == Text(f, width)
  {
    var zs := Zeros(-(|ds| + n.e));
    f := Form("0", zs + ds, None);
    LeadingZeros(n, ds, zs);
    hide Decimal, FromDigits, AllDigits, Zeros;
    assert "0." + zs + ds == "0" + ("." + (zs + ds)) + "";
  }

  lemma LeadingZeros(n: Number, ds: string, zs: string)
    requires n.e < 0 && |ds| + n.e <= 0 && ds == Decimal(Abs(n.m)) && zs == Zeros(-(|ds| + n.e))
    ensures FormOf(n, Form("0", zs + ds, None)) && zs + ds != ""
  {
    hide *;
    var k := -(|ds| + n.e);
    FirstDigit(n, ds);
    DigitsSay(n, ds, n.e);
    ZerosAreDigits(k);
    ZeroBefore(n.m < 0, ds, k, n.e);
    IsForm(n, "0", Zeros(k) + ds);
  }

  lemma IsForm(n: Number, a: string, b: string)
    requires AllDigits(a) && AllDigits(b) && AllDigits(a + b) && a == "0" && FromDigits(n.m < 0, a + b, 0 - |b|) == n
    ensures FormOf(n, Form(a, b, None))
  {
    hide AllDigits, FromDigits;
  }

  lemma ZeroBefore(negative: bool, ds: string, k: nat, e: int)
    requires AllDigits(ds)
    ensures AllDigits("0") && AllDigits(Zeros(k) + ds) && AllDigits("0" + (Zeros(k) + ds))
    ensures FromDigits(negative, "0" + (Zeros(k) + ds), e) == FromDigits(negative, ds, e)
  {
    ZerosInFront(k, ds);
    ZerosInFront(1, Zeros(k) + ds);
    assert Zeros(1) == "0";
    hide Zeros, DigitsValue, Normal;
  }

  lemma Whole(n: Number, ds: string) returns (f: Form)
    requires n.e >= 0 && ds == Decimal(Abs(n.m))
    ensures FormOf(n, f) && forall width :: Plain(ds, n.e) == Text(f, width)
  {
    f := Form(ds + Zeros(n.e), "", None);
    FirstDigit(n, ds);
    WholeSays(n, ds);
    hide Decimal, AllDigits, FromDigits, Zeros;
    assert f.a + "" == f.a;
    assert f.a + "" + "" == f.a;
  }

  lemma Powered(n: Number, ds: string, width: nat) returns (f: Form)
    requires n.m != 0 && ds == Decimal(Abs(n.m))
    ensures FormOf(n, f) && Scientific(ds, n.e, width) == Text(f, width)
  {
    FirstDigit(n, ds);
    DigitsSay(n, ds, n.e);
    SplitDigits(ds, 1);
    assert ds[..1] == [ds[0]];
    hide Decimal, FromDigits, AllDigits, Exponent;
    f := Form([ds[0]], ds[1..], Some(|ds| - 1 + n.e));
    assert f.a + f.b == ds;
  }

  lemma FormBack(n: Number, f: Form, width: nat, rest: string)
    requires FormOf(n, f) && Ends(rest)
    ensures ParseNumber(Sign(n.m) + Text(f, width) + rest) == Read(n, rest)
  {
    hide ParseNumber, FromDigits, AllDigits, Fraction, Power;
    PartsBack(n.m < 0, f.a, f.b, f.x, width, rest);
    Regroup(Sign(n.m), f.a, Fraction(f.b), Power(f.x, width), rest);
  }

  lemma Regroup(sign: string, a: string, b: string, c: string, rest: string)
    ensures sign + (a + b + c) + rest == sign + (a + (b + (c + rest)))
  {
  }

  /** In either form, with an exponent or without, a number reads back. */
  lemma EitherBack(n: Number, powered: bool, width: nat, rest: string)
    requires Ends(rest) && (powered ==> n.m != 0)
    ensures var ds := Decimal(Abs(n.m));
            && (powered ==> ds != "")
            && ParseNumber(Sign(n.m) + (if powered then Scientific(ds, n.e, width) else Plain(ds, n.e)) + rest) == Read(n, rest)
  {
    hide ParseNumber, Plain, Scientific, FormOf, Text, Sign, Decimal;
    var ds := Decimal(Abs(n.m));
    var f;
    if powered {
      f := Powered(n, ds, width);
    } else if n.e >= 0 {
      f := Whole(n, ds);
    } else if |ds| + n.e > 0 {
      f := PointInside(n, ds);
    } else {
      f := PointBefore(n, ds);
    }
    FormBack(n, f, width, rest);
  }

  /** What the JSON encoder prints for a number reads back as that number. */
  lemma NumberBack(n: Number, rest: string)
    requires Ends(rest)
    ensures ParseNumber(JsonNumber(n) + rest) == Read(n, rest)
  {
    hide ParseNumber, Plain, Scientific, Sign, Decimal;
    EitherBack(n, n.m != 0 && !(-5 <= |Decimal(Abs(n.m))| + n.e <= 21), 1, rest);
  }

  /** And so does what the default format prints. */
  lemma DefaultBack(n: Number, rest: string)
    requires Ends(rest)
    ensures ParseNumber(DefaultNumber(n) + rest) == Read(n, rest)
  {
    hide ParseNumber, Plain, Scientific, Sign, Decimal;
    EitherBack(n, n.m != 0 && !(-3 <= |Decimal(Abs(n.m))| + n.e <= 6), 2, rest);
  }

  /** A text that is a number of JSON spells the same number as a text of its own. */
  lemma NumberSpells(s: string)
    requires ParseNumber(s).Read? && ParseNumber(s).rest == ""
    ensures ParseFloat(s) == Some(ParseNumber(s).value)
  {
    hide FromDigits, ParseFraction, ParseExponent, AllDigits, DigitRun;
    NoPlusFirst(s);
  }

  lemma NoPlusFirst(s: string)
    requires ParseNumber(s).Read?
    ensures s != "" && s[0] != '+'
  {
    hide FromDigits, ParseFraction, ParseExponent;
  }

  /** So what either of them prints for a number spells that number. */
  lemma PrintedSpells(n: Number)
    ensures ParseFloat(JsonNumber(n)) == Some(n) && ParseFloat(DefaultNumber(n)) == Some(n)
  {
    hide ParseNumber, ParseFloat, JsonNumber, DefaultNumber;
    NumberBack(n, "");
    DefaultBack(n, "");
    assert JsonNumber(n) + "" == JsonNumber(n) && DefaultNumber(n) + "" == DefaultNumber(n);
    NumberSpells(JsonNumber(n));
    NumberSpells(DefaultNumber(n));
  }

  // ----- What is printed -----

  predicate NumberChar(c: char) {
    IsDigit(c) || c == '-' || c == '+' || c == '.' || c == 'e'
  }

  predicate NumberChars(s: string) {
    forall i :: 0 <= i < |s| ==> NumberChar(s[i])
  }

  lemma CharsOfNumber(n: Number)
    ensures NumberChars(JsonNumber(n)) && JsonNumber(n) != "" && (JsonNumber(n)[0] == '-' || IsDigit(JsonNumber(n)[0]))
  {
    var ds := Decimal(Abs(n.m));
    DecimalDigits(Abs(n.m));
    hide Decimal;
    if n.m != 0 && !(-5 <= |ds| + n.e <= 21) {
      DecimalDigits(Abs(|ds| - 1 + n.e));
      ScientificChars(ds, n.e);
    } else {
      PlainChars(ds, n.e);
    }
  }

  lemma PlainChars(ds: string, e: int)
    requires AllDigits(ds) && ds != ""
    ensures NumberChars(Plain(ds, e)) && Plain(ds, e) != "" && IsDigit(Plain(ds, e)[0])
  {
    hide Zeros;
    if e >= 0 {
      ZerosAreDigits(e);
    } else if |ds| + e <= 0 {
      ZerosAreDigits(-(|ds| + e));
    }
  }

  lemma ScientificChars(ds: string, e: int)
    requires AllDigits(ds) && ds != "" && AllDigits(Decimal(Abs(|ds| - 1 + e)))
    ensures NumberChars(Scientific(ds, e, 1)) && IsDigit(Scientific(ds, e, 1)[0])
  {
    hide Decimal;
  }
}
