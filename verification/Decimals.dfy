/** Scaled decimals: the MD conversions that print an integer with a decimal point and read it back. */
module Decimals {
  import opened BytecodeText

  function Pow10(n: nat): (r: nat)
    ensures r >= 1
  {
    if n == 0 then 1 else 10 * Pow10(n - 1)
  }

  // ---------------------------------------------------------------------------------------------
  // Arithmetic
  // ---------------------------------------------------------------------------------------------

  lemma Assoc(a: int, b: int, c: int)
    ensures a * (b * c) == (a * b) * c
  {
  }

  lemma Distrib(a: int, b: int, c: int)
    ensures (a + b) * c == a * c + b * c
  {
  }

  lemma MulLe(a: int, b: int, q: int)
    requires a <= b && q >= 0
    ensures a * q <= b * q
  {
    Distrib(b - a, a, q);
    assert (b - a) * q >= 0;
  }

  function Quot(a: nat, b: nat): nat
    requires b > 0
  {
    a / b
  }

  function Rem(a: nat, b: nat): nat
    requires b > 0
  {
    a % b
  }

  lemma QuotRem(a: nat, b: nat)
    requires b > 0
    ensures a == Quot(a, b) * b + Rem(a, b) && Rem(a, b) < b
  {
  }

  lemma PowNext(n: nat)
    ensures Pow10(0) == 1 && Pow10(n + 1) == 10 * Pow10(n)
  {
  }

  lemma {:induction false} PowAdd(a: nat, b: nat)
    ensures Pow10(a + b) == Pow10(a) * Pow10(b)
    decreases a
  {
    hide Pow10;
    PowNext(a);
    if a > 0 {
      PowAdd(a - 1, b);
      PowNext(a - 1);
      PowNext(a - 1 + b);
      Assoc(10, Pow10(a - 1), Pow10(b));
    }
  }

  /** `v` is the nearest integer to `m / p`, a tie going up. */
  predicate NearestTo(v: int, m: int, p: int) {
    2 * (v * p) - p <= 2 * m < 2 * (v * p) + p
  }

  lemma NearUnique(x: int, y: int, m: int, p: int)
    requires p >= 1 && NearestTo(x, m, p) && NearestTo(y, m, p)
    ensures x == y
  {
    if x < y {
      MulLe(x + 1, y, p);
      Distrib(x, 1, p);
    } else if y < x {
      MulLe(y + 1, x, p);
      Distrib(y, 1, p);
    }
  }

  lemma NearScale(v: int, m: int, p: int, q: int)
    requires p >= 1 && q >= 1 && NearestTo(v, m, p)
    ensures NearestTo(v, m * q, p * q)
  {
    var vp := v * p;
    Assoc(v, p, q);
    MulLe(2 * vp - p, 2 * m, q);
    MulLe(2 * m + 1, 2 * vp + p, q);
    ScaleParts(vp, m, p, q);
  }

  lemma ScaleParts(vp: int, m: int, p: int, q: int)
    ensures (2 * vp - p) * q == 2 * (vp * q) - p * q
    ensures (2 * vp + p) * q == 2 * (vp * q) + p * q
    ensures (2 * m + 1) * q == 2 * (m * q) + q
    ensures (2 * m) * q == 2 * (m * q)
  {
    Distrib(2 * vp, -p, q);
    Distrib(2 * vp, p, q);
    Distrib(2 * m, 1, q);
    Assoc(2, vp, q);
    Assoc(2, m, q);
    Assoc(-1, p, q);
  }

  /** A digit and a remainder below it decide which of two neighbours is nearer. */
  lemma DigitDecides(t: int, d: int, p: int, r: int)
    requires 0 <= d <= 9 && p >= 1 && 0 <= r < p
    ensures NearestTo(t + if d >= 5 then 1 else 0, t * (10 * p) + (d * p + r), 10 * p)
  {
    MulLe(d, 9, p);
    MulLe(if d >= 5 then 5 else 0, d, p);
    MulLe(d, if d >= 5 then 9 else 4, p);
    Distrib(t, 1, 10 * p);
  }

  predicate AllDigitsIn(s: string) {
    forall i | 0 <= i < |s| :: IsDigit(s[i])
  }

  lemma {:induction false} ValueAppend(a: string, b: string)
    requires AllDigitsIn(a) && AllDigitsIn(b)
    ensures AllDigitsIn(a + b) && Value(a + b) == Value(a) * Pow10(|b|) + Value(b)
    decreases |b|
  {
    hide Value, Pow10;
    EmptyValue();
    PowNext(|b|);
    if b == "" {
      assert a + b == a;
    } else {
      var n := |b| - 1;
      ValueAppend(a, b[..n]);
      assert IsDigit(b[n]);
      assert a + b == a + b[..n] + [b[n]];
      assert b == b[..n] + [b[n]];
      PushDigit(a + b[..n], b[n]);
      PushDigit(b[..n], b[n]);
      PowNext(n);
      Assoc(Value(a), 10, Pow10(n));
    }
  }

  lemma {:induction false} ValueBelow(s: string)
    requires AllDigitsIn(s)
    ensures Value(s) < Pow10(|s|)
    decreases |s|
  {
    if s != "" {
      ValueBelow(s[..|s| - 1]);
      assert IsDigit(s[|s| - 1]);
    }
  }

  // ---------------------------------------------------------------------------------------------
  // Decimal texts
  // ---------------------------------------------------------------------------------------------

  /** An optional sign, digits, and an optional point followed by digits; at least one digit. */
  function SignSize(s: string): nat {
    if s != "" && (s[0] == '+' || s[0] == '-') then 1 else 0
  }

  predicate Negative(s: string) {
    s != "" && s[0] == '-'
  }

  function Whole(s: string): (r: string)
    ensures AllDigitsIn(r)
  {
    var t := s[SignSize(s)..];
    t[..LeadingDigits(t)]
  }

  function AfterWhole(s: string): string {
    var t := s[SignSize(s)..];
    t[LeadingDigits(t)..]
  }

  function Fraction(s: string): (r: string)
    ensures AllDigitsIn(r)
  {
    var t := AfterWhole(s);
    if t != "" && t[0] == '.' then t[1..][..LeadingDigits(t[1..])] else ""
  }

  predicate IsDecimal(s: string) {
    var t := AfterWhole(s);
    && (if t != "" && t[0] == '.' then |t| == 1 + |Fraction(s)| else t == "")
    && |Whole(s)| + |Fraction(s)| > 0
  }

  /** `v` is the nearest integer to `n / 10^places` times `10^decimals`, a tie going up. */
  predicate Nearest(v: int, n: int, places: nat, decimals: nat) {
    NearestTo(v, n * Pow10(decimals), Pow10(places))
  }

  /** The number without its sign is `Value(Whole + Fraction) / 10^|Fraction|`; rounding is on the
      magnitude, so ties go away from zero. */
  predicate ReadsAs(s: string, decimals: nat, val: int) {
    var n := Value(Digits(s));
    Nearest(if Negative(s) then -val else val, n, |Fraction(s)|, decimals)
  }

  function Digits(s: string): (r: string)
    ensures AllDigitsIn(r)
  {
    Whole(s) + Fraction(s)
  }

  /** Looking at the first dropped digit alone is enough to round. */
  lemma FirstDroppedDigit(t: nat, rest: string)
    requires AllDigitsIn(rest) && rest != ""
    ensures NearestTo(t + if rest[0] >= '5' then 1 else 0, t * Pow10(|rest|) + Value(rest), Pow10(|rest|))
  {
    hide Value, Pow10, NearestTo;
    var first, tail := rest[..1], rest[1..];
    assert first + tail == rest;
    assert IsDigit(rest[0]);
    ValueAppend(first, tail);
    ValueBelow(tail);
    EmptyValue();
    assert first == "" + [rest[0]];
    PushDigit("", rest[0]);
    PowNext(|tail|);
    DigitDecides(t, Value(first), Pow10(|tail|), Value(tail));
  }

  // ---------------------------------------------------------------------------------------------
  // Reading
  // ---------------------------------------------------------------------------------------------

  /** The two ways the digits after the point are used: all kept and padded, or cut and rounded. */
  lemma ScaledValue(s: string, decimals: nat, kept: string, val: int)
    requires IsDecimal(s)
    requires var f := Fraction(s); kept == if |f| <= decimals then f else f[..decimals]
    requires AllDigitsIn(kept)
    requires var f := Fraction(s);
             val == Value(Whole(s)) * Pow10(decimals) + Value(kept) * Pow10(decimals - |kept|)
                    + if |f| > decimals && f[decimals] >= '5' then 1 else 0
    ensures Nearest(val, Value(Digits(s)), |Fraction(s)|, decimals)
  {
    hide Whole, Fraction, Value, IsDecimal, Pow10, NearestTo;
    var w, f := Whole(s), Fraction(s);
    if |f| <= decimals {
      ExactValue(w, f, decimals);
      ExactNear(Value(w + f), |f|, decimals);
    } else {
      var rest := f[decimals..];
      assert kept + rest == f;
      PowNext(0);
      ValueAppend(w, kept);
      var t := Value(w + kept);
      ValueAppend(w + kept, rest);
      assert w + kept + rest == w + f;
      FirstDroppedDigit(t, rest);
      NearScale(val, Value(w + f), Pow10(|rest|), Pow10(decimals));
      PowAdd(|rest|, decimals);
    }
  }

  lemma ExactNear(n: int, places: nat, decimals: nat)
    requires places <= decimals
    ensures Nearest(n * Pow10(decimals - places), n, places, decimals)
  {
    hide Pow10;
    PowAdd(decimals - places, places);
    Assoc(n, Pow10(decimals - places), Pow10(places));
  }

  lemma ExactValue(w: string, f: string, decimals: nat)
    requires AllDigitsIn(w) && AllDigitsIn(f) && |f| <= decimals
    ensures AllDigitsIn(w + f)
    ensures Value(w) * Pow10(decimals) + Value(f) * Pow10(decimals - |f|) == Value(w + f) * Pow10(decimals - |f|)
  {
    hide Value, Pow10;
    ValueAppend(w, f);
    PowAdd(|f|, decimals - |f|);
    var a, b, p, q := Value(w), Value(f), Pow10(|f|), Pow10(decimals - |f|);
    Assoc(a, p, q);
    Distrib(a * p, b, q);
  }

  method PowerOfTen(n: nat) returns (p: nat)
    ensures p == Pow10(n)
  {
    p := 1;
    for k := 0 to n
      invariant p == Pow10(k)
    {
      p := p * 10;
    }
  }

  /** Digits from position `i` on, added to a number. */
  method ScanDigits(s: string, i0: nat) returns (i: nat, n: nat)
    requires i0 <= |s|
    ensures i == i0 + LeadingDigits(s[i0..]) && n == Value(s[i0..][..LeadingDigits(s[i0..])])
  {
    i, n := i0, 0;
    ghost var t := s[i0..];
    assert t[..0] == "";
    while i < |s| && IsDigit(s[i])
      invariant i0 <= i <= |s|
      invariant AllDigitsIn(t[..i - i0]) && n == Value(t[..i - i0])
      invariant LeadingDigits(t) == i - i0 + LeadingDigits(s[i..])
    {
      assert t[..i + 1 - i0] == t[..i - i0] + [s[i]];
      assert s[i..][1..] == s[i + 1..];
      PushDigit(t[..i - i0], s[i]);
      n := n * 10 + (s[i] - '0') as nat;
      i := i + 1;
    }
  }

  lemma PushDigit(a: string, c: char)
    requires AllDigitsIn(a) && IsDigit(c)
    ensures AllDigitsIn(a + [c]) && Value(a + [c]) == 10 * Value(a) + (c - '0') as nat
  {
    assert (a + [c])[..|a + [c]| - 1] == a;
  }

  /** Reads a decimal text scaled by `10^decimals`; only the first digit that does not fit is looked at. */
  method ParseMdScaled(s: string, decimals: nat) returns (ok: bool, val: int)
    ensures ok <==> IsDecimal(s)
    ensures ok ==> ReadsAs(s, decimals, val)
  {
    hide Value, Nearest, Pow10, LeadingDigits, AllDigitsIn;
    if s == "" {
      return false, 0;
    }
    var negative := s[0] == '-';
    var start := if s[0] == '+' || s[0] == '-' then 1 else 0;
    var i, intPart := ScanDigits(s, start);
    var sawDigit := i > start;
    ghost var t := AfterWhole(s);
    assert t == s[i..];
    var fracPart, fracDigits, roundDigit := 0, 0, -1;
    ghost var kept := "";
    if i < |s| && s[i] == '.' {
      i := i + 1;
      assert t[1..] == s[i..];
      ghost var f := Fraction(s);
      var more;
      i, fracPart, fracDigits, roundDigit, more := ScanFraction(s, i, decimals);
      sawDigit := sawDigit || more;
      kept := if |f| <= decimals then f else f[..decimals];
    } else {
      EmptyValue();
    }
    if i != |s| || !sawDigit {
      return false, 0;
    }
    fracPart := PadFraction(fracPart, fracDigits, decimals);
    var divisor := PowerOfTen(decimals);
    val := intPart * divisor + fracPart;
    if roundDigit >= 5 {
      val := val + 1;
    }
    ScaledValue(s, decimals, kept, val);
    if negative {
      val := -val;
    }
    ok := true;
  }

  method PadFraction(base: nat, digits: nat, decimals: nat) returns (fracPart: nat)
    requires digits <= decimals
    ensures fracPart == base * Pow10(decimals - digits)
  {
    hide Pow10;
    fracPart := base;
    var fracDigits := digits;
    PowNext(0);
    while fracDigits < decimals
      invariant digits <= fracDigits <= decimals
      invariant fracPart == base * Pow10(fracDigits - digits)
    {
      PowNext(fracDigits - digits);
      Assoc(base, Pow10(fracDigits - digits), 10);
      fracPart := fracPart * 10;
      fracDigits := fracDigits + 1;
    }
  }

  lemma EmptyValue()
    ensures Value("") == 0
  {
  }

  /** The digits after the point: the first `decimals` of them as a number, and the digit after those. */
  method ScanFraction(s: string, i0: nat, decimals: nat)
    returns (i: nat, fracPart: nat, fracDigits: nat, roundDigit: int, sawDigit: bool)
    requires i0 <= |s|
    ensures i == i0 + LeadingDigits(s[i0..])
    ensures var f := s[i0..][..LeadingDigits(s[i0..])];
            var kept := if |f| <= decimals then f else f[..decimals];
            && AllDigitsIn(kept) && fracPart == Value(kept) && fracDigits == |kept|
            && (sawDigit <==> f != "")
            && (roundDigit >= 5 <==> |f| > decimals && f[decimals] >= '5')
  {
    hide Value;
    EmptyValue();
    i, fracPart, fracDigits, roundDigit, sawDigit := i0, 0, 0, -1, false;
    ghost var t := s[i0..];
    assert t[..0] == "";
    while i < |s| && IsDigit(s[i])
      invariant i0 <= i <= |s|
      invariant AllDigitsIn(t[..i - i0])
      invariant fracDigits == if i - i0 <= decimals then i - i0 else decimals
      invariant AllDigitsIn(t[..fracDigits]) && fracPart == Value(t[..fracDigits])
      invariant roundDigit == if i - i0 > decimals then (t[decimals] - '0') as int else -1
      invariant sawDigit <==> i > i0
      invariant LeadingDigits(t) == i - i0 + LeadingDigits(s[i..])
    {
      assert s[i..][1..] == s[i + 1..];
      var d := (s[i] - '0') as nat;
      if fracDigits < decimals {
        assert t[..fracDigits + 1] == t[..fracDigits] + [s[i]];
        PushDigit(t[..fracDigits], s[i]);
        fracPart := fracPart * 10 + d;
        fracDigits := fracDigits + 1;
      } else if roundDigit < 0 {
        roundDigit := d;
      }
      sawDigit := true;
      i := i + 1;
    }
    assert t[..i - i0][..fracDigits] == t[..fracDigits];
    if i - i0 > decimals {
      assert IsDigit(t[decimals]);
    }
  }

  // ---------------------------------------------------------------------------------------------
  // Printing
  // ---------------------------------------------------------------------------------------------

  function Zeros(n: nat): (r: string)
    ensures |r| == n && forall i | 0 <= i < n :: r[i] == '0'
  {
    seq(n, _ => '0')
  }

  /** At least `width` digits, padded with zeros. */
  function ZeroPadded(n: nat, width: nat): string {
    if |Decimal(n)| >= width then Decimal(n) else Zeros(width - |Decimal(n)|) + Decimal(n)
  }

  function Abs(v: int): nat {
    if v < 0 then -v else v
  }

  function Format(v: int, decimals: nat): string {
    if decimals == 0 then IntText(v)
    else
      (if v < 0 then "-" else "") + Decimal(Quot(Abs(v), Pow10(decimals))) + "." + ZeroPadded(Rem(Abs(v), Pow10(decimals)), decimals)
  }

  method FormatMdScaled(v: int, decimals: nat) returns (r: string)
    ensures r == Format(v, decimals)
  {
    hide Decimal, Pow10, ZeroPadded, IntText;
    if decimals == 0 {
      return IntText(v);
    }
    var magnitude := if v < 0 then -(v + 1) + 1 else v;
    var divisor := PowerOfTen(decimals);
    r := (if v < 0 then "-" else "") + Decimal(Quot(magnitude, divisor)) + "." + ZeroPadded(Rem(magnitude, divisor), decimals);
  }

  lemma {:induction false} ZerosValue(n: nat)
    ensures AllDigitsIn(Zeros(n)) && Value(Zeros(n)) == 0
    decreases n
  {
    if n > 0 {
      ZerosValue(n - 1);
      assert Zeros(n)[..n - 1] == Zeros(n - 1);
    }
  }

  lemma {:induction false} DecimalSize(n: nat, k: nat)
    requires n < Pow10(k) && k > 0
    ensures |Decimal(n)| <= k
    decreases k
  {
    PowNext(k - 1);
    if n >= 10 {
      PowNext(0);
      assert k > 1;
      DecimalSize(n / 10, k - 1);
    }
  }

  lemma PaddedReads(n: nat, width: nat)
    requires n < Pow10(width) && width > 0
    ensures |ZeroPadded(n, width)| == width && AllDigitsIn(ZeroPadded(n, width)) && Value(ZeroPadded(n, width)) == n
  {
    hide Value, Decimal;
    DecimalSize(n, width);
    DecimalReads(n);
    if |Decimal(n)| < width {
      var z := width - |Decimal(n)|;
      ZerosValue(z);
      ValueAppend(Zeros(z), Decimal(n));
    }
  }

  lemma {:induction false} DigitsThen(a: string, rest: string)
    requires AllDigitsIn(a) && (rest == "" || !IsDigit(rest[0]))
    ensures LeadingDigits(a + rest) == |a|
    decreases |a|
  {
    if a == "" {
      assert a + rest == rest;
    } else {
      assert (a + rest)[1..] == a[1..] + rest;
      DigitsThen(a[1..], rest);
    }
  }

  /** The parts of a sign, digits, a point and digits. */
  lemma PartsOf(sign: string, a: string, b: string, point: bool)
    requires AllDigitsIn(a) && AllDigitsIn(b) && a != "" && (sign == "" || sign == "-") && (!point ==> b == "")
    ensures var s := sign + a + (if point then "." + b else "");
            Negative(s) == (sign == "-") && Whole(s) == a && Fraction(s) == b && IsDecimal(s)
  {
    var tail := if point then "." + b else "";
    var s := sign + a + tail;
    assert IsDigit(a[0]);
    assert sign != "" ==> s[0] == '-';
    assert sign == "" ==> s[0] == a[0];
    assert SignSize(s) == |sign|;
    assert s[|sign|..] == a + tail;
    DigitsThen(a, tail);
    assert (a + tail)[..|a|] == a && (a + tail)[|a|..] == tail;
    if point {
      assert tail[1..] == b;
      DigitsThen(b, "");
      assert b + "" == b;
      assert b[..|b|] == b;
    }
  }

  lemma FormatParts(v: int, decimals: nat)
    ensures var s := Format(v, decimals);
            IsDecimal(s) && Negative(s) == (v < 0) && |Fraction(s)| == decimals && Value(Digits(s)) == Abs(v)
  {
    hide Value, Decimal, Whole, Fraction, IsDecimal, Negative, Pow10, ZeroPadded, Quot, Rem;
    var sign := if v < 0 then "-" else "";
    if decimals == 0 {
      DecimalReads(Abs(v));
      PartsOf(sign, Decimal(Abs(v)), "", false);
      assert sign + Decimal(Abs(v)) + "" == Format(v, decimals);
      assert Decimal(Abs(v)) + "" == Decimal(Abs(v));
    } else {
      var p := Pow10(decimals);
      var a, b := Decimal(Quot(Abs(v), p)), ZeroPadded(Rem(Abs(v), p), decimals);
      QuotRem(Abs(v), p);
      DecimalReads(Quot(Abs(v), p));
      PaddedReads(Rem(Abs(v), p), decimals);
      PartsOf(sign, a, b, true);
      assert sign + a + ("." + b) == Format(v, decimals);
      ValueAppend(a, b);
    }
  }

  /** Round trip: whatever a printed number is read as, it is the number printed. */
  lemma FormatReadsBack(v: int, decimals: nat, val: int)
    ensures IsDecimal(Format(v, decimals))
    ensures ReadsAs(Format(v, decimals), decimals, val) <==> val == v
  {
    hide Value, Format, IsDecimal, Negative, Fraction, Digits, Nearest, Pow10;
    FormatParts(v, decimals);
    ExactNear(Abs(v), decimals, decimals);
    PowNext(0);
    var x := if v < 0 then -val else val;
    if Nearest(x, Abs(v), decimals, decimals) {
      SameNearest(x, Abs(v), Abs(v), decimals, decimals);
    }
  }

  lemma SameNearest(x: int, y: int, n: int, places: nat, decimals: nat)
    requires Nearest(x, n, places, decimals) && Nearest(y, n, places, decimals)
    ensures x == y
  {
    hide Pow10, NearestTo;
    NearUnique(x, y, n * Pow10(decimals), Pow10(places));
  }

  /** Printing and then reading gives every integer back. */
  method RoundTrip(v: int, decimals: nat) returns (text: string, ok: bool, val: int)
    ensures text == Format(v, decimals) && ok && val == v
  {
    text := FormatMdScaled(v, decimals);
    FormatReadsBack(v, decimals, v);
    ok, val := ParseMdScaled(text, decimals);
    FormatReadsBack(v, decimals, val);
  }
}
