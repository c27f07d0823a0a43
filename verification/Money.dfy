/**
 * Exact-decimal money text. Amounts travel as strings and are computed as integer
 * ten-thousandths. The service owns two parsers: a sign-aware one (cash application)
 * and an unsigned one (claims and reconciliation), and one printer.
 */
module Money {
  import opened Basics
  import opened Text

  const SCALE: nat := 4
  const UNIT: int := 10000

  // ---- decimal digits -------------------------------------------------------

  predicate AllDigits(s: string) { forall i :: 0 <= i < |s| ==> IsDigit(s[i]) }

  function DigitChar(d: nat): (c: char)
    requires d < 10
    ensures IsDigit(c) && DigitValue(c) == d
  {
    '0' + d as char
  }

  function DigitValue(c: char): nat
    requires IsDigit(c)
  {
    c as nat - '0' as nat
  }

  function NatValue(s: string): (n: int)
    requires AllDigits(s)
    ensures n >= 0
  {
    if |s| == 0 then 0 else 10 * NatValue(s[..|s| - 1]) + DigitValue(s[|s| - 1])
  }

  function NatText(n: nat): (s: string)
    ensures AllDigits(s) && |s| > 0
  {
    if n < 10 then [DigitChar(n)] else NatText(n / 10) + [DigitChar(n % 10)]
  }

  lemma {:induction false} NatTextRoundTrip(n: nat)
    ensures NatValue(NatText(n)) == n
  {
    if n < 10 {
      assert NatText(n)[..0] == "";
    } else {
      NatTextRoundTrip(n / 10);
      assert NatText(n)[..|NatText(n)| - 1] == NatText(n / 10);
    }
  }

  function Pow10(n: nat): (p: nat)
    ensures p > 0
  {
    if n == 0 then 1 else 10 * Pow10(n - 1)
  }

  lemma {:induction false} NatTextLength(n: nat, k: nat)
    requires k > 0 && n < Pow10(k)
    ensures |NatText(n)| <= k
  {
    if n >= 10 {
      assert Pow10(0) == 1;
      assert k > 1;
      NatTextLength(n / 10, k - 1);
    }
  }

  /** Reading `a + b` as one numeral shifts `a` left by the length of `b`. */
  lemma {:induction false} NatValueConcat(a: string, b: string)
    requires AllDigits(a) && AllDigits(b)
    ensures AllDigits(a + b)
    ensures NatValue(a + b) == NatValue(a) * Pow10(|b|) + NatValue(b)
  {
    if |b| == 0 {
      assert a + b == a;
    } else {
      var n := |b| - 1;
      assert (a + b)[..|a + b| - 1] == a + b[..n] && (a + b)[|a + b| - 1] == b[n];
      NatValueConcat(a, b[..n]);
      ShiftOnce(NatValue(a), n);
    }
  }

  lemma ShiftOnce(v: int, n: nat)
    ensures v * Pow10(n + 1) == 10 * (v * Pow10(n))
  {
    assert Pow10(n + 1) == 10 * Pow10(n);
  }

  function Zeros(n: nat): (s: string)
    ensures |s| == n && AllDigits(s)
  {
    seq(n, _ => '0')
  }

  lemma {:induction false} ZerosValue(n: nat)
    ensures NatValue(Zeros(n)) == 0
  {
    if n > 0 {
      assert Zeros(n)[..n - 1] == Zeros(n - 1);
      ZerosValue(n - 1);
    }
  }

  // ---- the JavaScript string operations the parsers are built from ------------

  /** Radix named by the letter of a `0x`, `0o` or `0b` prefix, or 0. */
  function Radix(c: char): nat {
    if c == 'x' || c == 'X' then 16 else if c == 'o' || c == 'O' then 8 else if c == 'b' || c == 'B' then 2 else 0
  }

  function RadixDigit(c: char): nat {
    if IsDigit(c) then DigitValue(c)
    else if 'a' <= c <= 'f' then 10 + (c as nat - 'a' as nat)
    else if 'A' <= c <= 'F' then 10 + (c as nat - 'A' as nat)
    else 16
  }

  function RadixLiteral(s: string, radix: nat): Option<int> {
    if |s| == 0 then Some(0)
    else
      var high, low := RadixLiteral(s[..|s| - 1], radix), RadixDigit(s[|s| - 1]);
      if high.None? || low >= radix then None else Some(radix * high.value + low)
  }

  /**
   * `BigInt(text)`: blanks around the literal are ignored, no literal is 0, a decimal may
   * carry a sign, a prefixed literal may not, and anything else throws.
   */
  function BigInt(s: string): Option<int> { Literal(Trim(s)) }

  function Digits(t: string): Option<int> { if |t| > 0 && AllDigits(t) then Some(NatValue(t)) else None }

  function Negated(v: Option<int>): Option<int> { if v.Some? then Some(-v.value) else None }

  function Literal(t: string): Option<int> {
    if |t| == 0 then Some(0)
    else if t[0] == '-' then
      Negated(Digits(t[1..]))
    else if t[0] == '+' then
      Digits(t[1..])
    else if AllDigits(t) then Some(NatValue(t))
    else if |t| > 2 && t[0] == '0' && Radix(t[1]) > 0 then RadixLiteral(t[2..], Radix(t[1]))
    else None
  }

  /** First component of `text.split(".")`. */
  function Whole(s: string): string { s[..Find(s, '.', 0)] }

  /** Second component of `text.split(".")`, or the empty default; later ones are dropped. */
  function Frac(s: string): string {
    var i := Find(s, '.', 0);
    if i == |s| then "" else s[i + 1..Find(s, '.', i + 1)]
  }

  /** `(frac + "0".repeat(SCALE)).slice(0, SCALE)` */
  function FracField(frac: string): (f: string)
    ensures |f| == SCALE
  {
    (frac + Zeros(SCALE))[..SCALE]
  }

  /** `text.padStart(SCALE, "0")` */
  function PadStart(s: string): string {
    if |s| >= SCALE then s else Zeros(SCALE - |s|) + s
  }

  // ---- parsers and printer ----------------------------------------------------

  /** The unsigned parser (claim and reconciliation copies). `None` models the throw. */
  function ToScaledUnsigned(money: string): Option<int> {
    Combine(BigInt(Whole(money)), BigInt(FracField(Frac(money))))
  }

  function Combine(whole: Option<int>, frac: Option<int>): Option<int> {
    if whole.None? || frac.None? then None else Some(whole.value * UNIT + frac.value)
  }

  /** The sign-aware parser (cash application): the sign covers the whole magnitude. */
  function ToScaledSigned(money: string): Option<int> {
    if |money| > 0 && money[0] == '-' then
      match ToScaledUnsigned(money[1..])
      case Some(m) => Some(-m)
      case None => None
    else
      ToScaledUnsigned(money)
  }

  function FromScaled(v: int): string {
    var abs := if v < 0 then -v else v;
    (if v < 0 then "-" else "") + NatText(abs / UNIT) + "." + PadStart(NatText(abs % UNIT))
  }

  // ---- what the parsers compute -------------------------------------------------

  lemma FindIs(s: string, c: char, from: nat, i: nat)
    requires from <= i <= |s| && c !in s[from..i] && (i < |s| ==> s[i] == c)
    ensures Find(s, c, from) == i
  {
    hide Find;
    assert forall j :: from <= j < i ==> s[j] == s[from..i][j - from];
  }

  lemma FindInText(w: string, f: string)
    requires '.' !in w && '.' !in f
    ensures Whole(w + "." + f) == w && Frac(w + "." + f) == f
  {
    hide Find;
    var s := w + "." + f;
    assert s[0..|w|] == w && s[|w| + 1..|s|] == f;
    FindIs(s, '.', 0, |w|);
    FindIs(s, '.', |w| + 1, |s|);
  }

  lemma DigitsHaveNoPoint(w: string)
    requires AllDigits(w)
    ensures '.' !in w
  {}

  lemma PowOfScale()
    ensures Pow10(SCALE) == UNIT
  {
    assert Pow10(4) == 10 * Pow10(3) == 100 * Pow10(2) == 1000 * Pow10(1) == 10000;
  }

  /** A fraction field printed by `FromScaled` has exactly four digits and reads back. */
  lemma PaddedFraction(n: nat)
    requires n < UNIT
    ensures var f := PadStart(NatText(n)); |f| == SCALE && AllDigits(f) && NatValue(f) == n
  {
    hide NatValue, NatText, Zeros;
    PowOfScale();
    NatTextLength(n, SCALE);
    NatTextRoundTrip(n);
    ZerosValue(SCALE - |NatText(n)|);
    NatValueConcat(Zeros(SCALE - |NatText(n)|), NatText(n));
    assert |NatText(n)| == SCALE ==> NatText(n) == Zeros(0) + NatText(n);
  }

  lemma BigIntOfDigits(w: string)
    requires AllDigits(w)
    ensures BigInt(w) == Some(NatValue(w))
    ensures |w| > 0 ==> BigInt("-" + w) == Some(-NatValue(w))
  {
    hide Trim, Literal, NatValue;
    if |w| > 0 {
      assert IsDigit(w[0]) && IsDigit(w[|w| - 1]);
      TrimKeeps("-" + w);
    }
    TrimKeeps(w);
    DigitLiterals(w);
  }

  lemma DigitLiterals(w: string)
    requires AllDigits(w)
    ensures Literal(w) == Some(NatValue(w))
    ensures |w| > 0 ==> Literal("-" + w) == Some(-NatValue(w))
  {
    hide Literal;
    if |w| > 0 {
      hide NatValue;
      PlainLiteral(w);
      SignedLiteral(w);
    } else {
      NoLiteral();
      assert w == "";
    }
  }

  lemma NoLiteral()
    ensures Literal("") == Some(0)
  {}

  lemma PlainLiteral(w: string)
    requires |w| > 0 && IsDigit(w[0]) && AllDigits(w)
    ensures Literal(w) == Some(NatValue(w))
  {
    hide AllDigits, NatValue, Digits, Negated, RadixLiteral, Radix;
  }

  lemma FracFieldDigits(f: string)
    requires AllDigits(f)
    ensures AllDigits(FracField(f))
  {
    var z := f + Zeros(SCALE);
    forall i | 0 <= i < SCALE ensures IsDigit(z[i]) {
      if i < |f| { assert z[i] == f[i]; } else { assert z[i] == Zeros(SCALE)[i - |f|]; }
    }
  }

  /** What the unsigned parser makes of a text whose parts are digits, behind a sign or not. */
  lemma UnsignedOfParts(s: string, w: string, f: string)
    requires AllDigits(w) && |w| > 0 && AllDigits(f)
    requires Frac(s) == f
    ensures AllDigits(FracField(f))
    ensures Whole(s) == w ==>
      ToScaledUnsigned(s) == Some(NatValue(w) * UNIT + NatValue(FracField(f)))
    ensures Whole(s) == "-" + w ==>
      ToScaledUnsigned(s) == Some(-NatValue(w) * UNIT + NatValue(FracField(f)))
  {
    hide BigInt, NatValue, Whole, Frac, FracField;
    FracFieldDigits(f);
    BigIntOfDigits(w);
    BigIntOfDigits(FracField(f));
  }

  lemma FourDigitShift(w: string, f: string)
    requires AllDigits(w) && AllDigits(f) && |f| == SCALE
    ensures AllDigits(w + f)
    ensures NatValue(w + f) == NatValue(w) * UNIT + NatValue(f)
  {
    NatValueConcat(w, f);
    PowOfScale();
  }

  /**
   * The unsigned parser reads `w.f` exactly: it is the numeral `w f` with the point moved
   * four places right, a short fraction padded with zeros and a long one cut.
   */
  lemma ParsesExactDecimal(s: string, w: string, f: string)
    requires AllDigits(w) && |w| > 0 && AllDigits(f) && s == w + "." + f
    ensures AllDigits(w + FracField(f))
    ensures ToScaledUnsigned(s) == Some(NatValue(w + FracField(f)))
  {
    hide NatValue, ToScaledUnsigned, Whole, Frac;
    DigitsHaveNoPoint(w);
    DigitsHaveNoPoint(f);
    FindInText(w, f);
    UnsignedOfParts(s, w, f);
    FourDigitShift(w, FracField(f));
  }

  function PrintedWhole(abs: nat): string { NatText(abs / UNIT) }

  function PrintedFrac(abs: nat): string { PadStart(NatText(abs % UNIT)) }

  /** What is printed for a magnitude: a digit-only whole part and a four-digit fraction. */
  lemma PrintedMagnitude(abs: nat)
    ensures var w, f := PrintedWhole(abs), PrintedFrac(abs);
            && AllDigits(w) && |w| > 0 && NatValue(w) == abs / UNIT
            && AllDigits(f) && FracField(f) == f && NatValue(f) == abs % UNIT
  {
    NatTextRoundTrip(abs / UNIT);
    PaddedFraction(abs % UNIT);
  }

  /** The unsigned parser on a printed magnitude, behind a minus sign or not. */
  lemma UnsignedOfPrinted(abs: nat, body: string)
    requires body == PrintedWhole(abs) + "." + PrintedFrac(abs)
    ensures body[0] != '-'
    ensures ToScaledUnsigned(body) == Some(abs)
    ensures ToScaledUnsigned("-" + body) == Some(-(abs / UNIT) * UNIT + abs % UNIT)
  {
    hide ToScaledUnsigned, Whole, Frac, FracField, NatValue, PrintedWhole, PrintedFrac;
    var w, f := PrintedWhole(abs), PrintedFrac(abs);
    PrintedMagnitude(abs);
    DigitsHaveNoPoint(w);
    DigitsHaveNoPoint(f);
    FindInText(w, f);
    UnsignedOfParts(body, w, f);
    SignShiftsParts(body);
    UnsignedOfParts("-" + body, w, f);
    assert body[0] == w[0];
  }

  lemma PrintedForm(v: int, body: string)
    requires var abs := if v < 0 then -v else v; body == PrintedWhole(abs) + "." + PrintedFrac(abs)
    ensures FromScaled(v) == if v < 0 then "-" + body else body
  {}

  /** Printing then reading with the sign-aware pair is the identity on every integer. */
  lemma SignedRoundTrip(v: int)
    ensures ToScaledSigned(FromScaled(v)) == Some(v)
  {
    var abs := if v < 0 then -v else v;
    var body := PrintedWhole(abs) + "." + PrintedFrac(abs);
    PrintedForm(v, body);
    UnsignedOfPrinted(abs, body);
    assert ("-" + body)[1..] == body;
  }

  /**
   * The unsigned parser reads a printed amount back exactly when the amount is
   * non-negative or whole; for a negative amount with a fraction the fraction is added
   * instead of subtracted.
   */
  lemma UnsignedRoundTripIff(v: int)
    ensures v < 0 ==>
      ToScaledUnsigned(FromScaled(v)) == Some(-(-v / UNIT) * UNIT + -v % UNIT)
    ensures ToScaledUnsigned(FromScaled(v)) == Some(v) <==> v >= 0 || -v % UNIT == 0
  {
    hide ToScaledUnsigned, FromScaled, PrintedWhole, PrintedFrac;
    var abs := if v < 0 then -v else v;
    var body := PrintedWhole(abs) + "." + PrintedFrac(abs);
    PrintedForm(v, body);
    UnsignedOfPrinted(abs, body);
  }

  lemma SignShiftsParts(rest: string)
    ensures Whole("-" + rest) == "-" + Whole(rest) && Frac("-" + rest) == Frac(rest)
  {
    hide Find, Whole, Frac;
    FindShift(rest, 0);
    SignIsNoPoint(rest);
    SignShiftsWhole(rest);
    SignShiftsFrac(rest);
  }

  lemma SignShiftsWhole(rest: string)
    requires Find("-" + rest, '.', 0) == 1 + Find(rest, '.', 0)
    ensures Whole("-" + rest) == "-" + Whole(rest)
  {
    hide Find;
    var i := Find(rest, '.', 0);
    assert ("-" + rest)[..i + 1] == "-" + rest[..i];
  }

  lemma SignShiftsFrac(rest: string)
    requires Find("-" + rest, '.', 0) == 1 + Find(rest, '.', 0)
    ensures Frac("-" + rest) == Frac(rest)
  {
    hide Find;
    var i, money := Find(rest, '.', 0), "-" + rest;
    if i < |rest| {
      FindShift(rest, i + 1);
      var j := Find(rest, '.', i + 1);
      ShiftSlice(rest, i + 1, j);
      assert Frac(rest) == rest[i + 1..j];
      assert Frac(money) == money[i + 2..j + 1];
    }
  }

  lemma ShiftSlice(rest: string, i: nat, j: nat)
    requires i <= j <= |rest|
    ensures ("-" + rest)[i + 1..j + 1] == rest[i..j]
  {}

  lemma SignIsNoPoint(rest: string)
    ensures Find("-" + rest, '.', 0) == Find("-" + rest, '.', 1)
  {}

  lemma {:induction false} FindShift(rest: string, from: nat)
    requires from <= |rest|
    ensures Find("-" + rest, '.', from + 1) == 1 + Find(rest, '.', from)
    decreases |rest| - from
  {
    if from < |rest| {
      assert ("-" + rest)[from + 1] == rest[from];
      if rest[from] != '.' { FindShift(rest, from + 1); }
    }
  }

  /** Behind a sign the whole part must be digits, with blanks after them only. */
  lemma SignedWhole(w: string)
    ensures var digits := TrimEnd(w);
            && BigInt("-" + w) == (if |digits| > 0 && AllDigits(digits) then Some(-NatValue(digits)) else None)
            && (|digits| > 0 && AllDigits(digits) ==> BigInt(w) == Some(NatValue(digits)))
  {
    hide NatValue, Literal, Trim, TrimEnd;
    var digits := TrimEnd(w);
    TrimSigned(w);
    SignedLiteral(digits);
    if |digits| > 0 && AllDigits(digits) {
      assert IsDigit(digits[0]);
      DigitLiterals(digits);
    }
  }

  lemma SignedLiteral(t: string)
    ensures Literal("-" + t) == Negated(Digits(t))
  {
    hide RadixLiteral, Radix, Digits, AllDigits;
    assert ("-" + t)[1..] == t;
  }

  lemma {:induction false} TrimSigned(w: string)
    ensures Trim("-" + w) == "-" + TrimEnd(w)
    ensures TrimEnd(w) != "" && !Blank(w[0]) ==> Trim(w) == TrimEnd(w)
  {
    TrimEndSigned(w);
  }

  lemma {:induction false} TrimEndSigned(w: string)
    ensures TrimEnd("-" + w) == "-" + TrimEnd(w)
  {
    if |w| > 0 {
      assert ("-" + w)[..|w|] == "-" + w[..|w| - 1];
      TrimEndSigned(w[..|w| - 1]);
    }
  }

  /**
   * The two parsers agree on a text exactly when it carries no sign, or its fraction field
   * is unreadable, or it is zero behind a whole part of digits and trailing blanks, or any
   * other whole part is unreadable by itself.
   */
  lemma ParsersAgreeIff(money: string)
    ensures ToScaledUnsigned(money) == ToScaledSigned(money) <==>
            || |money| == 0
            || money[0] != '-'
            || BigInt(FracField(Frac(money[1..]))).None?
            || (var w := Whole(money[1..]);
                var digits := TrimEnd(w);
                if |digits| > 0 && AllDigits(digits) then BigInt(FracField(Frac(money[1..]))) == Some(0)
                else BigInt(w).None?)
  {
    hide BigInt, Whole, Frac, FracField, NatValue;
    if |money| > 0 && money[0] == '-' {
      var rest := money[1..];
      assert money == "-" + rest;
      SignShiftsParts(rest);
      SignedWhole(Whole(rest));
    }
  }

  // ---- the accumulating sum -------------------------------------------------------

  predicate Readable(amounts: seq<string>) {
    forall i :: 0 <= i < |amounts| ==> ToScaledUnsigned(amounts[i]).Some?
  }

  function Values(amounts: seq<string>): (vs: seq<int>)
    requires Readable(amounts)
    ensures |vs| == |amounts|
  {
    seq(|amounts|, i requires 0 <= i < |amounts| => ToScaledUnsigned(amounts[i]).value)
  }

  lemma ValuesSnoc(amounts: seq<string>, i: nat)
    requires i < |amounts| && Readable(amounts[..i]) && ToScaledUnsigned(amounts[i]).Some?
    ensures Readable(amounts[..i + 1])
    ensures Sum(Values(amounts[..i + 1]))
         == Sum(Values(amounts[..i])) + ToScaledUnsigned(amounts[i]).value
  {
    hide ToScaledUnsigned;
    var a, b := amounts[..i], amounts[..i + 1];
    assert forall k :: 0 <= k < |b| ==> b[k] == if k < i then a[k] else amounts[i];
    assert Values(b)[..i] == Values(a);
  }

  /** `sumScaled`: throws (None) on the first unreadable amount, otherwise the exact sum. */
  method SumScaled(amounts: seq<string>) returns (r: Option<string>)
    ensures r.Some? <==> Readable(amounts)
    ensures r.Some? ==> ToScaledSigned(r.value) == Some(Sum(Values(amounts)))
    ensures r.Some? ==> r.value == FromScaled(Sum(Values(amounts)))
  {
    var total := 0;
    for i := 0 to |amounts|
      invariant Readable(amounts[..i])
      invariant total == Sum(Values(amounts[..i]))
    {
      var v := ToScaledUnsigned(amounts[i]);
      if v.None? { return None; }
      ValuesSnoc(amounts, i);
      total := total + v.value;
    }
    assert amounts[..|amounts|] == amounts;
    SignedRoundTrip(total);
    r := Some(FromScaled(total));
  }
}
