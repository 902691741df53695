/** Decimal printing and parsing: the signed NAV message of the price guard
    (contracts/price-guard/src/lib.rs) and the money strings of packages/domain-types/src/money.ts.
    A byte of the message is modelled as a character. */
module Decimals {
  import opened Prelude

  // ----- canonical decimals

  predicate IsDigit(c: char) {
    '0' <= c <= '9'
  }

  function Digit(d: nat): char
    requires d < 10
  {
    (d + 48) as char
  }

  function DigitValue(c: char): nat
    requires IsDigit(c)
  {
    c as int - 48
  }

  lemma DigitExact(d: nat)
    requires d < 10
    ensures Digit(d) == "0123456789"[d] && DigitValue(Digit(d)) == d
  {
  }

  predicate Digits(s: string) {
    forall i | 0 <= i < |s| :: IsDigit(s[i])
  }

  /** The shortest decimal of `n`. */
  function Dec(n: nat): string {
    if n < 10 then [Digit(n)] else Dec(n / 10) + [Digit(n % 10)]
  }

  function Parse(s: string): nat
    requires Digits(s)
  {
    if s == "" then 0 else Parse(s[..|s| - 1]) * 10 + DigitValue(s[|s| - 1])
  }

  lemma {:induction false} DecDigits(n: nat)
    ensures Dec(n) != "" && Digits(Dec(n))
  {
    if n >= 10 {
      DecDigits(n / 10);
    }
  }

  /** Parsing undoes printing. */
  lemma {:induction false} ParseDec(n: nat)
    ensures Digits(Dec(n)) && Parse(Dec(n)) == n
  {
    DecDigits(n);
    if n >= 10 {
      DecDigits(n / 10);
      ParseDec(n / 10);
      assert Dec(n)[..|Dec(n)| - 1] == Dec(n / 10);
    }
  }

  function Pow10(k: nat): nat {
    if k == 0 then 1 else 10 * Pow10(k - 1)
  }

  lemma {:induction false} DecLength(n: nat, k: nat)
    requires k > 0 && n < Pow10(k)
    ensures 1 <= |Dec(n)| <= k
  {
    if n >= 10 {
      DecLength(n / 10, k - 1);
    }
  }

  predicate Canonical(s: string) {
    s != "" && Digits(s) && (|s| > 1 ==> s[0] != '0')
  }

  lemma {:induction false} ParsePositive(s: string)
    requires Canonical(s) && |s| > 1
    ensures Parse(s) >= 10
  {
    var t := s[..|s| - 1];
    if |t| > 1 {
      ParsePositive(t);
    } else {
      assert t == [s[0]] && t[..0] == "";
    }
  }

  lemma {:induction false} DecStarts(n: nat)
    requires n > 0
    ensures Dec(n) != "" && Dec(n)[0] != '0'
  {
    if n >= 10 {
      DecStarts(n / 10);
    }
  }

  /** What is printed has no superfluous leading zero. */
  lemma DecCanonical(n: nat)
    ensures Canonical(Dec(n))
  {
    DecDigits(n);
    if n > 0 {
      DecStarts(n);
    }
  }

  /** Printing undoes parsing on strings without superfluous leading zeros. */
  lemma {:induction false} DecParse(s: string)
    requires Canonical(s)
    ensures Dec(Parse(s)) == s
  {
    var t, c := s[..|s| - 1], s[|s| - 1];
    assert s == t + [c];
    if t == "" {
      assert Parse(s) == DigitValue(c);
    } else {
      ParsePositive(s);
      DecParse(t);
    }
  }

  function SignedDec(n: int): string {
    if n < 0 then "-" + Dec(-n) else Dec(n)
  }

  function ParseSigned(s: string): int
    requires s != "" && Digits(if s[0] == '-' then s[1..] else s)
  {
    if s[0] == '-' then -(Parse(s[1..]) as int) else Parse(s)
  }

  lemma ParseSignedDec(n: int)
    ensures var s := SignedDec(n);
            s != "" && Digits(if s[0] == '-' then s[1..] else s) && ParseSigned(s) == n && ':' !in s
  {
    ParseDec(Abs(n));
    DecDigits(Abs(n));
    assert SignedDec(n)[0] == '-' ==> n < 0;
  }

  // ----- the digit loops, filling a fixed buffer from the back

  const U64_DIGITS: nat := 20
  const I128_DIGITS: nat := 40

  /** Writes the digits of `n` into `buf` ending just before `end`, and says where they begin. */
  method FillDigits(buf: array<char>, n: nat, end: nat) returns (i: nat)
    requires end <= buf.Length && |Dec(n)| <= end
    modifies buf
    ensures i + |Dec(n)| == end && buf[i..end] == Dec(n)
    ensures buf[end..] == old(buf[end..])
  {
    ghost var printed := Dec(n);
    i := end;
    var m: nat := n;
    if m == 0 {
      i := i - 1;
      buf[i] := '0';
    }
    while m > 0
      invariant i <= end
      invariant m > 0 ==> printed == Dec(m) + buf[i..end]
      invariant m == 0 ==> printed == buf[i..end]
      invariant buf[end..] == old(buf[end..])
      decreases m
    {
      DecDigits(m);
      ghost var tail := buf[i..end];
      i := i - 1;
      buf[i] := Digit(m % 10);
      assert buf[i..end] == [Digit(m % 10)] + tail;
      LastDigit(m, tail);
      m := m / 10;
    }
  }

  /** One turn of the digit loop moves one digit from what is left to what is written. */
  lemma LastDigit(m: nat, tail: string)
    requires m > 0
    ensures Dec(m) + tail == (if m < 10 then "" else Dec(m / 10)) + ([Digit(m % 10)] + tail)
  {
  }

  /** Twenty bytes are enough for every 64-bit unsigned value. */
  method U64ToBytes(n: nat) returns (bytes: string)
    requires n < 0x1_0000_0000_0000_0000
    ensures bytes == Dec(n)
  {
    Pow10Adds(10, 10);
    assert Pow10(10) == 10_000_000_000;
    DecLength(n, 20);
    var buf := new char[U64_DIGITS];
    var i := FillDigits(buf, n, U64_DIGITS);
    bytes := buf[i..];
  }

  /** Forty bytes are enough for every 128-bit signed value and its sign. */
  method I128ToBytes(n: int) returns (bytes: string)
    requires -0x8000_0000_0000_0000_0000_0000_0000_0000 <= n < 0x8000_0000_0000_0000_0000_0000_0000_0000
    ensures bytes == SignedDec(n)
  {
    var magnitude := Abs(n);
    assert magnitude < Pow10(39) by { Pow10Of39(); }
    DecLength(magnitude, 39);
    var buf := new char[I128_DIGITS];
    var i := FillDigits(buf, magnitude, I128_DIGITS);
    if n < 0 {
      ghost var digits := buf[i..];
      i := i - 1;
      buf[i] := '-';
      assert buf[i..] == "-" + digits;
    }
    bytes := buf[i..];
  }

  lemma {:induction false} Pow10Adds(a: nat, b: nat)
    ensures Pow10(a + b) == Pow10(a) * Pow10(b)
  {
    if a > 0 {
      Pow10Adds(a - 1, b);
      assert Pow10(a + b) == 10 * Pow10(a - 1 + b);
      assert 10 * (Pow10(a - 1) * Pow10(b)) == 10 * Pow10(a - 1) * Pow10(b);
    }
  }

  lemma Pow10Of39()
    ensures Pow10(39) == 1_000_000_000_000_000_000_000_000_000_000_000_000_000
  {
    assert Pow10(13) == 10_000_000_000_000;
    Pow10Adds(13, 13);
    Pow10Adds(26, 13);
  }

  // ----- the NAV message

  /** `{asset_code}:{ts}:{value}`, what an issuer signs. */
  function NavMessage(code: string, ts: nat, value: int): string {
    code + ":" + Dec(ts) + ":" + SignedDec(value)
  }

  method BuildNavMessage(code: string, ts: nat, value: int) returns (message: string)
    requires ts < 0x1_0000_0000_0000_0000
    requires -0x8000_0000_0000_0000_0000_0000_0000_0000 <= value < 0x8000_0000_0000_0000_0000_0000_0000_0000
    ensures message == NavMessage(code, ts, value)
  {
    message := code + ":";
    var t := U64ToBytes(ts);
    message := message + t;
    message := message + ":";
    var v := I128ToBytes(value);
    message := message + v;
  }

  /** The position of the last colon. */
  function LastColon(s: string): nat
    requires ':' in s
    ensures LastColon(s) < |s| && s[LastColon(s)] == ':'
  {
    if s[|s| - 1] == ':' then |s| - 1 else LastColon(s[..|s| - 1])
  }

  lemma {:induction false} LastColonSplits(a: string, b: string)
    requires ':' !in b
    ensures ':' in a + ":" + b && LastColon(a + ":" + b) == |a|
  {
    var s := a + ":" + b;
    assert s[|a|] == ':';
    if b != "" {
      LastColonSplits(a, b[..|b| - 1]);
      assert s[..|s| - 1] == a + ":" + b[..|b| - 1];
      assert s[|s| - 1] == b[|b| - 1];
    }
  }

  /** Reads a message from the right: the value, then the time, and whatever is left is the code. */
  function ReadNav(s: string): Option<(string, nat, int)> {
    if ':' !in s then None else
      var p := LastColon(s);
      var head, v := s[..p], s[p + 1..];
      if ':' !in head then None else
        var q := LastColon(head);
        var t := head[q + 1..];
        if Digits(t) && v != "" && Digits(if v[0] == '-' then v[1..] else v)
        then Some((head[..q], Parse(t), ParseSigned(v)))
        else None
  }

  /** Every message can be read back, whatever colons the asset code contains. */
  lemma NavMessageReadsBack(code: string, ts: nat, value: int)
    ensures ReadNav(NavMessage(code, ts, value)) == Some((code, ts, value))
  {
    ParseSignedDec(value);
    ParseDec(ts);
    DecDigits(ts);
    var head := code + ":" + Dec(ts);
    LastColonSplits(head, SignedDec(value));
    LastColonSplits(code, Dec(ts));
    var s := NavMessage(code, ts, value);
    assert s == head + ":" + SignedDec(value);
    assert s[..|head|] == head && s[|head| + 1..] == SignedDec(value);
    assert head[..|code|] == code && head[|code| + 1..] == Dec(ts);
  }

  /** So different readings, of code, time and value together, are always signed as different messages. */
  lemma NavMessageInjective(code: string, ts: nat, value: int, code': string, ts': nat, value': int)
    requires NavMessage(code, ts, value) == NavMessage(code', ts', value')
    ensures code == code' && ts == ts' && value == value'
  {
    NavMessageReadsBack(code, ts, value);
    NavMessageReadsBack(code', ts', value');
  }

  // ----- money strings

  function Zeros(k: nat): string {
    seq(k, _ => '0')
  }

  function PadStart(s: string, k: nat): string {
    if |s| >= k then s else Zeros(k - |s|) + s
  }

  function ScaledToDecimalString(raw: int): Result<string> {
    if raw < 0 then Revert else
    Done(Dec(raw / PRICE_SCALE) + "." + PadStart(Dec(raw % PRICE_SCALE), 7))
  }

  function IndexOf(s: string, c: char): (i: nat)
    ensures i <= |s| && (forall k | 0 <= k < i :: s[k] != c) && (i < |s| ==> s[i] == c)
  {
    if s == "" || s[0] == c then 0 else 1 + IndexOf(s[1..], c)
  }

  /** The text before the first dot, and the text between it and the next. */
  function SplitAtDot(s: string): (string, string) {
    var i := IndexOf(s, '.');
    if i == |s| then (s, "") else
      var rest := s[i + 1..];
      (s[..i], rest[..IndexOf(rest, '.')])
  }

  function ParseWhole(s: string): Result<int> {
    if !Digits(s) then Revert else
    Done(Parse(s))
  }

  /** The first seven digits after the dot, zeros standing in for any that are missing. */
  function Fraction(f: string): (p: string)
    ensures |p| == 7 && (Digits(f) ==> Digits(p))
  {
    (f + Zeros(7))[..7]
  }

  function Signed(negative: bool, amount: int): int {
    if negative then -amount else amount
  }

  function ScaleParts(negative: bool, wholePart: string, fracPart: string): Result<int> {
    var whole :- ParseWhole(wholePart);
    var frac :- ParseWhole(Fraction(fracPart));
    Done(Signed(negative, whole * PRICE_SCALE + frac))
  }

  function DecimalStringToScaled(decimal: string): Result<int> {
    var negative := decimal != "" && decimal[0] == '-';
    var unsigned := if negative then decimal[1..] else decimal;
    var (wholePart, fracPart) := SplitAtDot(unsigned);
    ScaleParts(negative, wholePart, fracPart)
  }

  lemma {:induction false} ParseZeros(k: nat, s: string)
    requires Digits(s)
    ensures Digits(Zeros(k) + s) && Parse(Zeros(k) + s) == Parse(s)
    decreases |s|, k
  {
    var z := Zeros(k) + s;
    if s != "" {
      ParseZeros(k, s[..|s| - 1]);
      assert z[..|z| - 1] == Zeros(k) + s[..|s| - 1];
    } else if k > 0 {
      ParseZeros(k - 1, "");
      assert z[..|z| - 1] == Zeros(k - 1) + "";
    }
  }

  lemma {:induction false} FirstDot(w: string, f: string)
    requires Digits(w)
    ensures IndexOf(w + "." + f, '.') == |w|
  {
    if w != "" {
      FirstDot(w[1..], f);
      assert (w + "." + f)[1..] == w[1..] + "." + f;
      assert (w + "." + f)[0] == w[0];
    }
  }

  lemma {:induction false} NoDot(f: string)
    requires Digits(f)
    ensures IndexOf(f, '.') == |f|
  {
    if f != "" {
      NoDot(f[1..]);
    }
  }

  lemma DotFree(w: string, f: string)
    requires Digits(w) && Digits(f)
    ensures SplitAtDot(w + "." + f) == (w, f)
  {
    var s := w + "." + f;
    FirstDot(w, f);
    NoDot(f);
    assert s[..|w|] == w && s[|w| + 1..] == f && f[..|f|] == f;
  }

  lemma UnsignedParts(s: string, w: string, f: string)
    requires Digits(w) && Digits(f) && s == w + "." + f
    ensures DecimalStringToScaled(s) == ScaleParts(false, w, f)
  {
    DotFree(w, f);
    assert s[0] != '-' by { if w != "" { assert s[0] == w[0]; } }
  }

  lemma NegativeParts(s: string, w: string, f: string)
    requires Digits(w) && Digits(f) && s == "-" + (w + "." + f)
    ensures DecimalStringToScaled(s) == ScaleParts(true, w, f)
  {
    DotFree(w, f);
    assert s[1..] == w + "." + f;
  }

  lemma PartsScale(negative: bool, w: string, f: string, p: string)
    requires Digits(w) && Digits(f) && p == Fraction(f)
    ensures ScaleParts(negative, w, f) == Done(Signed(negative, Parse(w) * PRICE_SCALE + Parse(p)))
  {
  }

  /** `p` is the first seven digits of `f`, zeros standing in for any that are missing. */
  predicate SevenOf(p: string, f: string) {
    |p| == 7 && forall k | 0 <= k < 7 :: p[k] == if k < |f| then f[k] else '0'
  }

  lemma SevenIsFraction(p: string, f: string)
    requires SevenOf(p, f)
    ensures p == Fraction(f)
  {
  }

  /** What a decimal with a dot means: its whole part times ten million, plus its first seven fractional digits,
      negated as a whole under a minus sign. */
  lemma DecimalMeans(s: string, negative: bool, w: string, f: string, p: string)
    requires Digits(w) && Digits(f) && SevenOf(p, f)
    requires if negative then s == "-" + (w + "." + f) else s == w + "." + f
    ensures Digits(p)
    ensures DecimalStringToScaled(s) ==
            Done(if negative then -(Parse(w) * 10_000_000 + Parse(p)) else Parse(w) * 10_000_000 + Parse(p))
  {
    SevenIsFraction(p, f);
    PartsScale(negative, w, f, p);
    if negative { NegativeParts(s, w, f); } else { UnsignedParts(s, w, f); }
  }

  /** And one without a dot is all whole part. */
  lemma WholeMeans(s: string, negative: bool, w: string)
    requires Digits(w) && s == if negative then "-" + w else w
    ensures DecimalStringToScaled(s) == Done(if negative then -(Parse(w) * 10_000_000) else Parse(w) * 10_000_000)
  {
    NoDot(w);
    assert w != "" ==> w[0] != '-';
    assert negative ==> s[1..] == w;
    PartsScale(negative, w, "", Fraction(""));
    ParseZeros(7, "");
    assert Fraction("") == Zeros(7) + "";
  }

  lemma SevenDigits(s: string, w: string, f: string)
    requires Digits(w) && Digits(f) && |f| == 7 && s == w + "." + f
    ensures DecimalStringToScaled(s) == Done(Parse(w) * PRICE_SCALE + Parse(f))
  {
    DecimalMeans(s, false, w, f, f);
  }

  /** What printing makes of an amount given as whole units and a remainder. */
  lemma PrintsParts(a: nat, b: nat, f: string)
    requires b < PRICE_SCALE && PadStart(Dec(b), 7) == f
    ensures ScaledToDecimalString(a * PRICE_SCALE + b) == Done(Dec(a) + "." + f)
  {
    assert (a * PRICE_SCALE + b) / PRICE_SCALE == a && (a * PRICE_SCALE + b) % PRICE_SCALE == b;
  }

  lemma ScaleIsSevenDigits()
    ensures Pow10(7) == PRICE_SCALE
  {
    assert Pow10(4) == 10_000 && Pow10(3) == 1_000;
    Pow10Adds(4, 3);
  }

  lemma Padded(b: nat)
    requires b < PRICE_SCALE
    ensures var f := PadStart(Dec(b), 7); |f| == 7 && Digits(f) && Parse(f) == b
  {
    ScaleIsSevenDigits();
    DecLength(b, 7);
    ParseDec(b);
    ParseZeros(7 - |Dec(b)|, Dec(b));
    assert PadStart(Dec(b), 7) == Zeros(7 - |Dec(b)|) + Dec(b);
  }

  /** Every amount survives the trip through its decimal string. */
  lemma MoneyRoundTrip(n: nat) returns (s: string)
    ensures ScaledToDecimalString(n) == Done(s) && DecimalStringToScaled(s) == Done(n)
  {
    var a, b := n / PRICE_SCALE, n % PRICE_SCALE;
    var f := PadStart(Dec(b), 7);
    Padded(b);
    PrintsParts(a, b, f);
    ParseDec(a);
    s := Dec(a) + "." + f;
    SevenDigits(s, Dec(a), f);
  }

  /** And every canonical seven-digit string survives the trip through its amount. */
  lemma StringRoundTrip(w: string, f: string) returns (n: nat)
    requires Canonical(w) && Digits(f) && |f| == 7
    ensures DecimalStringToScaled(w + "." + f) == Done(n) && ScaledToDecimalString(n) == Done(w + "." + f)
  {
    ScaleIsSevenDigits();
    ParseBound(f);
    PadParse(f);
    PrintsParts(Parse(w), Parse(f), f);
    DecParse(w);
    SevenDigits(w + "." + f, w, f);
    n := Parse(w) * PRICE_SCALE + Parse(f);
  }

  lemma {:induction false} ParseBound(s: string)
    requires Digits(s)
    ensures Parse(s) < Pow10(|s|)
  {
    if s != "" {
      ParseBound(s[..|s| - 1]);
    }
  }

  /** Padding restores exactly the zeros that printing drops. */
  lemma {:induction false} PadParse(s: string)
    requires s != "" && Digits(s)
    ensures PadStart(Dec(Parse(s)), |s|) == s
  {
    if |s| == 1 {
      assert s[..0] == "" && Parse(s) == DigitValue(s[0]);
    } else {
      var t, c := s[..|s| - 1], s[|s| - 1];
      PadParse(t);
      assert s == t + [c];
      if Parse(t) == 0 {
        ZerosOnly(t);
        assert Dec(Parse(s)) == [c];
      } else {
        assert Dec(Parse(s)) == Dec(Parse(t)) + [c];
      }
    }
  }

  lemma {:induction false} ZerosOnly(s: string)
    requires Digits(s) && Parse(s) == 0
    ensures s == Zeros(|s|)
  {
    if s != "" {
      ZerosOnly(s[..|s| - 1]);
      assert s == s[..|s| - 1] + [s[|s| - 1]];
    }
  }
}
