/** `get_decimals` takes the fraction of a decimal through its text form: print,
    split at the dot, parse "0." plus the digits behind it. Printing and parsing
    follow `Decimal` of cosmwasm-std 0.16. */
module DecimalText {
  import opened Decimals

  datatype ParseError = UnexpectedDots | BadDigits | TooManyDigits

  const PLACES: nat := 18

  function Pow10(n: nat): nat {
    if n == 0 then 1 else 10 * Pow10(n - 1)
  }

  function DigitChar(d: nat): char
    requires d < 10
  {
    '0' + d as char
  }

  predicate IsDigit(c: char) {
    '0' <= c <= '9'
  }

  predicate AllDigits(s: string) {
    forall i :: 0 <= i < |s| ==> IsDigit(s[i])
  }

  /** The number a string of digits denotes. */
  function Value(s: string): nat
    requires AllDigits(s)
  {
    if |s| == 0 then 0 else Value(s[..|s| - 1]) * 10 + (s[|s| - 1] as int - '0' as int)
  }

  /** `Uint128` as text. */
  function Print(n: nat): (s: string)
    ensures AllDigits(s) && |s| > 0
  {
    if n < 10 then [DigitChar(n)] else Print(n / 10) + [DigitChar(n % 10)]
  }

  /** The last `width` digits, zeros included. */
  function Padded(n: nat, width: nat): (s: string)
    ensures AllDigits(s) && |s| == width
    decreases width
  {
    if width == 0 then "" else Padded(n / 10, width - 1) + [DigitChar(n % 10)]
  }

  function TrimZeros(s: string): string {
    if |s| > 0 && s[|s| - 1] == '0' then TrimZeros(s[..|s| - 1]) else s
  }

  function Display(v: nat): string {
    if v % ONE == 0 then Print(v / ONE) else Print(v / ONE) + "." + TrimZeros(Padded(v % ONE, PLACES))
  }

  function FirstDot(s: string): (i: nat)
    ensures i <= |s| && (forall j :: 0 <= j < i ==> s[j] != '.') && (i < |s| ==> s[i] == '.')
  {
    if |s| == 0 || s[0] == '.' then 0 else 1 + FirstDot(s[1..])
  }

  function SplitDots(s: string): seq<string>
    decreases |s|
  {
    var i := FirstDot(s);
    if i == |s| then [s] else [s[..i]] + SplitDots(s[i + 1..])
  }

  function ParseNat(s: string): Result<nat, ParseError> {
    if |s| > 0 && AllDigits(s) then Ok(Value(s)) else Err(BadDigits)
  }

  /** `Decimal::from_str`. */
  function ParseDecimal(s: string): Result<nat, ParseError> {
    var parts := SplitDots(s);
    if |parts| == 0 then Err(BadDigits)
    else match ParseNat(parts[0])
      case Err(e) => Err(e)
      case Ok(whole) =>
        if |parts| == 1 then Ok(whole * ONE)
        else match ParseNat(parts[1])
          case Err(e) => Err(e)
          case Ok(fraction) =>
            if |parts[1]| > PLACES then Err(TooManyDigits)
            else if |parts| > 2 then Err(UnexpectedDots)
            else Ok(whole * ONE + fraction * Pow10(PLACES - |parts[1]|))
  }

  function GetDecimals(v: nat): Result<nat, ParseError> {
    var parts := SplitDots(Display(v));
    if |parts| == 1 then Ok(0)
    else if |parts| == 2 then ParseDecimal("0." + parts[1])
    else Err(UnexpectedDots)
  }

  // ------------------------------------------------------------------ proof

  lemma DigitsHaveNoDot(s: string)
    requires AllDigits(s)
    ensures FirstDot(s) == |s|
  {
  }

  lemma SplitOnce(a: string, b: string)
    requires AllDigits(a) && AllDigits(b)
    ensures SplitDots(a + "." + b) == [a, b]
  {
    var s := a + "." + b;
    assert s[|a|] == '.';
    assert forall j :: 0 <= j < |a| ==> s[j] == a[j] && IsDigit(a[j]);
    assert FirstDot(s) == |a|;
    assert s[..|a|] == a && s[|a| + 1..] == b;
    DigitsHaveNoDot(b);
  }

  lemma {:induction false} PaddedValue(n: nat, width: nat)
    requires n < Pow10(width)
    ensures Value(Padded(n, width)) == n
    decreases width
  {
    if width == 0 {
    } else {
      PaddedValue(n / 10, width - 1);
      var s := Padded(n, width);
      assert s[..|s| - 1] == Padded(n / 10, width - 1);
      assert s[|s| - 1] as int - '0' as int == n % 10;
    }
  }

  /** Trimming zeros divides the value by a power of ten and nothing else. */
  lemma {:induction false} TrimValue(s: string)
    requires AllDigits(s)
    ensures var t := TrimZeros(s);
      && AllDigits(t) && |t| <= |s|
      && Value(s) == Value(t) * Pow10(|s| - |t|)
  {
    if |s| > 0 && s[|s| - 1] == '0' {
      var front := s[..|s| - 1];
      TrimValue(front);
      var t := TrimZeros(front);
      assert Value(s) == Value(front) * 10;
      TenMore(Value(t), |front| - |t|);
    }
  }

  lemma TenMore(x: nat, n: nat)
    ensures x * Pow10(n) * 10 == x * Pow10(n + 1)
  {
    assert Pow10(n + 1) == 10 * Pow10(n);
  }

  lemma OneIsPow10()
    ensures Pow10(PLACES) == ONE
  {
    assert Pow10(6) == 1_000_000;
    assert Pow10(12) == 1_000_000_000_000;
  }

  lemma ParseFraction(t: string)
    requires AllDigits(t) && 0 < |t| <= PLACES
    ensures ParseDecimal("0." + t) == Ok(Value(t) * Pow10(PLACES - |t|))
  {
    hide SplitDots, Pow10, Value;
    assert "0" + "." + t == "0." + t;
    SplitOnce("0", t);
    ZeroValue();
  }

  lemma ZeroValue()
    ensures AllDigits("0") && Value("0") == 0
  {
  }

  /** Through the text, the fraction comes out exactly, for every decimal. */
  lemma GetDecimalsIsRemainder(v: nat)
    ensures GetDecimals(v) == Ok(v % ONE)
  {
    hide Print, Padded, TrimZeros, ParseDecimal, Value;
    if v % ONE == 0 {
      DigitsHaveNoDot(Print(v / ONE));
    } else {
      var f := v % ONE;
      var t := TrimZeros(Padded(f, PLACES));
      OneIsPow10();
      PaddedValue(f, PLACES);
      TrimValue(Padded(f, PLACES));
      EmptyValue(t);
      SplitOnce(Print(v / ONE), t);
      ParseFraction(t);
    }
  }

  lemma EmptyValue(t: string)
    requires AllDigits(t)
    ensures |t| == 0 ==> Value(t) == 0
  {
  }

  /** Whole units and stored fraction rebuild the value. */
  lemma WholeAndFractionRebuild(v: nat)
    ensures GetDecimals(v).Ok? && Times(1, v) * ONE + GetDecimals(v).value == v
  {
    GetDecimalsIsRemainder(v);
    assert 1 * v == v;
  }
}
