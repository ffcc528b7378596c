/** Decimal strings and fixed-point amounts.
    FLOP amounts carry 8 decimal places, WFLOP amounts 18; both are integers
    in minor units here. The handler turns an 8-decimal FLOP amount into WFLOP
    minor units by printing it with 8 decimals, trimming trailing zeros and
    parsing the result with 18 decimals. */
module Decimal {
  import opened Wrappers

  predicate IsDigit(c: char) { '0' <= c <= '9' }

  predicate AllDigits(s: string) { forall i :: 0 <= i < |s| ==> IsDigit(s[i]) }

  function DigitValue(c: char): nat
    requires IsDigit(c)
  {
    c as int - '0' as int
  }

  function DigitChar(d: nat): (c: char)
    requires d < 10
    ensures IsDigit(c) && DigitValue(c) == d
  {
    ('0' as int + d) as char
  }

  function Pow10(n: nat): (r: nat)
    ensures r > 0
  {
    if n == 0 then 1 else 10 * Pow10(n - 1)
  }

  /** FLOP precision and the factor between the two chains' minor units. */
  const FlopDecimals: nat := 8
  const WflopDecimals: nat := 18

  /** 10^(18-8): WFLOP minor units per FLOP minor unit. */
  const WflopScale: nat := 10_000_000_000

  lemma WflopScaleIsPow10()
    ensures WflopScale == Pow10(WflopDecimals - FlopDecimals)
  {
    assert Pow10(10) == 10000000000;
  }

  /** The number a digit string denotes, most significant digit first;
      the empty string denotes 0. */
  function Value(s: string): nat
    requires AllDigits(s)
  {
    if s == "" then 0 else Value(s[..|s| - 1]) * 10 + DigitValue(s[|s| - 1])
  }

  /** Shortest decimal notation of n, as JavaScript prints the integer part. */
  function DecimalString(n: nat): (s: string)
    ensures s != "" && AllDigits(s) && '.' !in s
    ensures |s| == 1 || s[0] != '0'
    ensures Value(s) == n
  {
    if n < 10 then [DigitChar(n)]
    else
      var s := DecimalString(n / 10) + [DigitChar(n % 10)];
      assert s[..|s| - 1] == DecimalString(n / 10);
      s
  }

  /** The lowest `width` decimal digits of r, zero-padded on the left. */
  function Fixed(r: nat, width: nat): (s: string)
    ensures |s| == width && AllDigits(s) && '.' !in s
    ensures r < Pow10(width) ==> Value(s) == r
  {
    if width == 0 then ""
    else
      var s := Fixed(r / 10, width - 1) + [DigitChar(r % 10)];
      assert s[..|s| - 1] == Fixed(r / 10, width - 1);
      s
  }

  /** `Number(x).toFixed(8)` for an amount x that is exact at 8 decimals,
      given as u = x * 10^8 minor units. */
  function ToFixed(u: nat): (s: string)
  {
    var w := DecimalString(u / Pow10(FlopDecimals));
    var f := Fixed(u % Pow10(FlopDecimals), FlopDecimals);
    w + "." + f
  }

  /** Length of the run of '0' characters that ends the string. */
  function TrailingZeroCount(s: string): (n: nat)
    ensures n <= |s|
  {
    if s != "" && s[|s| - 1] == '0' then 1 + TrailingZeroCount(s[..|s| - 1]) else 0
  }

  /** `s.replace(/\.?0+$/, "")`: drop the trailing zeros, and the dot before
      them when nothing but zeros follows it. */
  function TrimTrailingZeros(s: string): string
  {
    var p := |s| - TrailingZeroCount(s);
    if p == |s| then s
    else if p > 0 && s[p - 1] == '.' then s[..p - 1]
    else s[..p]
  }

  /** The strip keeps a prefix and leaves the string alone exactly when it
      does not end in '0'; what it removes is zeros, led by at most one dot,
      and it removes the longest such run (the leftmost match of the
      pattern): a kept prefix never ends in '0' or '.' before a dropped zero. */
  lemma TrimTrailingZerosSpec(s: string)
    ensures var t := TrimTrailingZeros(s);
            |t| <= |s| && t == s[..|t|]
            && (t == s <==> s == "" || s[|s| - 1] != '0')
            && (forall i :: |t| <= i < |s| ==> s[i] == '0' || (i == |t| && s[i] == '.'))
            && (|t| < |s| && s[|t|] == '0' && t != "" ==> t[|t| - 1] != '0' && t[|t| - 1] != '.')
  {
    TrailingZeroCountSpec(s);
  }

  /** Position of the first occurrence of c. */
  function IndexOf(s: string, c: char): (r: Option<nat>)
    ensures r.Some? ==> r.value < |s| && s[r.value] == c && forall i :: 0 <= i < r.value ==> s[i] != c
    ensures r.None? ==> forall i :: 0 <= i < |s| ==> s[i] != c
  {
    if s == "" then None
    else if s[0] == c then Some(0)
    else match IndexOf(s[1..], c)
      case None => None
      case Some(k) => Some(k + 1)
  }

  predicate IsDecimalChar(c: char) { IsDigit(c) || c == '.' }

  predicate AllDecimalChars(s: string) { forall i :: 0 <= i < |s| ==> IsDecimalChar(s[i]) }

  /** ethers' `parseUnits(s, decimals)` for an unsigned decimal string: at
      most one dot, an empty whole part reads as 0, trailing zeros of the
      fraction are dropped, and a fraction longer than `decimals` is refused.
      None stands for the exception ethers throws. */
  function ParseUnits(s: string, decimals: nat): (r: Option<nat>)
    ensures r.Some? ==> s != "" && s != "." && AllDecimalChars(s)
    ensures s != "" && AllDigits(s) ==> r == Some(Value(s) * Pow10(decimals))
  {
    if s == "" || s == "." || !AllDecimalChars(s) then None
    else match IndexOf(s, '.')
      case None => ParseParts(s, "", decimals)
      case Some(k) => ParseParts(s[..k], s[k + 1..], decimals)
  }

  /** The whole part and the text after the first dot: a second dot is
      refused, and so is a fraction with more than `decimals` significant
      places. */
  function ParseParts(whole: string, fraction: string, decimals: nat): (r: Option<nat>)
    requires AllDigits(whole) && AllDecimalChars(fraction)
  {
    if '.' in fraction then None
    else
      var f := fraction[..|fraction| - TrailingZeroCount(fraction)];
      if |f| > decimals then None
      else Some(Scaled(whole, f, decimals))
  }

  /** The minor units of "W.F" at `decimals` places, for digit strings W and F
      with F no longer than `decimals`. */
  function Scaled(whole: string, f: string, decimals: nat): nat
    requires AllDigits(whole) && AllDigits(f) && |f| <= decimals
  {
    Value(whole) * Pow10(decimals) + Value(f) * Pow10(decimals - |f|)
  }

  /** The FLOP amount (8 decimals) sent out for `b` burned WFLOP minor units,
      truncated so that the payout never exceeds what was burned. */
  function CoinUnits(b: nat): (c: nat)
    ensures c * WflopScale <= b < (c + 1) * WflopScale
  {
    b / WflopScale
  }

  /** The reverse conversion as the handler writes it,
      `Number(formatUnits(b, 18)).toFixed(8)`, idealised as rounding to the
      nearest 8-decimal value (half up), without binary floating point. */
  function RoundedCoinUnits(b: nat): (c: nat)
    ensures c * Pow10(WflopDecimals - FlopDecimals) <= b + Pow10(WflopDecimals - FlopDecimals) / 2
    ensures b + Pow10(WflopDecimals - FlopDecimals) / 2 < (c + 1) * Pow10(WflopDecimals - FlopDecimals)
  {
    (b + Pow10(WflopDecimals - FlopDecimals) / 2) / Pow10(WflopDecimals - FlopDecimals)
  }

  // ---------------------------------------------------------------------
  // Lemmas

  lemma {:induction false} Pow10Add(a: nat, b: nat)
    ensures Pow10(a + b) == Pow10(a) * Pow10(b)
  {
    if b > 0 {
      Pow10Add(a, b - 1);
      calc {
        Pow10(a + b);
        10 * Pow10(a + b - 1);
        10 * (Pow10(a) * Pow10(b - 1));
        Pow10(a) * (10 * Pow10(b - 1));
        Pow10(a) * Pow10(b);
      }
    }
  }

  lemma {:induction false} ValueAppend(a: string, b: string)
    requires AllDigits(a) && AllDigits(b)
    ensures AllDigits(a + b)
    ensures Value(a + b) == Value(a) * Pow10(|b|) + Value(b)
  {
    if b == "" {
      assert a + b == a;
    } else {
      var b' := b[..|b| - 1];
      assert (a + b)[..|a + b| - 1] == a + b';
      ValueAppend(a, b');
      AppendDigitArith(Value(a), Pow10(|b'|), Value(b'), DigitValue(b[|b| - 1]));
    }
  }

  lemma AppendDigitArith(x: nat, p: nat, y: nat, d: nat)
    ensures (x * p + y) * 10 + d == x * (p * 10) + (y * 10 + d)
  {
    MulDistrib(x * p, y, 10);
    MulAssoc(x, p, 10);
  }

  lemma {:induction false} ValueOfZeros(s: string)
    requires forall i :: 0 <= i < |s| ==> s[i] == '0'
    ensures AllDigits(s) && Value(s) == 0
  {
    if s != "" {
      ValueOfZeros(s[..|s| - 1]);
    }
  }

  /** Dropping n trailing zeros divides the value by 10^n. */
  lemma TrailingZerosScale(s: string, n: nat)
    requires AllDigits(s) && n <= |s|
    requires forall i :: |s| - n <= i < |s| ==> s[i] == '0'
    ensures Value(s) == Value(s[..|s| - n]) * Pow10(n)
  {
    var head, tail := s[..|s| - n], s[|s| - n..];
    assert s == head + tail;
    ValueOfZeros(tail);
    ValueAppend(head, tail);
  }

  /** The trailing-zero count is the length of a '0' suffix not preceded by a '0'... */
  lemma {:induction false} TrailingZeroCountSpec(s: string)
    ensures var n := TrailingZeroCount(s);
            (forall i :: |s| - n <= i < |s| ==> s[i] == '0') && (n < |s| ==> s[|s| - 1 - n] != '0')
  {
    if s != "" && s[|s| - 1] == '0' {
      var s' := s[..|s| - 1];
      TrailingZeroCountSpec(s');
      assert forall i :: 0 <= i < |s'| ==> s'[i] == s[i];
    }
  }

  /** ...and the only one. */
  lemma {:induction false} TrailingZeroCountIs(s: string, n: nat)
    requires n <= |s|
    requires forall i :: |s| - n <= i < |s| ==> s[i] == '0'
    requires n < |s| ==> s[|s| - 1 - n] != '0'
    ensures TrailingZeroCount(s) == n
  {
    if n > 0 {
      var s' := s[..|s| - 1];
      assert s[|s| - 1] == '0';
      assert forall i :: |s'| - (n - 1) <= i < |s'| ==> s'[i] == s[i];
      if n - 1 < |s'| { assert s'[|s'| - 1 - (n - 1)] == s[|s| - 1 - n]; }
      TrailingZeroCountIs(s', n - 1);
    }
  }

  lemma {:induction false} IndexOfIs(s: string, c: char, k: nat)
    requires k < |s| && s[k] == c
    requires forall i :: 0 <= i < k ==> s[i] != c
    ensures IndexOf(s, c) == Some(k)
  {
    if k > 0 {
      assert s[0] != c;
      assert forall i :: 0 <= i < k - 1 ==> s[1..][i] == s[i + 1];
      IndexOfIs(s[1..], c, k - 1);
    }
  }

  /** "W.F" for digit strings W (non-empty) and F: every character is a digit
      or the dot, and the first dot separates W from F. */
  lemma DottedShape(w: string, frac: string)
    requires w != "" && AllDigits(w) && AllDigits(frac)
    ensures var s := w + "." + frac;
            s != "" && s != "." && AllDecimalChars(s)
            && IndexOf(s, '.') == Some(|w|) && s[..|w|] == w && s[|w| + 1..] == frac
            && '.' !in frac
  {
    var s := w + "." + frac;
    forall i | 0 <= i < |s| ensures IsDecimalChar(s[i]) && (i < |w| ==> s[i] != '.') {
      if i < |w| { assert s[i] == w[i]; }
      else if i > |w| { assert s[i] == frac[i - |w| - 1]; }
    }
    IndexOfIs(s, '.', |w|);
    assert s[..|w|] == w;
    assert s[|w| + 1..] == frac;
    forall i | 0 <= i < |frac| ensures frac[i] != '.' { assert IsDigit(frac[i]); }
  }

  /** Parsing "W.F": the trailing zeros of F do not count. */
  lemma ParseDotted(w: string, frac: string, decimals: nat)
    requires w != "" && AllDigits(w) && AllDigits(frac)
    requires |frac| - TrailingZeroCount(frac) <= decimals
    ensures var f := frac[..|frac| - TrailingZeroCount(frac)];
            ParseUnits(w + "." + frac, decimals) == Some(Scaled(w, f, decimals))
  {
    DottedShape(w, frac);
  }

  /** Parsing a string of digits only. */
  lemma ParseWhole(w: string, decimals: nat)
    requires w != "" && AllDigits(w)
    ensures ParseUnits(w, decimals) == Some(Scaled(w, "", decimals))
  {
    assert IsDigit(w[0]);
    forall i | 0 <= i < |w| ensures w[i] != '.' { assert IsDigit(w[i]); }
    var empty: string := "";
    assert empty[..0] == "";
  }

  /** The pieces of `ToFixed(u)` for the proofs below: the fraction F and the
      prefix Fn of F left once its trailing zeros are dropped. */
  lemma FixedParts(u: nat) returns (w: string, frac: string, n: nat)
    ensures ToFixed(u) == w + "." + frac
    ensures w == DecimalString(u / Pow10(FlopDecimals)) && Value(w) == u / Pow10(FlopDecimals)
    ensures |frac| == 8 && AllDigits(frac) && Value(frac) == u % Pow10(FlopDecimals)
    ensures n == TrailingZeroCount(frac) && n <= 8
    ensures Value(frac) == Value(frac[..8 - n]) * Pow10(n)
    ensures n < 8 ==> frac[8 - n - 1] != '0'
    ensures n == 8 ==> Value(frac) == 0
  {
    w := DecimalString(u / Pow10(FlopDecimals));
    frac := Fixed(u % Pow10(FlopDecimals), FlopDecimals);
    n := TrailingZeroCount(frac);
    TrailingZeroCountSpec(frac);
    TrailingZerosScale(frac, n);
    if n == 8 {
      ValueOfZeros(frac);
    }
  }

  /** The 8-decimal string for u reads back, at any precision d >= 8, as
      u scaled by 10^(d - 8). */
  lemma ParseToFixed(u: nat, d: nat)
    requires d >= FlopDecimals
    ensures ParseUnits(ToFixed(u), d) == Some(u * Pow10(d - FlopDecimals))
  {
    var w, frac, n := FixedParts(u);
    ParseDotted(w, frac, d);
    ScaledFixed(u, w, frac[..8 - n], n, d);
  }

  /** "W.F" at d places is u scaled by 10^(d - 8) when W and F * 10^n are the
      quotient and remainder of u by 10^8 and F has 8 - n digits. */
  lemma ScaledFixed(u: nat, w: string, f: string, n: nat, d: nat)
    requires AllDigits(w) && AllDigits(f) && n <= 8 <= d && |f| == 8 - n
    requires Value(w) == u / Pow10(8) && u % Pow10(8) == Value(f) * Pow10(n)
    ensures Scaled(w, f, d) == u * Pow10(d - 8)
  {
    ScaleSum(u, Value(w), Value(f), n, d);
  }

  lemma MulAssoc(a: nat, b: nat, c: nat)
    ensures a * (b * c) == (a * b) * c
  {
  }

  lemma MulDistrib(a: nat, b: nat, c: nat)
    ensures a * c + b * c == (a + b) * c
  {
  }

  /** Arithmetic behind the parsing lemmas: q * 10^d + f * 10^(d - (8 - n)) == u * 10^(d - 8)
      when q and f * 10^n are the quotient and remainder of u by 10^8. */
  lemma ScaleSum(u: nat, q: nat, f: nat, n: nat, d: nat)
    requires n <= 8 <= d
    requires q == u / Pow10(8) && u % Pow10(8) == f * Pow10(n)
    ensures q * Pow10(d) + f * Pow10(d - (8 - n)) == u * Pow10(d - 8)
  {
    var p8, pn, e := Pow10(8), Pow10(n), Pow10(d - 8);
    assert q * p8 + f * pn == u;
    Pow10Add(8, d - 8);
    Pow10Add(n, d - 8);
    assert d - (8 - n) == n + (d - 8);
    MulAssoc(q, p8, e);
    MulAssoc(f, pn, e);
    MulDistrib(q * p8, f * pn, e);
  }

  /** What trimming leaves of `ToFixed(u)`: the integer part alone when the
      fraction is all zeros, else the integer part, the dot and the fraction
      up to its last non-zero digit. */
  lemma TrimToFixed(u: nat) returns (w: string, frac: string, n: nat)
    ensures w == DecimalString(u / Pow10(FlopDecimals)) && Value(w) == u / Pow10(FlopDecimals)
    ensures |frac| == 8 && AllDigits(frac) && Value(frac) == u % Pow10(FlopDecimals)
    ensures n <= 8 && Value(frac) == Value(frac[..8 - n]) * Pow10(n)
    ensures n < 8 ==> frac[8 - n - 1] != '0'
    ensures n == 8 ==> Value(frac) == 0
    ensures TrimTrailingZeros(ToFixed(u)) == if n == 8 then w else w + "." + frac[..8 - n]
  {
    w, frac, n := FixedParts(u);
    TrimDotted(w, frac);
  }

  /** A dot stops the run of trailing zeros. */
  lemma {:induction false} TrailingZerosAfterDot(t: string, frac: string)
    requires t != "" && t[|t| - 1] == '.'
    ensures TrailingZeroCount(t + frac) == TrailingZeroCount(frac)
  {
    if frac == "" {
      assert t + frac == t;
    } else if frac[|frac| - 1] == '0' {
      assert (t + frac)[..|t + frac| - 1] == t + frac[..|frac| - 1];
      TrailingZerosAfterDot(t, frac[..|frac| - 1]);
    }
  }

  /** Trimming "W.F" drops the trailing zeros of F, and the dot with them
      when F is all zeros. */
  lemma TrimDotted(w: string, frac: string)
    requires w != "" && frac != "" && AllDigits(frac)
    ensures var n := TrailingZeroCount(frac);
            TrimTrailingZeros(w + "." + frac) == if n == |frac| then w else w + "." + frac[..|frac| - n]
  {
    TrailingZerosAfterDot(w + ".", frac);
    if TrailingZeroCount(frac) == |frac| {
      TrimAllZeros(w, frac);
    } else {
      TrimSomeDigits(w, frac);
    }
  }

  lemma TrimAllZeros(w: string, frac: string)
    requires frac != "" && TrailingZeroCount(w + "." + frac) == |frac|
    ensures TrimTrailingZeros(w + "." + frac) == w
  {
    var s := w + "." + frac;
    var p := |s| - |frac|;
    assert s[..p - 1] == w && s[p - 1] == '.';
  }

  lemma TrimSomeDigits(w: string, frac: string)
    requires AllDigits(frac)
    requires TrailingZeroCount(frac) < |frac| && TrailingZeroCount(w + "." + frac) == TrailingZeroCount(frac)
    ensures TrimTrailingZeros(w + "." + frac) == w + "." + frac[..|frac| - TrailingZeroCount(frac)]
  {
    var t := w + ".";
    var n := TrailingZeroCount(frac);
    var p := |t| + (|frac| - n);
    if n > 0 {
      CharAfter(t, frac, |frac| - n - 1);
      assert IsDigit(frac[|frac| - n - 1]);
      PrefixAfter(t, frac, |frac| - n);
    } else {
      assert frac[..|frac| - n] == frac;
    }
  }

  lemma PrefixAfter(t: string, frac: string, k: nat)
    requires k <= |frac|
    ensures (t + frac)[..|t| + k] == t + frac[..k]
  {
  }

  lemma CharAfter(t: string, frac: string, j: nat)
    requires j < |frac|
    ensures (t + frac)[|t| + j] == frac[j]
  {
  }

  /** The 8-decimal string with its trailing zeros trimmed reads back to the
      same amount scaled by 10^(d - 8). */
  lemma ParseTrimmedFixed(u: nat, d: nat)
    requires d >= FlopDecimals
    ensures ParseUnits(TrimTrailingZeros(ToFixed(u)), d) == Some(u * Pow10(d - FlopDecimals))
  {
    var w, frac, n := TrimToFixed(u);
    if n == 8 {
      ParseTrimmedWhole(u, d, w);
    } else {
      ParseTrimmedFraction(u, d, w, frac, n);
    }
  }

  lemma ParseTrimmedWhole(u: nat, d: nat, w: string)
    requires d >= FlopDecimals && u % Pow10(FlopDecimals) == 0
    requires w == DecimalString(u / Pow10(FlopDecimals))
    ensures ParseUnits(w, d) == Some(u * Pow10(d - FlopDecimals))
  {
    ParseWhole(w, d);
    ScaledFixed(u, w, "", 8, d);
  }

  lemma ParseTrimmedFraction(u: nat, d: nat, w: string, frac: string, n: nat)
    requires d >= FlopDecimals && n < 8
    requires w == DecimalString(u / Pow10(FlopDecimals))
    requires |frac| == 8 && AllDigits(frac) && Value(frac) == u % Pow10(FlopDecimals)
    requires Value(frac) == Value(frac[..8 - n]) * Pow10(n) && frac[8 - n - 1] != '0'
    ensures ParseUnits(w + "." + frac[..8 - n], d) == Some(u * Pow10(d - FlopDecimals))
  {
    var f := frac[..8 - n];
    TrailingZeroCountIs(f, 0);
    assert f[..|f| - 0] == f;
    ParseDotted(w, f, d);
    ScaledFixed(u, w, f, n, d);
  }

  /** Trimming does not change the value the string stands for. */
  lemma TrimPreservesValue(u: nat, d: nat)
    requires d >= FlopDecimals
    ensures ParseUnits(TrimTrailingZeros(ToFixed(u)), d) == ParseUnits(ToFixed(u), d)
  {
    ParseToFixed(u, d);
    ParseTrimmedFixed(u, d);
  }

  /** The minted WFLOP amount is exactly the deposit's 8-decimal minor units times 10^10. */
  lemma MintAmountExact(u: nat)
    ensures ParseUnits(TrimTrailingZeros(ToFixed(u)), WflopDecimals) == Some(u * Pow10(WflopDecimals - FlopDecimals))
  {
    ParseTrimmedFixed(u, WflopDecimals);
  }

  /** The FLOP payout printed for a burn reads back as at most the burned amount,
      and less than 10^-8 FLOP below it. */
  lemma PayoutNeverExceedsBurn(b: nat)
    ensures ParseUnits(ToFixed(CoinUnits(b)), WflopDecimals).Some?
    ensures var v := ParseUnits(ToFixed(CoinUnits(b)), WflopDecimals).value;
            v <= b < v + Pow10(WflopDecimals - FlopDecimals)
  {
    ParseToFixed(CoinUnits(b), WflopDecimals);
    WflopScaleIsPow10();
  }

  /** Rounding to nearest, as the handler's float conversion does, can pay out
      more than was burned: 1.999999999999999999 WFLOP becomes 2.00000000 FLOP. */
  lemma RoundedCoinUnitsOverpays()
    ensures RoundedCoinUnits(1999999999999999999) == 200000000
    ensures RoundedCoinUnits(1999999999999999999) * Pow10(WflopDecimals - FlopDecimals) > 1999999999999999999
  {
    assert Pow10(10) == 10000000000;
  }

  /** The amount minted for a deposit of u minor units at 8 decimals: its
      8-decimal string, trimmed, parsed at 18 decimals. */
  function WflopAmount(u: nat): (amount: nat)
    ensures amount == u * WflopScale
  {
    MintAmountExact(u);
    WflopScaleIsPow10();
    ParseUnits(TrimTrailingZeros(ToFixed(u)), WflopDecimals).value
  }

  /** A deposit of 150.00000000 FLOP prints as "150.00000000"... */
  lemma DepositScenarioFixed()
    ensures ToFixed(15000000000) == "150.00000000"
  {
    assert Pow10(8) == 100000000;
    assert DecimalString(150) == "150";
    assert Fixed(0, 8) == "00000000";
  }

  /** ...trims to "150"... */
  lemma DepositScenarioTrimmed()
    ensures TrimTrailingZeros("150.00000000") == "150"
  {
    TrailingZeroCountIs("150.00000000", 8);
  }

  /** ...and mints 150 * 10^18 WFLOP minor units. */
  lemma DepositScenarioMinted()
    ensures WflopAmount(15000000000) == 150000000000000000000
  {
  }

  /** A burn of 2500 * 10^18 WFLOP minor units pays out "2500.00000000" FLOP. */
  lemma PayoutScenario()
    ensures ToFixed(CoinUnits(2500000000000000000000)) == "2500.00000000"
  {
    assert Pow10(10) == 10000000000;
    assert CoinUnits(2500000000000000000000) == 250000000000;
    assert Pow10(8) == 100000000;
    assert DecimalString(2500) == "2500";
    assert Fixed(0, 8) == "00000000";
  }
}
