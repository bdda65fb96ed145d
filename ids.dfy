/**
 * Identifiers cross the host boundary as decimal text. Outbound, an id is
 * rendered with `u64::to_string` (ToDecimal); inbound, the host's text is read
 * with `parse::<u64>().unwrap_or(0)` (ParseId), so any malformed text becomes
 * the zero id.
 */
module Ids {
  import opened Base

  predicate IsDigit(c: char) { '0' <= c <= '9' }

  function DigitValue(c: char): (d: nat)
    requires IsDigit(c)
    ensures d < 10
  {
    (c as int) - ('0' as int)
  }

  function DigitChar(d: nat): (c: char)
    requires d < 10
    ensures IsDigit(c) && DigitValue(c) == d
  {
    ('0' as int + d) as char
  }

  predicate AllDigits(s: string) { forall i :: 0 <= i < |s| ==> IsDigit(s[i]) }

  /** The number a digit string denotes, most significant digit first. */
  function Value(s: string): nat
    requires AllDigits(s)
  {
    if s == [] then 0 else Value(s[..|s| - 1]) * 10 + DigitValue(s[|s| - 1])
  }

  /** A run of k zero digits. */
  function Zeros(k: nat): (z: string)
    ensures |z| == k && AllDigits(z)
  {
    seq(k, _ => '0')
  }

  /** The text left once one optional leading `+` is removed. */
  function Unsigned(s: string): string
  {
    if |s| > 0 && s[0] == '+' then s[1..] else s
  }

  /**
   * Rust's `u64::from_str`: an optional `+`, then one or more ASCII digits
   * whose value fits in 64 bits. Anything else (empty text, a lone `+`,
   * a `-` sign, whitespace, any other character, overflow) is an error.
   */
  function ParseU64(s: string): (r: Option<U64>)
    ensures r.Some? ==> var d := Unsigned(s);
      |ToDecimal(r.value)| <= |d| && d == Zeros(|d| - |ToDecimal(r.value)|) + ToDecimal(r.value)
  {
    var d := Unsigned(s);
    if |d| > 0 && AllDigits(d) && Value(d) < U64_LIMIT then
      DigitsAreZerosThenDecimal(d);
      Some(Value(d))
    else None
  }

  /** `parse::<u64>().unwrap_or(0)`: the id the host's text names, 0 when it names none. */
  function ParseId(s: string): (r: U64)
    ensures ParseU64(s) == Some(r) || (ParseU64(s) == None && r == 0)
  {
    match ParseU64(s)
    case Some(n) => n
    case None => 0
  }

  /** `to_string` of an unsigned integer: its decimal digits without leading zeros. */
  function ToDecimal(n: nat): (s: string)
    ensures |s| > 0 && AllDigits(s) && Value(s) == n
    ensures s[0] == '0' ==> s == "0"
  {
    if n < 10 then [DigitChar(n)] else ToDecimal(n / 10) + [DigitChar(n % 10)]
  }

  /** Emitting an id and parsing it back gives the same id. */
  lemma ParseDecimalRoundTrip(n: U64)
    ensures ParseU64(ToDecimal(n)) == Some(n)
    ensures ParseId(ToDecimal(n)) == n
  {
  }

  /** The decimal text of a number that does not fit in 64 bits parses to the zero id. */
  lemma ParseOverflow(n: nat)
    requires n >= U64_LIMIT
    ensures ParseU64(ToDecimal(n)) == None
    ensures ParseId(ToDecimal(n)) == 0
  {
  }

  /** Leading zero digits do not change the value. */
  lemma {:induction false} ValueZerosPrefix(k: nat, d: string)
    requires AllDigits(d)
    ensures AllDigits(Zeros(k) + d) && Value(Zeros(k) + d) == Value(d)
    decreases |d|
  {
    if d == [] {
      assert Zeros(k) + d == Zeros(k);
      ZerosValue(k);
    } else {
      var p := d[..|d| - 1];
      ValueZerosPrefix(k, p);
      assert (Zeros(k) + d)[..|Zeros(k) + d| - 1] == Zeros(k) + p;
    }
  }

  lemma {:induction false} ZerosValue(k: nat)
    ensures Value(Zeros(k)) == 0
  {
    if k > 0 {
      assert Zeros(k)[..k - 1] == Zeros(k - 1);
      ZerosValue(k - 1);
    }
  }

  /**
   * Acceptance: any number below 2^64, written in decimal after an optional
   * `+` and any number of leading zeros, parses to that number.
   */
  lemma ParseAcceptsPadded(n: U64, k: nat)
    ensures ParseU64(Zeros(k) + ToDecimal(n)) == Some(n)
    ensures ParseU64("+" + Zeros(k) + ToDecimal(n)) == Some(n)
  {
    var t := ToDecimal(n);
    var d := Zeros(k) + t;
    ValueZerosPrefix(k, t);
    ParseDigits(d);
    assert "+" + Zeros(k) + t == "+" + d;
  }

  /** A non-empty digit string in range parses to its value, with or without a `+`. */
  lemma ParseDigits(d: string)
    requires |d| > 0 && AllDigits(d) && Value(d) < U64_LIMIT
    ensures ParseU64(d) == Some(Value(d))
    ensures ParseU64("+" + d) == Some(Value(d))
  {
    assert IsDigit(d[0]);
    assert ("+" + d)[1..] == d;
  }

  /**
   * A digit string with no superfluous leading zero is the decimal text of
   * its own value.
   */
  lemma {:induction false} CanonicalIsDecimal(d: string)
    requires |d| > 0 && AllDigits(d)
    requires d[0] != '0' || |d| == 1
    ensures ToDecimal(Value(d)) == d
    decreases |d|
  {
    var last := d[|d| - 1];
    if |d| == 1 {
      assert d == [last];
      assert d[..0] == [];
    } else {
      var p := d[..|d| - 1];
      CanonicalIsDecimal(p);
      assert p[0] == d[0] != '0';
      var v := Value(d);
      assert v == Value(p) * 10 + DigitValue(last);
      assert v / 10 == Value(p) && v % 10 == DigitValue(last);
      assert [DigitChar(DigitValue(last))] == [last];
      assert d == p + [last];
    }
  }

  /** Every digit string is some zeros followed by the decimal text of its value. */
  lemma {:induction false} DigitsAreZerosThenDecimal(d: string)
    requires |d| > 0 && AllDigits(d)
    ensures |ToDecimal(Value(d))| <= |d|
    ensures d == Zeros(|d| - |ToDecimal(Value(d))|) + ToDecimal(Value(d))
    decreases |d|
  {
    if d[0] == '0' && |d| > 1 {
      var rest := d[1..];
      DigitsAreZerosThenDecimal(rest);
      assert Zeros(1) + rest == d;
      ValueZerosPrefix(1, rest);
      var t := ToDecimal(Value(d));
      assert Zeros(|d| - |t|) == Zeros(1) + Zeros(|rest| - |t|);
    } else {
      CanonicalIsDecimal(d);
      assert Zeros(0) + d == d;
    }
  }

  /**
   * Parsing accepts nothing else: text that parses to n is an optional `+`,
   * some leading zeros, then exactly the decimal text of n.
   */
  lemma ParseOnlyPadded(s: string)
    requires ParseU64(s).Some?
    ensures var n := ParseU64(s).value;
            var d := Unsigned(s);
            (s == d || s == "+" + d) &&
            |ToDecimal(n)| <= |d| &&
            d == Zeros(|d| - |ToDecimal(n)|) + ToDecimal(n)
  {
    var d := Unsigned(s);
    DigitsAreZerosThenDecimal(d);
    if |s| > 0 && s[0] == '+' {
      assert s == "+" + d;
    }
  }

  /**
   * A character that is neither a digit nor the one leading `+` makes the
   * text unparseable, so it names the zero id: this covers a `-` sign,
   * whitespace and letters.
   */
  lemma ParseRejectsNonDigit(s: string, i: nat)
    requires i < |s| && !IsDigit(s[i]) && !(i == 0 && s[i] == '+')
    ensures ParseU64(s) == None
    ensures ParseId(s) == 0
  {
    var d := Unsigned(s);
    if |s| > 0 && s[0] == '+' {
      assert d[i - 1] == s[i];
    } else {
      assert d[i] == s[i];
    }
  }

  /** Empty text and a lone sign name the zero id. */
  lemma ParseRejectsEmpty()
    ensures ParseId("") == 0 && ParseId("+") == 0 && ParseId("-") == 0
  {
  }
}
