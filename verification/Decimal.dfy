/**
 * Unsigned decimal counters as the /proc and cgroup parsers read them: a run of digits, taken
 * modulo 2^64. Bytes are characters.
 */
module Decimal {

  const WORD: nat := 0x1_0000_0000_0000_0000

  predicate IsDigit(c: char) { '0' <= c <= '9' }

  /** The separators inside a line. */
  predicate IsGap(c: char) { c == ' ' || c == '\t' }

  predicate AllDigits(s: string) {
    forall i :: 0 <= i < |s| ==> IsDigit(s[i])
  }

  /** The length of the longest prefix of `s` made of characters satisfying `p`. */
  function Run(p: char -> bool, s: string): (n: nat)
    ensures n <= |s| && (n < |s| ==> !p(s[n]))
    ensures forall i :: 0 <= i < n ==> p(s[i])
  {
    if s == "" || !p(s[0]) then 0 else 1 + Run(p, s[1..])
  }

  /** The other way round: digits without a leading zero are how their value prints. */
  lemma {:induction false} ValuePrintsBack(s: string)
    requires s != "" && AllDigits(s) && (|s| > 1 ==> s[0] != '0')
    ensures Print(Value(s)) == s && (|s| > 1 ==> Value(s) >= 10)
  {
    var n := |s| - 1;
    var digit := s[n] as int - '0' as int;
    if n == 0 {
      assert s[..0] == "" && s == [s[0]];
    } else {
      ValuePrintsBack(s[..n]);
      assert Value(s[..n]) >= 1 by {
        FirstDigitCounts(s[..n]);
      }
      assert (Value(s[..n]) * 10 + digit) / 10 == Value(s[..n]) && (Value(s[..n]) * 10 + digit) % 10 == digit;
      assert s == s[..n] + [s[n]];
    }
  }

  lemma {:induction false} FirstDigitCounts(s: string)
    requires s != "" && AllDigits(s) && s[0] != '0'
    ensures Value(s) >= 1
  {
    if |s| > 1 {
      FirstDigitCounts(s[..|s| - 1]);
    } else {
      assert s[..0] == "";
    }
  }

  lemma RunIs(p: char -> bool, s: string, n: nat)
    requires n <= |s| && (n < |s| ==> !p(s[n])) && forall i :: 0 <= i < n ==> p(s[i])
    ensures Run(p, s) == n
  {
  }

  /** A run followed by something else is exactly the run that is scanned. */
  lemma RunStops(p: char -> bool, run: string, tail: string)
    requires (forall i :: 0 <= i < |run| ==> p(run[i])) && (tail != "" ==> !p(tail[0]))
    ensures Run(p, run + tail) == |run|
  {
    RunIs(p, run + tail, |run|);
  }

  function DigitRun(s: string): (n: nat)
    ensures n <= |s| && AllDigits(s[..n])
  {
    Run(IsDigit, s)
  }

  /** The number that `s` writes in base ten. */
  function Value(s: string): nat
    requires AllDigits(s)
  {
    if s == "" then 0 else Value(s[..|s| - 1]) * 10 + (s[|s| - 1] as int - '0' as int)
  }

  /** `n` written in base ten, without leading zeros. */
  function Print(n: nat): string {
    var digit := ('0' as int + n % 10) as char;
    if n < 10 then [digit] else Print(n / 10) + [digit]
  }

  lemma {:induction false} PrintIsDecimal(n: nat)
    ensures Print(n) != "" && AllDigits(Print(n)) && Value(Print(n)) == n
  {
    if n >= 10 {
      PrintIsDecimal(n / 10);
      assert Print(n)[..|Print(n)| - 1] == Print(n / 10);
    }
  }

  /** What a printed number reads back as, whatever follows it. */
  lemma PrintedNumberReads(n: nat, tail: string)
    requires n < WORD && (tail != "" ==> !IsDigit(tail[0]))
    ensures var run := DigitRun(Print(n) + tail);
            run == |Print(n)| > 0 && Value((Print(n) + tail)[..run]) % WORD == n
  {
    PrintIsDecimal(n);
    RunStops(IsDigit, Print(n), tail);
    assert (Print(n) + tail)[..|Print(n)|] == Print(n);
  }

  /** Wrapping at every digit is wrapping once at the end. */
  lemma WrapStep(v: nat, d: nat)
    ensures ((v % WORD) * 10 + d) % WORD == (v * 10 + d) % WORD
  {
    var q := v / WORD;
    assert v == q * WORD + v % WORD;
    assert v * 10 + d == (q * 10) * WORD + ((v % WORD) * 10 + d);
    WrapMultiple(q * 10, (v % WORD) * 10 + d);
  }

  lemma WrapAdd(x: nat, d: nat)
    ensures (x % WORD + d) % WORD == (x + d) % WORD
  {
    assert x + d == (x / WORD) * WORD + (x % WORD + d);
    WrapMultiple(x / WORD, x % WORD + d);
  }

  lemma WrapMultiple(k: nat, x: nat)
    ensures (k * WORD + x) % WORD == x % WORD
  {
  }

  /** The digit loop of nextUint and parseValue. */
  method ScanDigits(b: string) returns (i: nat, val: nat)
    ensures i == DigitRun(b) && val == Value(b[..i]) % WORD
  {
    i, val := 0, 0;
    while i < |b| && IsDigit(b[i])
      invariant i <= |b| && AllDigits(b[..i]) && val == Value(b[..i]) % WORD
    {
      var digit := b[i] as int - '0' as int;
      WrapStep(Value(b[..i]), digit);
      assert b[..i + 1][..i] == b[..i];
      val := (val * 10 + digit) % WORD;
      i := i + 1;
    }
    RunIs(IsDigit, b, i) by {
      assert forall j :: 0 <= j < i ==> b[j] == b[..i][j];
    }
  }
}
