/**
 * The parser of /proc/stat's aggregate line (internal/collector/cpu_linux.go): parseCPULine,
 * skipToken and nextUint.
 */
module CpuLine {
  import opened Decimal
  import opened StreamingStats

  const FIELDS := 10

  // Positions of the counters, in the order in which they are parsed.
  const USER := 0
  const NICE := 1
  const SYSTEM := 2

  predicate NotGap(c: char) { !IsGap(c) }

  predicate IsBlank(c: char) { IsGap(c) || c == '\n' || c == '\r' }

  /** What follows the first token and the spaces after it, or None at the end of the input. */
  function AfterToken(line: string): Option<string> {
    var token := Run(NotGap, line);
    var start := token + Run(IsGap, line[token..]);
    if start == |line| then None else Some(line[start..])
  }

  /** What follows the leading number and the blanks after it. */
  function AfterNumber(b: string): string {
    var rest := b[DigitRun(b)..];
    rest[Run(IsBlank, rest)..]
  }

  /** The leading numbers of `b`, at most `k` of them, modulo 2^64. */
  function Numbers(b: string, k: nat): (vs: seq<nat>)
    ensures |vs| <= k
  {
    if k == 0 || DigitRun(b) == 0 then []
    else [Value(b[..DigitRun(b)]) % WORD] + Numbers(AfterNumber(b), k - 1)
  }

  function Sum(vs: seq<nat>): nat {
    if vs == [] then 0 else Sum(vs[..|vs| - 1]) + vs[|vs| - 1]
  }

  method SkipToken(line: string) returns (rest: Option<string>)
    ensures rest == AfterToken(line)
  {
    var i := 0;
    while i < |line| && line[i] != ' ' && line[i] != '\t'
      invariant i <= |line| && forall j :: 0 <= j < i ==> NotGap(line[j])
    {
      i := i + 1;
    }
    RunIs(NotGap, line, i);
    ghost var token := i;
    while i < |line| && (line[i] == ' ' || line[i] == '\t')
      invariant token <= i <= |line| && forall j :: token <= j < i ==> IsGap(line[j])
    {
      i := i + 1;
    }
    RunIs(IsGap, line[token..], i - token);
    rest := if i >= |line| then None else Some(line[i..]);
  }

  method NextUint(b: string) returns (rest: Option<string>, val: nat)
    ensures if DigitRun(b) == 0 then rest == None && val == 0
            else rest == Some(AfterNumber(b)) && val == Value(b[..DigitRun(b)]) % WORD
  {
    var i;
    i, val := ScanDigits(b);
    if i == 0 {
      return None, 0;
    }
    ghost var run := i;
    while i < |b| && (b[i] == ' ' || b[i] == '\t' || b[i] == '\n' || b[i] == '\r')
      invariant run <= i <= |b| && forall j :: run <= j < i ==> IsBlank(b[j])
    {
      i := i + 1;
    }
    RunIs(IsBlank, b[run..], i - run);
    assert b[run..][i - run..] == b[i..];
    rest := Some(b[i..]);
  }

  /** With `i` numbers of `vs` read, `b` is the unread input. */
  ghost predicate Unread(vs: seq<nat>, i: nat, b: string) {
    i <= FIELDS && i <= |vs| && vs[i..] == Numbers(b, FIELDS - i)
  }

  /** Reading one more number. */
  lemma ReadNext(vs: seq<nat>, i: nat, b: string)
    requires Unread(vs, i, b) && i < FIELDS
    ensures DigitRun(b) == 0 ==> |vs| == i
    ensures DigitRun(b) > 0 ==>
              && i < |vs| && vs[i] == Value(b[..DigitRun(b)]) % WORD && Unread(vs, i + 1, AfterNumber(b))
  {
    if DigitRun(b) > 0 {
      assert vs[i + 1..] == vs[i..][1..];
    }
  }

  /** The first `i` counters hold what was read and the others are as they were. */
  ghost predicate Filled(now: seq<nat>, was: seq<nat>, vs: seq<nat>, i: nat) {
    && |now| == |was| == FIELDS && i <= |vs| && i <= FIELDS
    && (forall j :: 0 <= j < i ==> now[j] == vs[j])
    && (forall j :: i <= j < FIELDS ==> now[j] == was[j])
  }

  lemma FillNext(now: seq<nat>, was: seq<nat>, vs: seq<nat>, i: nat)
    requires Filled(now, was, vs, i) && i < FIELDS && i < |vs|
    ensures Filled(now[i := vs[i]], was, vs, i + 1)
  {
  }

  /** All ten counters replaced; or those that were read, a zero, and the others as they were. */
  ghost predicate Result(now: seq<nat>, was: seq<nat>, vs: seq<nat>) {
    && |was| == FIELDS && |vs| <= FIELDS
    && now == if |vs| == FIELDS then vs else vs + [0] + was[|vs| + 1..]
  }

  lemma FillFails(now: seq<nat>, was: seq<nat>, vs: seq<nat>)
    requires Filled(now, was, vs, |vs|) && |vs| < FIELDS
    ensures Result(now[|vs| := 0], was, vs)
  {
  }

  lemma FillDone(now: seq<nat>, was: seq<nat>, vs: seq<nat>)
    requires Filled(now, was, vs, FIELDS) && |vs| <= FIELDS
    ensures Result(now, was, vs) && vs[..FIELDS] == vs
  {
  }

  lemma SumNext(vs: seq<nat>, i: nat)
    requires i < |vs|
    ensures (Sum(vs[..i]) % WORD + vs[i]) % WORD == Sum(vs[..i + 1]) % WORD
  {
    assert vs[..i + 1][..i] == vs[..i];
    WrapAdd(Sum(vs[..i]), vs[i]);
  }

  // --- The lines that parse ---------------------------------------------------------------------

  datatype Piece = Piece(digits: string, gap: string)

  function Assemble(ps: seq<Piece>, tail: string): string {
    if ps == [] then tail else ps[0].digits + (ps[0].gap + Assemble(ps[1..], tail))
  }

  /** The numbers written, modulo 2^64. */
  function Values(ps: seq<Piece>): seq<nat> {
    if ps == [] then []
    else [if AllDigits(ps[0].digits) then Value(ps[0].digits) % WORD else 0] + Values(ps[1..])
  }

  predicate Blanks(s: string) {
    forall i :: 0 <= i < |s| ==> IsBlank(s[i])
  }

  predicate StartsWithDigit(s: string) {
    s != "" && IsDigit(s[0])
  }

  /** Numbers separated by blanks; a number without a blank after it is not followed by a digit. */
  predicate WellFormed(ps: seq<Piece>, tail: string) {
    ps == []
    || (&& ps[0].digits != "" && AllDigits(ps[0].digits) && Blanks(ps[0].gap)
        && (ps[0].gap == "" ==> !StartsWithDigit(Assemble(ps[1..], tail)))
        && WellFormed(ps[1..], tail))
  }

  lemma FirstPiece(ps: seq<Piece>, tail: string)
    requires WellFormed(ps, tail) && ps != []
    ensures var b := Assemble(ps, tail);
            && DigitRun(b) == |ps[0].digits| > 0 && b[..DigitRun(b)] == ps[0].digits
            && (|ps| > 1 ==> AfterNumber(b) == Assemble(ps[1..], tail))
  {
    var digits, gap, more := ps[0].digits, ps[0].gap, Assemble(ps[1..], tail);
    if |ps| > 1 {
      assert more[0] == ps[1..][0].digits[0];
      RunStops(IsBlank, gap, more);
    }
    RunStops(IsDigit, digits, gap + more);
    assert (digits + (gap + more))[|digits|..] == gap + more && (gap + more)[|gap|..] == more;
  }

  lemma NumbersFirst(b: string, digits: string, k: nat)
    requires DigitRun(b) == |digits| > 0 && b[..|digits|] == digits && k > 0
    ensures Numbers(b, k) == [Value(digits) % WORD] + Numbers(AfterNumber(b), k - 1)
  {
  }

  /** Every well-formed sequence of numbers is read back, each modulo 2^64, whatever follows. */
  lemma {:induction false} WellFormedIsRead(ps: seq<Piece>, tail: string)
    requires WellFormed(ps, tail)
    ensures Numbers(Assemble(ps, tail), |ps|) == Values(ps)
  {
    if ps != [] {
      var b := Assemble(ps, tail);
      FirstPiece(ps, tail);
      WellFormedIsRead(ps[1..], tail);
      NumbersFirst(b, ps[0].digits, |ps|);
      assert Numbers(AfterNumber(b), |ps| - 1) == Values(ps[1..]);
    }
  }

  lemma AfterFirstPiece(ps: seq<Piece>, tail: string)
    requires WellFormed(ps, tail) && ps != [] && (tail != "" ==> !IsDigit(tail[0]) && !IsBlank(tail[0]))
    ensures AfterNumber(Assemble(ps, tail)) == Assemble(ps[1..], tail)
  {
    hide WellFormed;
    FirstPiece(ps, tail);
    if |ps| == 1 {
      var digits, gap := ps[0].digits, ps[0].gap;
      assert Blanks(gap) by {
        GapsAreBlank(ps, tail);
      }
      RunStops(IsBlank, gap, tail);
      assert (digits + (gap + tail))[|digits|..] == gap + tail && (gap + tail)[|gap|..] == tail;
    }
  }

  lemma GapsAreBlank(ps: seq<Piece>, tail: string)
    requires WellFormed(ps, tail) && ps != []
    ensures Blanks(ps[0].gap) && WellFormed(ps[1..], tail)
  {
  }

  /** A line with too few numbers is read up to where they end. */
  lemma {:induction false} ShortLineIsRead(ps: seq<Piece>, tail: string, k: nat)
    requires WellFormed(ps, tail) && |ps| <= k && (tail != "" ==> !IsDigit(tail[0]) && !IsBlank(tail[0]))
    ensures Numbers(Assemble(ps, tail), k) == Values(ps)
    decreases |ps|
  {
    hide Assemble, WellFormed, AfterNumber, Value;
    if ps == [] {
      assert Assemble(ps, tail) == tail by {
        NothingAssembled(tail);
      }
    } else {
      FirstPiece(ps, tail);
      AfterFirstPiece(ps, tail);
      GapsAreBlank(ps, tail);
      ShortLineIsRead(ps[1..], tail, k - 1);
      NumbersFirst(Assemble(ps, tail), ps[0].digits, k);
    }
  }

  lemma NothingAssembled(tail: string)
    ensures Assemble([], tail) == tail
  {
  }

  function FirstPieceOf(b: string): Piece {
    var rest := b[DigitRun(b)..];
    Piece(b[..DigitRun(b)], rest[..Run(IsBlank, rest)])
  }

  /** `b` is made of `k` well-formed numbers and a tail. */
  ghost predicate MadeOf(b: string, k: nat, ps: seq<Piece>, tail: string) {
    |ps| == k && WellFormed(ps, tail) && Assemble(ps, tail) == b
  }

  lemma SplitNumber(b: string)
    requires DigitRun(b) > 0
    ensures var p := FirstPieceOf(b);
            && p.digits != "" && AllDigits(p.digits) && Blanks(p.gap)
            && b == p.digits + (p.gap + AfterNumber(b))
            && (p.gap == "" ==> !StartsWithDigit(AfterNumber(b)))
  {
    var p, rest := FirstPieceOf(b), b[DigitRun(b)..];
    assert rest == p.gap + AfterNumber(b);
    assert b == p.digits + rest;
    if p.gap == "" {
      assert rest == AfterNumber(b);
    }
  }

  lemma Prepend(b: string, k: nat, ps: seq<Piece>, tail: string)
    requires DigitRun(b) > 0 && MadeOf(AfterNumber(b), k, ps, tail)
    ensures MadeOf(b, k + 1, [FirstPieceOf(b)] + ps, tail)
  {
    SplitNumber(b);
    assert ([FirstPieceOf(b)] + ps)[1..] == ps;
  }

  /** Nothing else is read: whatever yields `k` numbers is made of `k` well-formed numbers. */
  lemma {:induction false} ReadIsWellFormed(b: string, k: nat)
    requires |Numbers(b, k)| == k
    ensures exists ps: seq<Piece>, tail: string :: MadeOf(b, k, ps, tail)
  {
    if k == 0 {
      assert MadeOf(b, 0, [], b);
    } else {
      var next := AfterNumber(b);
      assert |Numbers(next, k - 1)| == k - 1;
      ReadIsWellFormed(next, k - 1);
      var ps: seq<Piece>, tail: string :| MadeOf(next, k - 1, ps, tail);
      Prepend(b, k - 1, ps, tail);
    }
  }

  predicate Token(s: string) {
    forall i :: 0 <= i < |s| ==> NotGap(s[i])
  }

  predicate Gaps(s: string) {
    s != "" && forall i :: 0 <= i < |s| ==> IsGap(s[i])
  }

  /** A first token without spaces, spaces or tabs, and `k` numbers. */
  ghost predicate IsCounterLine(line: string, k: nat, token: string, lead: string, ps: seq<Piece>, tail: string) {
    && Token(token) && Gaps(lead) && |ps| == k && WellFormed(ps, tail)
    && line == token + (lead + Assemble(ps, tail))
  }

  /** The parser finds `k` numbers after the first token. */
  predicate Parses(line: string, k: nat) {
    AfterToken(line).Some? && |Numbers(AfterToken(line).value, k)| == k
  }

  lemma TokenSkipped(token: string, lead: string, b: string)
    requires Token(token) && Gaps(lead) && StartsWithDigit(b)
    ensures AfterToken(token + (lead + b)) == Some(b)
  {
    RunStops(NotGap, token, lead + b);
    RunStops(IsGap, lead, b);
    assert (token + (lead + b))[|token|..] == lead + b;
    assert (token + (lead + b))[|token| + |lead|..] == b;
  }

  lemma NumbersStart(ps: seq<Piece>, tail: string)
    requires WellFormed(ps, tail) && ps != []
    ensures StartsWithDigit(Assemble(ps, tail))
  {
  }

  /** A counter line is read back exactly: its numbers, in order, each modulo 2^64. */
  lemma CounterLineIsRead(line: string, k: nat, token: string, lead: string, ps: seq<Piece>, tail: string)
    requires k > 0 && IsCounterLine(line, k, token, lead, ps, tail)
    ensures Parses(line, k) && Numbers(AfterToken(line).value, k) == Values(ps)
  {
    var b := Assemble(ps, tail);
    NumbersStart(ps, tail);
    TokenSkipped(token, lead, b);
    WellFormedIsRead(ps, tail);
    ValuesLength(ps);
  }

  lemma {:induction false} ValuesLength(ps: seq<Piece>)
    ensures |Values(ps)| == |ps|
  {
    if ps != [] {
      ValuesLength(ps[1..]);
    }
  }

  lemma SplitToken(line: string)
    requires AfterToken(line).Some?
    ensures exists token, lead :: Token(token) && Gaps(lead) && line == token + (lead + AfterToken(line).value)
  {
    var b, n := AfterToken(line).value, Run(NotGap, line);
    var token, spaces := line[..n], line[n..];
    var lead := spaces[..Run(IsGap, spaces)];
    assert Token(token);
    assert Gaps(lead);
    assert spaces == lead + b;
    assert line == token + spaces;
  }

  lemma ParsedIsCounterLine(line: string, k: nat)
    requires Parses(line, k)
    ensures exists token, lead, ps, tail :: IsCounterLine(line, k, token, lead, ps, tail)
  {
    var b := AfterToken(line).value;
    SplitToken(line);
    var token, lead :| Token(token) && Gaps(lead) && line == token + (lead + b);
    ReadIsWellFormed(b, k);
    var ps: seq<Piece>, tail: string :| MadeOf(b, k, ps, tail);
    assert IsCounterLine(line, k, token, lead, ps, tail);
  }

  /** Exactly the counter lines parse; the first token may be anything, not only "cpu". */
  lemma ParsesIffCounterLine(line: string, k: nat)
    requires k > 0
    ensures Parses(line, k) <==> exists token, lead, ps, tail :: IsCounterLine(line, k, token, lead, ps, tail)
  {
    if Parses(line, k) {
      ParsedIsCounterLine(line, k);
    }
    if token, lead, ps, tail :| IsCounterLine(line, k, token, lead, ps, tail) {
      CounterLineIsRead(line, k, token, lead, ps, tail);
    }
  }

  /** The pieces of a printed record. */
  function Printed(vs: seq<nat>, gaps: seq<string>): (ps: seq<Piece>)
    requires |gaps| == |vs|
    ensures |ps| == |vs|
  {
    if vs == [] then [] else [Piece(Print(vs[0]), gaps[0])] + Printed(vs[1..], gaps[1..])
  }

  /** Blanks after every number; only the last may be missing, before a tail that is not a digit. */
  predicate Separators(gaps: seq<string>, tail: string) {
    gaps == []
    || (&& Blanks(gaps[0]) && (gaps[0] == "" ==> |gaps| == 1 && !StartsWithDigit(tail))
        && Separators(gaps[1..], tail))
  }

  predicate Words(vs: seq<nat>) {
    forall i :: 0 <= i < |vs| ==> vs[i] < WORD
  }

  lemma PrependPiece(p: Piece, ps: seq<Piece>, tail: string)
    requires WellFormed(ps, tail) && p.digits != "" && AllDigits(p.digits) && Blanks(p.gap)
    requires p.gap == "" ==> !StartsWithDigit(Assemble(ps, tail))
    ensures WellFormed([p] + ps, tail) && Values([p] + ps) == [Value(p.digits) % WORD] + Values(ps)
  {
    assert ([p] + ps)[1..] == ps;
  }

  lemma {:induction false} PrintedIsWellFormed(vs: seq<nat>, gaps: seq<string>, tail: string)
    requires |gaps| == |vs| && Separators(gaps, tail) && Words(vs)
    ensures WellFormed(Printed(vs, gaps), tail) && Values(Printed(vs, gaps)) == vs
  {
    if vs != [] {
      PrintedIsWellFormed(vs[1..], gaps[1..], tail);
      PrintIsDecimal(vs[0]);
      PrependPiece(Piece(Print(vs[0]), gaps[0]), Printed(vs[1..], gaps[1..]), tail);
      assert [vs[0]] + vs[1..] == vs;
    }
  }

  /** Round trip: every record of counters, with any separators, is parsed back. */
  lemma PrintedLineParsesBack(token: string, lead: string, vs: seq<nat>, gaps: seq<string>, tail: string)
    requires Token(token) && Gaps(lead)
    requires |vs| == |gaps| > 0 && Separators(gaps, tail) && Words(vs)
    ensures var line := token + (lead + Assemble(Printed(vs, gaps), tail));
            Parses(line, |vs|) && Numbers(AfterToken(line).value, |vs|) == vs
  {
    var ps := Printed(vs, gaps);
    PrintedIsWellFormed(vs, gaps, tail);
    CounterLineIsRead(token + (lead + Assemble(ps, tail)), |vs|, token, lead, ps, tail);
  }

  class CpuStats {
    const counters: array<nat>
    var total: nat

    constructor ()
      ensures counters.Length == FIELDS && fresh(counters)
      ensures counters[..] == seq(FIELDS, _ => 0) && total == 0
    {
      counters := new nat[FIELDS](_ => 0);
      total := 0;
    }

    /** The loop over the ten targets. */
    method Fill(start: string) returns (ok: bool, sum: nat)
      requires counters.Length == FIELDS
      modifies counters
      ensures var vs := Numbers(start, FIELDS);
              && (ok <==> |vs| == FIELDS) && (ok ==> sum == Sum(vs) % WORD)
              && Result(counters[..], old(counters[..]), vs)
    {
      ghost var vs, was := Numbers(start, FIELDS), counters[..];
      var rest := Some(start);
      sum := 0;
      for i := 0 to FIELDS
        invariant rest.Some? && Unread(vs, i, rest.value)
        invariant Filled(counters[..], was, vs, i)
        invariant sum == Sum(vs[..i]) % WORD
      {
        ok, rest, sum := Step(i, rest.value, sum, vs, was);
        if !ok {
          return;
        }
      }
      FillDone(counters[..], was, vs);
      ok := true;
    }

    method Step(i: nat, b: string, sum: nat, ghost vs: seq<nat>, ghost was: seq<nat>)
      returns (ok: bool, rest: Option<string>, sum': nat)
      requires counters.Length == FIELDS && i < FIELDS && Unread(vs, i, b)
      requires Filled(counters[..], was, vs, i) && sum == Sum(vs[..i]) % WORD
      modifies counters
      ensures ok ==> rest.Some? && Unread(vs, i + 1, rest.value) && sum' == Sum(vs[..i + 1]) % WORD
      ensures if ok then Filled(counters[..], was, vs, i + 1) else |vs| == i && Result(counters[..], was, vs)
    {
      ReadNext(vs, i, b);
      ghost var now := counters[..];
      var v: nat;
      rest, v := NextUint(b);
      counters[i] := v;
      assert counters[..] == now[i := v];
      if rest == None {
        FillFails(now, was, vs);
        return false, rest, sum;
      }
      FillNext(now, was, vs, i);
      SumNext(vs, i);
      return true, rest, (sum + v) % WORD;
    }

    /**
     * On success every counter and the total are overwritten. On failure the counters before the
     * malformed one hold what was read, that one is zero, and the rest and the total are untouched.
     */
    method Parse(line: string) returns (ok: bool)
      requires counters.Length == FIELDS
      modifies this`total, counters
      ensures match AfterToken(line)
              case None => !ok && counters[..] == old(counters[..]) && total == old(total)
              case Some(start) =>
                var vs := Numbers(start, FIELDS);
                && (ok <==> |vs| == FIELDS) && Result(counters[..], old(counters[..]), vs)
                && total == if ok then Sum(vs) % WORD else old(total)
    {
      var rest := SkipToken(line);
      if rest == None {
        return false;
      }
      var sum;
      ok, sum := Fill(rest.value);
      if ok {
        total := sum;
      }
    }
  }
}
