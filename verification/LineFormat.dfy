/**
 * "key <sep> value" files, as parseMemInfo (internal/collector/mem_linux.go) and parseCPUStat
 * (internal/cgroup/cgroup.go) read them: line by line, the last line for a key winning.
 */
module LineFormat {
  import opened Decimal
  import opened StreamingStats

  // --- Trimming ---------------------------------------------------------------------------------

  predicate IsAsciiSpace(c: char) { c == ' ' || 9 <= c as int <= 13 }

  /** The UTF-8 encodings of the other white space: U+0085 and U+00A0. */
  predicate IsSpace2(a: char, b: char) {
    a as int == 0xC2 && (b as int == 0x85 || b as int == 0xA0)
  }

  /** U+1680, U+2000 to U+200A, U+2028, U+2029, U+202F, U+205F and U+3000. */
  predicate IsSpace3(a: char, b: char, c: char) {
    var (x, y, z) := (a as int, b as int, c as int);
    || (x == 0xE1 && y == 0x9A && z == 0x80)
    || (x == 0xE2 && y == 0x80 && (0x80 <= z <= 0x8A || z == 0xA8 || z == 0xA9 || z == 0xAF))
    || (x == 0xE2 && y == 0x81 && z == 0x9F)
    || (x == 0xE3 && y == 0x80 && z == 0x80)
  }

  /** How many bytes the white space character that `s` starts with takes; 0 if it has none. */
  function LeadingSpace(s: string): (n: nat)
    ensures n <= |s|
  {
    if |s| >= 1 && IsAsciiSpace(s[0]) then 1
    else if |s| >= 2 && IsSpace2(s[0], s[1]) then 2
    else if |s| >= 3 && IsSpace3(s[0], s[1], s[2]) then 3
    else 0
  }

  function TrailingSpace(s: string): (n: nat)
    ensures n <= |s|
  {
    var k := |s|;
    if k >= 1 && IsAsciiSpace(s[k - 1]) then 1
    else if k >= 2 && IsSpace2(s[k - 2], s[k - 1]) then 2
    else if k >= 3 && IsSpace3(s[k - 3], s[k - 2], s[k - 1]) then 3
    else 0
  }

  function TrimLeftSpace(s: string): string {
    if LeadingSpace(s) == 0 then s else TrimLeftSpace(s[LeadingSpace(s)..])
  }

  function TrimRightSpace(s: string): string {
    if TrailingSpace(s) == 0 then s else TrimRightSpace(s[..|s| - TrailingSpace(s)])
  }

  function TrimSpace(s: string): string { TrimRightSpace(TrimLeftSpace(s)) }

  function TrimCr(s: string): string {
    if s != "" && s[|s| - 1] == '\r' then TrimCr(s[..|s| - 1]) else s
  }

  // --- Lines and fields -------------------------------------------------------------------------

  /** The position of the first `c`, or the length of `s`. */
  function IndexByte(s: string, c: char): (n: nat)
    ensures n <= |s| && (n < |s| ==> s[n] == c) && forall i :: 0 <= i < n ==> s[i] != c
  {
    Run(x => x != c, s)
  }

  function FirstLine(data: string): string { data[..IndexByte(data, '\n')] }

  function LaterLines(data: string): (rest: string)
    ensures data != "" ==> |rest| < |data|
  {
    var n := IndexByte(data, '\n');
    if n < |data| then data[n + 1..] else ""
  }

  function Lines(data: string): seq<string>
    decreases |data|
  {
    if data == "" then [] else [FirstLine(data)] + Lines(LaterLines(data))
  }

  /** Taking one line off the data. */
  lemma LinesNext(done: seq<string>, data: string)
    requires data != ""
    ensures done + Lines(data) == done + [FirstLine(data)] + Lines(LaterLines(data))
  {
  }

  datatype Field = Field(key: string, value: nat)

  /** The number after any spaces and tabs, modulo 2^64. */
  function ValueOf(s: string): Option<nat> {
    var digits := s[Run(IsGap, s)..];
    if DigitRun(digits) == 0 then None else Some(Value(digits[..DigitRun(digits)]) % WORD)
  }

  /** The field in a trimmed line. */
  function FieldIn(sep: char, line: string): Option<Field> {
    var n := IndexByte(line, sep);
    if n == |line| || ValueOf(line[n + 1..]).None? then None
    else Some(Field(line[..n], ValueOf(line[n + 1..]).value))
  }

  /** What one raw line records. */
  function Recorded(sep: char, line: string): Option<Field> {
    FieldIn(sep, TrimSpace(TrimCr(line)))
  }

  /** The value recorded for `key` by the last line that records one. */
  function Seen(sep: char, lines: seq<string>, key: string): Option<nat> {
    if lines == [] then None
    else
      var f := Recorded(sep, lines[|lines| - 1]);
      if f.Some? && f.value.key == key then Some(f.value.value) else Seen(sep, lines[..|lines| - 1], key)
  }

  function OrElse(seen: Option<nat>, was: nat): nat {
    if seen.Some? then seen.value else was
  }

  /** The same, or else `was`. */
  function Latest(sep: char, lines: seq<string>, key: string, was: nat): nat {
    OrElse(Seen(sep, lines, key), was)
  }

  /** Each of the values is the latest one recorded for its key. */
  ghost predicate AllLatest(sep: char, lines: seq<string>, keys: seq<string>, was: seq<nat>, now: seq<nat>) {
    && |keys| == |was| == |now|
    && forall i :: 0 <= i < |keys| ==> now[i] == Latest(sep, lines, keys[i], was[i])
  }

  /** What a file records for each key. */
  function AllSeen(sep: char, lines: seq<string>, keys: seq<string>): (seen: seq<Option<nat>>)
    ensures |seen| == |keys| && forall i :: 0 <= i < |keys| ==> seen[i] == Seen(sep, lines, keys[i])
  {
    seq(|keys|, i requires 0 <= i < |keys| => Seen(sep, lines, keys[i]))
  }

  function Merged(seen: seq<Option<nat>>, was: seq<nat>): (now: seq<nat>)
    requires |seen| == |was|
    ensures |now| == |was| && forall i :: 0 <= i < |was| ==> now[i] == OrElse(seen[i], was[i])
  {
    seq(|was|, i requires 0 <= i < |was| => OrElse(seen[i], was[i]))
  }

  ghost predicate AnySeen(seen: seq<Option<nat>>) {
    exists i :: 0 <= i < |seen| && seen[i].Some?
  }

  lemma LatestIsMerged(sep: char, lines: seq<string>, keys: seq<string>, was: seq<nat>, now: seq<nat>)
    requires AllLatest(sep, lines, keys, was, now)
    ensures now == Merged(AllSeen(sep, lines, keys), was)
  {
  }

  /** Storing a field: the values of every other key are kept. */
  ghost predicate Stores(keys: seq<string>, was: seq<nat>, now: seq<nat>, f: Option<Field>) {
    && |keys| == |was| == |now|
    && forall i :: 0 <= i < |keys| ==>
         now[i] == if f.Some? && f.value.key == keys[i] then f.value.value else was[i]
  }

  lemma LatestNext(sep: char, lines: seq<string>, line: string, keys: seq<string>, start: seq<nat>,
                   was: seq<nat>, now: seq<nat>)
    requires AllLatest(sep, lines, keys, start, was) && Stores(keys, was, now, Recorded(sep, line))
    ensures AllLatest(sep, lines + [line], keys, start, now)
  {
    assert (lines + [line])[..|lines|] == lines;
  }

  /** Some line records one of the keys. */
  ghost predicate AnyKnown(sep: char, lines: seq<string>, keys: seq<string>) {
    exists i :: 0 <= i < |lines| && Knows(sep, lines[i], keys)
  }

  predicate Knows(sep: char, line: string, keys: seq<string>) {
    Recorded(sep, line).Some? && Recorded(sep, line).value.key in keys
  }

  lemma AnyKnownNext(sep: char, lines: seq<string>, line: string, keys: seq<string>)
    ensures AnyKnown(sep, lines + [line], keys) <==> AnyKnown(sep, lines, keys) || Knows(sep, line, keys)
  {
    var all := lines + [line];
    if i :| 0 <= i < |lines| && Knows(sep, lines[i], keys) {
      assert Knows(sep, all[i], keys);
    }
    if Knows(sep, line, keys) {
      assert Knows(sep, all[|lines|], keys);
    }
  }

  predicate Records(sep: char, line: string, key: string) {
    Recorded(sep, line).Some? && Recorded(sep, line).value.key == key
  }

  lemma {:induction false} SeenIfRecorded(sep: char, lines: seq<string>, i: nat, key: string)
    requires i < |lines| && Records(sep, lines[i], key)
    ensures Seen(sep, lines, key).Some?
  {
    if !Records(sep, lines[|lines| - 1], key) {
      SeenIfRecorded(sep, lines[..|lines| - 1], i, key);
    }
  }

  lemma {:induction false} RecordedIfSeen(sep: char, lines: seq<string>, key: string) returns (i: nat)
    requires Seen(sep, lines, key).Some?
    ensures i < |lines| && Records(sep, lines[i], key)
  {
    i := |lines| - 1;
    if !Records(sep, lines[i], key) {
      i := RecordedIfSeen(sep, lines[..i], key);
    }
  }

  /** A line records one of the keys exactly when one of them has been seen. */
  lemma KnownIffSeen(sep: char, lines: seq<string>, keys: seq<string>)
    ensures AnyKnown(sep, lines, keys) <==> AnySeen(AllSeen(sep, lines, keys))
  {
    if AnyKnown(sep, lines, keys) {
      var i :| 0 <= i < |lines| && Knows(sep, lines[i], keys);
      var k :| 0 <= k < |keys| && keys[k] == Recorded(sep, lines[i]).value.key;
      SeenIfRecorded(sep, lines, i, keys[k]);
      assert AllSeen(sep, lines, keys)[k].Some?;
    }
    if AnySeen(AllSeen(sep, lines, keys)) {
      var k :| 0 <= k < |keys| && AllSeen(sep, lines, keys)[k].Some?;
      var i := RecordedIfSeen(sep, lines, keys[k]);
      assert Knows(sep, lines[i], keys);
    }
  }

  /** parseValue. */
  method ParseValue(rest: string) returns (value: Option<nat>)
    ensures value == ValueOf(rest)
  {
    var digits := rest[Run(IsGap, rest)..];
    var i, val := ScanDigits(digits);
    value := if i == 0 then None else Some(val);
  }

  /** Cut a trimmed line into key and value. */
  method CutField(line: string, sep: char) returns (field: Option<Field>)
    ensures field == FieldIn(sep, line)
  {
    hide ValueOf;
    var n := IndexByte(line, sep);
    if n == |line| {
      return None;
    }
    var value := ParseValue(line[n + 1..]);
    field := if value == None then None else Some(Field(line[..n], value.value));
  }

  /** The body shared by both line loops. */
  method ParseLine(raw: string, sep: char) returns (field: Option<Field>)
    ensures field == Recorded(sep, raw)
  {
    var line := TrimSpace(TrimCr(raw));
    if |line| == 0 {
      return None;
    }
    field := CutField(line, sep);
  }

  // --- What a line records, and nothing else ----------------------------------------------------

  predicate Gaps(s: string) {
    forall i :: 0 <= i < |s| ==> IsGap(s[i])
  }

  /** `line` is a key, `sep`, spaces and tabs, digits, and anything that is not a digit. */
  predicate Writes(line: string, key: string, sep: char, gap: string, digits: string, tail: string) {
    && line == key + ([sep] + (gap + (digits + tail))) && sep !in key && Gaps(gap)
    && digits != "" && AllDigits(digits) && (tail != "" ==> !IsDigit(tail[0]))
  }

  lemma WrittenIsRead(line: string, key: string, sep: char, gap: string, digits: string, tail: string)
    requires Writes(line, key, sep, gap, digits, tail)
    ensures FieldIn(sep, line) == Some(Field(key, Value(digits) % WORD))
  {
    hide Value, ValueOf;
    KeyIsCut(key, sep, gap + (digits + tail));
    ValueIsRead(gap, digits, tail);
  }

  lemma ValueIsRead(gap: string, digits: string, tail: string)
    requires Gaps(gap) && digits != "" && AllDigits(digits) && (tail != "" ==> !IsDigit(tail[0]))
    ensures ValueOf(gap + (digits + tail)) == Some(Value(digits) % WORD)
  {
    hide Value;
    var number := digits + tail;
    assert IsDigit(number[0]);
    RunStops(IsGap, gap, number);
    assert (gap + number)[|gap|..] == number;
    DigitsAreRead(digits, tail);
  }

  lemma DigitsAreRead(digits: string, tail: string)
    requires AllDigits(digits) && (tail != "" ==> !IsDigit(tail[0]))
    ensures DigitRun(digits + tail) == |digits| && (digits + tail)[..|digits|] == digits
  {
    RunStops(IsDigit, digits, tail);
  }

  lemma SplitAt(s: string, i: nat, c: char)
    requires i < |s| && s[i] == c
    ensures s == s[..i] + ([c] + s[i + 1..])
  {
  }

  lemma ReadIsWritten(line: string, sep: char) returns (gap: string, digits: string, tail: string)
    requires FieldIn(sep, line).Some?
    ensures Writes(line, FieldIn(sep, line).value.key, sep, gap, digits, tail)
  {
    hide Value, Run;
    var n := IndexByte(line, sep);
    var rest := line[n + 1..];
    SplitAt(line, n, sep);
    gap, digits, tail := SplitValue(rest);
  }

  lemma SplitValue(rest: string) returns (gap: string, digits: string, tail: string)
    requires ValueOf(rest).Some?
    ensures rest == gap + (digits + tail) && Gaps(gap)
    ensures digits != "" && AllDigits(digits) && (tail != "" ==> !IsDigit(tail[0]))
  {
    hide Value;
    var number := rest[Run(IsGap, rest)..];
    gap, digits, tail := rest[..Run(IsGap, rest)], number[..DigitRun(number)], number[DigitRun(number)..];
    assert number == digits + tail;
  }

  /** A trimmed line records a field if and only if it writes one; any other line is skipped. */
  lemma FieldIff(sep: char, line: string, key: string, value: nat)
    ensures FieldIn(sep, line) == Some(Field(key, value)) <==>
            exists gap, digits, tail :: Writes(line, key, sep, gap, digits, tail) && value == Value(digits) % WORD
  {
    hide FieldIn, Value;
    if FieldIn(sep, line) == Some(Field(key, value)) {
      var gap, digits, tail := ReadIsWritten(line, sep);
      WrittenIsRead(line, key, sep, gap, digits, tail);
    }
    forall gap, digits, tail | Writes(line, key, sep, gap, digits, tail)
      ensures FieldIn(sep, line) == Some(Field(key, Value(digits) % WORD))
    {
      WrittenIsRead(line, key, sep, gap, digits, tail);
    }
  }

  /** White space, read from the left and from the right. */
  predicate SpacesAhead(s: string) {
    s == "" || (LeadingSpace(s) > 0 && SpacesAhead(s[LeadingSpace(s)..]))
  }

  predicate SpacesBehind(s: string) {
    s == "" || (TrailingSpace(s) > 0 && SpacesBehind(s[..|s| - TrailingSpace(s)]))
  }

  /** White space stays white space, whatever else comes before or after. */
  lemma LeadingSpaceStays(s: string, more: string)
    requires LeadingSpace(s) > 0
    ensures var n := LeadingSpace(s); LeadingSpace(s[..n] + more) == n && (s[..n] + more)[n..] == more
  {
  }

  lemma TrailingSpaceStays(s: string, more: string)
    requires TrailingSpace(s) > 0
    ensures var (n, k) := (TrailingSpace(s), |s| - TrailingSpace(s));
            TrailingSpace(more + s[k..]) == n && (more + s[k..])[..|more|] == more
  {
    var k := |s| - TrailingSpace(s);
    assert forall i :: k <= i < |s| ==> (more + s[k..])[|more| + i - k] == s[i];
  }

  lemma JoinAt(s: string, n: nat, more: string, rest: string)
    requires n <= |s| && s[n..] == more + rest
    ensures s == (s[..n] + more) + rest
  {
    assert s == s[..n] + s[n..];
  }

  lemma {:induction false} TrimLeftSplits(s: string) returns (lead: string)
    ensures s == lead + TrimLeftSpace(s) && SpacesAhead(lead) && LeadingSpace(TrimLeftSpace(s)) == 0
    decreases |s|
  {
    hide LeadingSpace;
    var n := LeadingSpace(s);
    lead := "";
    if n > 0 {
      var more := TrimLeftSplits(s[n..]);
      LeadingSpaceStays(s, more);
      lead := s[..n] + more;
      JoinAt(s, n, more, TrimLeftSpace(s));
    }
  }

  lemma {:induction false} TrimRightSplits(s: string) returns (trail: string)
    ensures s == TrimRightSpace(s) + trail && SpacesBehind(trail) && TrailingSpace(TrimRightSpace(s)) == 0
    decreases |s|
  {
    hide TrailingSpace;
    var k := |s| - TrailingSpace(s);
    trail := "";
    if k < |s| {
      var more := TrimRightSplits(s[..k]);
      TrailingSpaceStays(s, more);
      trail := more + s[k..];
      assert s == s[..k] + s[k..];
    }
  }

  lemma {:induction false} TrimCrSplits(s: string) returns (endings: string)
    ensures s == TrimCr(s) + endings && forall i :: 0 <= i < |endings| ==> endings[i] == '\r'
    decreases |s|
  {
    endings := "";
    if s != "" && s[|s| - 1] == '\r' {
      var more := TrimCrSplits(s[..|s| - 1]);
      endings := more + ['\r'];
      assert s == s[..|s| - 1] + ['\r'];
    }
  }

  /** `core` is `line` without the white space and carriage returns around it. */
  ghost predicate TrimmedTo(line: string, core: string) {
    && LeadingSpace(core) == 0 && TrailingSpace(core) == 0
    && exists lead, trail, end :: line == lead + (core + (trail + end)) && SpacesAhead(lead) && SpacesBehind(trail)
                                  && forall i :: 0 <= i < |end| ==> end[i] == '\r'
  }

  lemma PrefixStartsSolid(s: string, k: nat)
    requires k <= |s| && LeadingSpace(s) == 0
    ensures LeadingSpace(s[..k]) == 0
  {
  }

  lemma Regroup(lead: string, core: string, trail: string, end: string)
    ensures (lead + (core + trail)) + end == lead + (core + (trail + end))
  {
  }

  lemma TrimsExactly(line: string)
    ensures TrimmedTo(line, TrimSpace(TrimCr(line)))
  {
    hide LeadingSpace, TrailingSpace, SpacesAhead, SpacesBehind, TrimCr, TrimLeftSpace, TrimRightSpace;
    var end := TrimCrSplits(line);
    var lead := TrimLeftSplits(TrimCr(line));
    var body := TrimLeftSpace(TrimCr(line));
    var trail := TrimRightSplits(body);
    var core := TrimRightSpace(body);
    assert core == body[..|core|];
    PrefixStartsSolid(body, |core|);
    Regroup(lead, core, trail, end);
  }

  // --- Printed files parse back -----------------------------------------------------------------

  /** A visible ASCII character. */
  predicate IsSolid(c: char) { 33 <= c as int < 127 }

  predicate AsciiSpaces(s: string) {
    forall i :: 0 <= i < |s| ==> IsAsciiSpace(s[i])
  }

  /** `t` is `s` without some of what follows its first `k` characters. */
  ghost predicate Trimmed(s: string, t: string, k: nat) {
    k <= |t| <= |s| && t == s[..|t|]
  }

  /** Trimming on the right stops at the last visible character. */
  lemma {:induction false} TrimRightStops(s: string, k: nat)
    requires 0 < k <= |s| && IsSolid(s[k - 1])
    ensures Trimmed(s, TrimRightSpace(s), k)
    decreases |s|
  {
    var n := TrailingSpace(s);
    if n > 0 {
      assert k <= |s| - n;
      TrimRightStops(s[..|s| - n], k);
    }
  }

  lemma {:induction false} TrimCrStops(s: string, k: nat)
    requires 0 < k <= |s| && IsSolid(s[k - 1])
    ensures Trimmed(s, TrimCr(s), k)
    decreases |s|
  {
    if s[|s| - 1] == '\r' {
      TrimCrStops(s[..|s| - 1], k);
    }
  }

  lemma {:induction false} TrimLeftStops(lead: string, body: string)
    requires AsciiSpaces(lead) && body != "" && IsSolid(body[0])
    ensures TrimLeftSpace(lead + body) == body
  {
    if lead == "" {
      assert lead + body == body;
    } else {
      TrimLeftStops(lead[1..], body);
      assert (lead + body)[1..] == lead[1..] + body;
    }
  }

  /** The core of a line, from its first visible character to position `k`, survives trimming. */
  lemma CoreSurvives(lead: string, body: string, k: nat)
    requires AsciiSpaces(lead) && 0 < k <= |body| && IsSolid(body[0]) && IsSolid(body[k - 1])
    ensures Trimmed(body, TrimSpace(TrimCr(lead + body)), k)
  {
    var line := lead + body;
    TrimCrStops(line, |lead| + k);
    var body' := TrimCr(line)[|lead|..];
    assert TrimCr(line) == lead + body';
    assert body' == body[..|body'|];
    TrimLeftStops(lead, body');
    TrimRightStops(body', k);
  }

  /** `key`, `sep`, spaces and tabs, and a number. */
  function Core(key: string, sep: char, gap: string, n: nat): string {
    key + ([sep] + (gap + Print(n)))
  }

  lemma NumberIsRead(gap: string, n: nat, tail: string)
    requires Gaps(gap) && n < WORD && (tail != "" ==> !IsDigit(tail[0]))
    ensures ValueOf(gap + (Print(n) + tail)) == Some(n)
  {
    var digits := Print(n) + tail;
    PrintIsDecimal(n);
    assert IsDigit(digits[0]);
    RunStops(IsGap, gap, digits);
    assert (gap + digits)[|gap|..] == digits;
    PrintedNumberReads(n, tail);
  }

  lemma KeyIsCut(key: string, sep: char, rest: string)
    requires sep !in key
    ensures IndexByte(key + ([sep] + rest), sep) == |key|
    ensures (key + ([sep] + rest))[..|key|] == key && (key + ([sep] + rest))[|key| + 1..] == rest
  {
    var line := key + ([sep] + rest);
    assert line[|key|] == sep;
    assert forall i :: 0 <= i < |key| ==> line[i] == key[i];
  }

  lemma CoreIsField(key: string, sep: char, gap: string, n: nat, tail: string)
    requires sep !in key && Gaps(gap) && n < WORD && (tail != "" ==> !IsDigit(tail[0]))
    ensures FieldIn(sep, Core(key, sep, gap, n) + tail) == Some(Field(key, n))
  {
    var rest := gap + (Print(n) + tail);
    assert Core(key, sep, gap, n) + tail == key + ([sep] + rest);
    KeyIsCut(key, sep, rest);
    NumberIsRead(gap, n, tail);
  }

  /** A printed field: spaces, `key`, `sep`, spaces and tabs, a number, and anything but a digit. */
  function PrintedLine(lead: string, key: string, sep: char, gap: string, n: nat, tail: string): string {
    lead + (Core(key, sep, gap, n) + tail)
  }

  predicate Printable(lead: string, key: string, sep: char, gap: string, n: nat, tail: string) {
    && AsciiSpaces(lead) && key != "" && IsSolid(key[0]) && sep !in key
    && Gaps(gap) && n < WORD && (tail != "" ==> !IsDigit(tail[0]))
  }

  /** It is recorded exactly, whatever spaces, carriage returns or units surround it. */
  lemma PrintedLineRecords(lead: string, key: string, sep: char, gap: string, n: nat, tail: string)
    requires Printable(lead, key, sep, gap, n, tail)
    ensures Recorded(sep, PrintedLine(lead, key, sep, gap, n, tail)) == Some(Field(key, n))
  {
    var core := Core(key, sep, gap, n);
    var line := TrimSpace(TrimCr(lead + (core + tail)));
    PrintIsDecimal(n);
    assert core[|core| - 1] == Print(n)[|Print(n)| - 1];
    CoreSurvives(lead, core + tail, |core|);
    var kept := line[|core|..];
    assert line == core + kept;
    assert kept != "" ==> kept[0] == tail[0];
    CoreIsField(key, sep, gap, n, kept);
  }

  /** Lines, each ended by a newline, and a last one that is not. */
  function Unlines(lines: seq<string>, last: string): string {
    if lines == [] then last else lines[0] + (['\n'] + Unlines(lines[1..], last))
  }

  predicate NewlineFree(lines: seq<string>) {
    forall i :: 0 <= i < |lines| ==> '\n' !in lines[i]
  }

  lemma {:induction false} LinesOfUnlines(lines: seq<string>, last: string)
    requires NewlineFree(lines) && '\n' !in last
    ensures Lines(Unlines(lines, last)) == lines + (if last == "" then [] else [last])
  {
    if lines == [] {
      if last != "" {
        assert FirstLine(last) == last && LaterLines(last) == "";
      }
    } else {
      var data, more := Unlines(lines, last), Unlines(lines[1..], last);
      assert '\n' !in lines[0];
      LinesOfUnlines(lines[1..], last);
      KeyIsCut(lines[0], '\n', more);
      assert FirstLine(data) == lines[0] && LaterLines(data) == more;
      assert [lines[0]] + lines[1..] == lines;
    }
  }

  /** The last line that records `key` decides, wherever it stands. */
  lemma {:induction false} SeenAt(sep: char, lines: seq<string>, i: nat, key: string, value: nat)
    requires i < |lines| && Recorded(sep, lines[i]) == Some(Field(key, value))
    requires forall j :: i < j < |lines| && Recorded(sep, lines[j]).Some? ==> Recorded(sep, lines[j]).value.key != key
    ensures Seen(sep, lines, key) == Some(value)
  {
    if i < |lines| - 1 {
      SeenAt(sep, lines[..|lines| - 1], i, key, value);
    }
  }

  /**
   * Round trip: in a file of any lines, in any order, a printed field is what the parser stores for
   * its key unless a later line records the same key.
   */
  lemma PrintedFieldParsesBack(sep: char, lines: seq<string>, i: nat, lead: string, key: string, gap: string, n: nat,
                               tail: string)
    requires NewlineFree(lines) && i < |lines|
    requires Printable(lead, key, sep, gap, n, tail) && lines[i] == PrintedLine(lead, key, sep, gap, n, tail)
    requires forall j :: i < j < |lines| && Recorded(sep, lines[j]).Some? ==> Recorded(sep, lines[j]).value.key != key
    ensures Seen(sep, Lines(Unlines(lines, "")), key) == Some(n)
  {
    LinesOfUnlines(lines, "");
    PrintedLineRecords(lead, key, sep, gap, n, tail);
    SeenAt(sep, lines, i, key, n);
    assert Lines(Unlines(lines, "")) == lines;
  }

  /** Line `i` prints `n` for `key`, and no later line records that key. */
  ghost predicate PrintedAt(sep: char, lines: seq<string>, i: nat, key: string, n: nat) {
    && i < |lines|
    && (exists lead, gap, tail :: Printable(lead, key, sep, gap, n, tail)
                                  && lines[i] == PrintedLine(lead, key, sep, gap, n, tail))
    && forall j :: i < j < |lines| && Recorded(sep, lines[j]).Some? ==> Recorded(sep, lines[j]).value.key != key
  }

  /** A record printed field by field, in any order and among any other lines, parses back whole. */
  lemma PrintedRecordParsesBack(sep: char, lines: seq<string>, keys: seq<string>, vs: seq<nat>, was: seq<nat>)
    requires NewlineFree(lines) && |keys| == |vs| == |was|
    requires forall k :: 0 <= k < |keys| ==> exists i: nat :: PrintedAt(sep, lines, i, keys[k], vs[k])
    ensures AllLatest(sep, Lines(Unlines(lines, "")), keys, was, vs)
  {
    forall k | 0 <= k < |keys| ensures vs[k] == Latest(sep, Lines(Unlines(lines, "")), keys[k], was[k]) {
      var i: nat :| PrintedAt(sep, lines, i, keys[k], vs[k]);
      var lead, gap, tail :| Printable(lead, keys[k], sep, gap, vs[k], tail)
                             && lines[i] == PrintedLine(lead, keys[k], sep, gap, vs[k], tail);
      PrintedFieldParsesBack(sep, lines, i, lead, keys[k], gap, vs[k], tail);
    }
  }
}
