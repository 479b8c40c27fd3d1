/**
  Reading a version out of what an agent prints, comparing it with a pinned floor, and the probe that reads
  line by line and stops as soon as it can.
*/
module Versions {
  import opened Prelude
  import opened Events
  import opened Help

  // Components.

  function Digits(s: string): bool {
    |s| == 0 || (Digit(s[0]) && Digits(s[1..]))
  }

  function Value(s: string): nat
    requires Digits(s)
  {
    if |s| == 0 then 0
    else
      DigitsButLast(s);
      10 * Value(s[..|s| - 1]) + (s[|s| - 1] as int - '0' as int)
  }

  lemma {:induction false} DigitsButLast(s: string)
    requires Digits(s) && |s| > 0
    ensures Digits(s[..|s| - 1]) && Digit(s[|s| - 1])
  {
    if |s| > 1 {
      DigitsButLast(s[1..]);
      assert s[1..][..|s| - 2] == s[..|s| - 1][1..];
    }
  }

  const U64_MAX := 0xFFFF_FFFF_FFFF_FFFF

  /** A part as an unsigned 64-bit number: digits alone, and not too many. */
  function ParseU64(part: string): Option<nat> {
    if |part| > 0 && Digits(part) && Value(part) <= U64_MAX then Some(Value(part)) else None
  }

  /** The parts of a text between dots: one more than there are dots. */
  function Parts(s: string): (parts: seq<string>)
    ensures parts != []
    decreases |s|
  {
    match SplitAt(s, '.')
    case None => [s]
    case Some(split) => [split.before] + Parts(split.after)
  }

  function ParseAll(parts: seq<string>): Option<seq<nat>> {
    if |parts| == 0 then Some([])
    else
      match ParseU64(parts[0])
      case None => None
      case Some(first) =>
        match ParseAll(parts[1..])
        case None => None
        case Some(rest) => Some([first] + rest)
  }

  function TrimV(s: string): string {
    if |s| > 0 && s[0] == 'v' then TrimV(s[1..]) else s
  }

  /** Up to the first `-` or `+`, where a pre-release or a build suffix begins. */
  function Core(s: string): string {
    if |s| == 0 || s[0] == '-' || s[0] == '+' then [] else [s[0]] + Core(s[1..])
  }

  /** The dotted numbers in a version, or nothing when it is not made of them. */
  function Components(version: string): Option<seq<nat>> {
    var core := Trim(Core(TrimV(Trim(version))));
    if |core| == 0 then None else ParseAll(Parts(core))
  }

  predicate Readable(version: string) {
    Components(version).Some?
  }

  // Comparing.

  /** A missing component counts as zero. */
  function At(v: seq<nat>, i: nat): nat {
    if i < |v| then v[i] else 0
  }

  /** Zero-padded lexicographic order: where two versions first differ, the first is the larger. */
  ghost predicate NotBelow(a: seq<nat>, b: seq<nat>) {
    forall i: nat :: (forall j: nat :: j < i ==> At(a, j) == At(b, j)) ==> At(a, i) >= At(b, i)
  }

  ghost predicate SameFrom(a: seq<nat>, b: seq<nat>) {
    forall i: nat :: At(a, i) == At(b, i)
  }

  datatype Comparison = AtLeast | Below | Unknown

  /** The comparison as the source makes it, component by component up to the longer of the two. */
  method CompareComponents(found: seq<nat>, minimum: seq<nat>) returns (answer: Comparison)
    ensures answer != Unknown
    ensures answer == AtLeast <==> NotBelow(found, minimum)
  {
    var width := if |found| > |minimum| then |found| else |minimum|;
    var index := 0;
    while index < width
      invariant 0 <= index <= width
      invariant forall j: nat :: j < index ==> At(found, j) == At(minimum, j)
    {
      var left := if index < |found| then found[index] else 0;
      var right := if index < |minimum| then minimum[index] else 0;
      if left != right {
        FirstDifference(found, minimum, index);
        return if left > right then AtLeast else Below;
      }
      index := index + 1;
    }
    assert forall i: nat :: At(found, i) == At(minimum, i);
    return AtLeast;
  }

  lemma FirstDifference(a: seq<nat>, b: seq<nat>, n: nat)
    requires (forall j: nat :: j < n ==> At(a, j) == At(b, j)) && At(a, n) != At(b, n)
    ensures NotBelow(a, b) <==> At(a, n) > At(b, n)
  {
  }

  /** The first place two versions differ, if they do. */
  lemma Differ(a: seq<nat>, b: seq<nat>, n: nat) returns (first: nat)
    requires At(a, n) != At(b, n)
    ensures (forall j: nat :: j < first ==> At(a, j) == At(b, j)) && At(a, first) != At(b, first)
  {
    first := 0;
    while At(a, first) == At(b, first)
      invariant first <= n && forall j: nat :: j < first ==> At(a, j) == At(b, j)
      decreases n - first
    {
      first := first + 1;
    }
  }

  /** The order is total, and two versions each not below the other are the same but for trailing zeros. */
  lemma OrderIsTotal(a: seq<nat>, b: seq<nat>)
    ensures NotBelow(a, b) || NotBelow(b, a)
    ensures NotBelow(a, b) && NotBelow(b, a) <==> SameFrom(a, b)
  {
    if n: nat :| At(a, n) != At(b, n) {
      var first := Differ(a, b, n);
      FirstDifference(a, b, first);
      FirstDifference(b, a, first);
    }
  }

  lemma OrderIsTransitive(a: seq<nat>, b: seq<nat>, c: seq<nat>)
    requires NotBelow(a, b) && NotBelow(b, c)
    ensures NotBelow(a, c)
  {
    if n: nat :| At(a, n) != At(c, n) {
      var first := Differ(a, c, n);
      if m: nat :| m <= first && At(a, m) != At(b, m) {
        var early := Differ(a, b, m);
        FirstDifference(a, b, early);
        FirstDifference(a, c, first);
        if early <= first {
          assert forall j: nat :: j < early ==> At(b, j) == At(c, j);
          assert At(b, early) >= At(c, early);
        }
      } else {
        assert forall j: nat :: j < first ==> At(b, j) == At(c, j);
        FirstDifference(a, c, first);
        assert At(b, first) >= At(c, first);
      }
    }
  }

  /** Trailing zeros change no comparison. */
  lemma TrailingZerosAreIgnored(a: seq<nat>, b: seq<nat>, zeros: seq<nat>)
    requires forall zero <- zeros :: zero == 0
    ensures SameFrom(a, a + zeros)
    ensures NotBelow(a + zeros, b) <==> NotBelow(a, b)
    ensures NotBelow(b, a + zeros) <==> NotBelow(b, a)
  {
    forall i: nat
      ensures At(a + zeros, i) == At(a, i)
    {
      if |a| <= i < |a + zeros| {
        assert (a + zeros)[i] == zeros[i - |a|] && zeros[i - |a|] in zeros;
      }
    }
    if NotBelow(a, b) {
      assert NotBelow(a + zeros, b);
    }
    if NotBelow(a + zeros, b) {
      assert NotBelow(a, b);
    }
  }

  /** Whether `found` is at least `minimum`, when both can be read. */
  method Compare(found: string, minimum: string) returns (answer: Comparison)
    ensures answer == Unknown <==> !Readable(found) || !Readable(minimum)
    ensures answer != Unknown ==>
      (answer == AtLeast <==> NotBelow(Components(found).value, Components(minimum).value))
  {
    var left := Components(found);
    if left.None? {
      return Unknown;
    }
    var right := Components(minimum);
    if right.None? {
      return Unknown;
    }
    answer := CompareComponents(left.value, right.value);
  }

  // Finding.

  predicate Alphanumeric(c: char) {
    Letter(c) || Digit(c)
  }

  function TrimMarksStart(s: string): string {
    if |s| > 0 && !Alphanumeric(s[0]) then TrimMarksStart(s[1..]) else s
  }

  function TrimMarksEnd(s: string): string {
    if |s| > 0 && !Alphanumeric(s[|s| - 1]) then TrimMarksEnd(s[..|s| - 1]) else s
  }

  function WordRun(s: string): (n: nat)
    ensures n <= |s|
    ensures |s| > 0 && s[0] !in BLANKS ==> n > 0
  {
    if |s| > 0 && s[0] !in BLANKS then 1 + WordRun(s[1..]) else 0
  }

  /** The runs of characters between blanks. */
  function Tokens(s: string): seq<string>
    decreases |s|
  {
    if |s| == 0 then []
    else if s[0] in BLANKS then Tokens(s[1..])
    else [s[..WordRun(s)]] + Tokens(s[WordRun(s)..])
  }

  function Candidate(token: string): string {
    TrimV(TrimMarksEnd(TrimMarksStart(token)))
  }

  /** At least one dot, so a bare build number is not mistaken for a version. */
  predicate VersionShaped(candidate: string) {
    '.' in candidate && Readable(candidate)
  }

  function FirstOf(tokens: seq<string>): Option<string> {
    if |tokens| == 0 then None
    else if VersionShaped(Candidate(tokens[0])) then Some(Candidate(tokens[0]))
    else FirstOf(tokens[1..])
  }

  /** The first dotted number in a program's own `--version` output. */
  function Parse(output: string): Option<string> {
    FirstOf(Tokens(output))
  }

  lemma {:induction false} FoundIsReadable(tokens: seq<string>)
    ensures FirstOf(tokens).Some? ==> VersionShaped(FirstOf(tokens).value)
  {
    if |tokens| > 0 && !VersionShaped(Candidate(tokens[0])) {
      FoundIsReadable(tokens[1..]);
    }
  }

  // The gate.

  datatype Verdict = Usable | TooOld(found: string, minimum: string) | CannotTell

  method Gate(version: Option<string>, minimum: Option<string>) returns (verdict: Verdict)
    ensures verdict == CannotTell <==>
      version.None? || (minimum.Some? && (!Readable(version.value) || !Readable(minimum.value)))
    ensures verdict.TooOld? <==>
      && version.Some? && minimum.Some? && Readable(version.value) && Readable(minimum.value)
      && !NotBelow(Components(version.value).value, Components(minimum.value).value)
    ensures verdict.TooOld? ==> verdict == TooOld(version.value, minimum.value)
  {
    if version.None? {
      return CannotTell;
    }
    if minimum.None? {
      return Usable;
    }
    var answer := Compare(version.value, minimum.value);
    match answer {
      case AtLeast => verdict := Usable;
      case Below => verdict := TooOld(version.value, minimum.value);
      case Unknown => verdict := CannotTell;
    }
  }

  /** A version read from a program's output is refused as unreadable only for the floor's sake. */
  method GateOutput(output: string, minimum: Option<string>) returns (verdict: Verdict)
    ensures verdict == CannotTell <==> Parse(output).None? || (minimum.Some? && !Readable(minimum.value))
  {
    FoundIsReadable(Tokens(output));
    verdict := Gate(Parse(output), minimum);
  }

  // The probe.

  /** What a line stream yields next; a stream that yields nothing more has ended. */
  datatype Item = Line(text: string) | TooLong | Broken(error: string)

  datatype Found = Version(version: string) | NoVersion | ReadFailed(error: string)

  /** The lines ahead of whatever ends them. */
  function LinesOf(items: seq<Item>): seq<string> {
    if |items| == 0 || !items[0].Line? then [] else [items[0].text] + LinesOf(items[1..])
  }

  /** Every line with its terminator. */
  function CountedBytes(lines: seq<string>): nat {
    if |lines| == 0 then 0 else Utf8Length(lines[0]) + 1 + CountedBytes(lines[1..])
  }

  /** How many lines are read: up to and including the first at which the count passes the cap. */
  function LinesRead(lines: seq<string>, cap: int): nat {
    if |lines| == 0 then 0
    else if Utf8Length(lines[0]) + 1 > cap then 1
    else 1 + LinesRead(lines[1..], cap - (Utf8Length(lines[0]) + 1))
  }

  lemma {:induction false} TokensConcat(a: string, blank: char, b: string)
    requires blank in BLANKS
    ensures Tokens(a + ([blank] + b)) == Tokens(a) + Tokens(b)
    decreases |a|
  {
    var s := a + ([blank] + b);
    if |a| == 0 {
      assert s[1..] == b;
    } else if a[0] in BLANKS {
      assert s[1..] == a[1..] + ([blank] + b);
      TokensConcat(a[1..], blank, b);
    } else {
      WordRunBefore(a, [blank] + b);
      var n := WordRun(a);
      assert s[..n] == a[..n] && s[n..] == a[n..] + ([blank] + b);
      TokensConcat(a[n..], blank, b);
    }
  }

  lemma {:induction false} WordRunBefore(a: string, tail: string)
    requires |tail| == 0 || tail[0] in BLANKS
    ensures WordRun(a + tail) == WordRun(a)
  {
    if |a| > 0 {
      assert (a + tail)[1..] == a[1..] + tail;
      WordRunBefore(a[1..], tail);
    } else {
      assert a + tail == tail;
    }
  }

  lemma {:induction false} FirstOfConcat(a: seq<string>, b: seq<string>)
    ensures FirstOf(a + b) == if FirstOf(a).Some? then FirstOf(a) else FirstOf(b)
  {
    if |a| == 0 {
      assert a + b == b;
    } else {
      assert (a + b)[1..] == a[1..] + b;
      FirstOfConcat(a[1..], b);
    }
  }

  /** A line break is a blank: the first line with a version has the version of the whole text. */
  lemma ParseFirstLine(line: string, rest: seq<string>)
    requires |rest| > 0
    ensures Parse(Join([line] + rest, "\n")) == if Parse(line).Some? then Parse(line) else Parse(Join(rest, "\n"))
  {
    assert ([line] + rest)[1..] == rest;
    assert line + "\n" + Join(rest, "\n") == line + (['\n'] + Join(rest, "\n"));
    TokensConcat(line, '\n', Join(rest, "\n"));
    FirstOfConcat(Tokens(line), Tokens(Join(rest, "\n")));
  }

  /** What the probe should find: what parsing everything read at once gives, or why it could not. */
  function Expected(items: seq<Item>, cap: int): Found {
    var lines := LinesOf(items);
    var n := LinesRead(lines, cap);
    var found := if n <= |lines| then Parse(Join(lines[..n], "\n")) else None;
    if found.Some? then Version(found.value)
    else if n <= |lines| && CountedBytes(lines[..n]) > cap then NoVersion
    else if |lines| < |items| && items[|lines|].Broken? then ReadFailed(items[|lines|].error)
    else NoVersion
  }

  lemma LinesReadFits(lines: seq<string>, cap: int)
    ensures LinesRead(lines, cap) <= |lines|
    ensures |lines| > 0 ==> LinesRead(lines, cap) > 0
  {
  }

  /** One line without a version, within the cap, leaves what the rest gives under what is left of it. */
  lemma ExpectedStep(items: seq<Item>, cap: int)
    requires |items| > 0 && items[0].Line?
    ensures Parse(items[0].text).Some? ==> Expected(items, cap) == Version(Parse(items[0].text).value)
    ensures Parse(items[0].text).None? && Utf8Length(items[0].text) + 1 > cap ==> Expected(items, cap) == NoVersion
    ensures Parse(items[0].text).None? && Utf8Length(items[0].text) + 1 <= cap ==>
      Expected(items, cap) == Expected(items[1..], cap - (Utf8Length(items[0].text) + 1))
  {
    var line := items[0].text;
    var lines, rest := LinesOf(items), LinesOf(items[1..]);
    assert lines == [line] + rest && lines[1..] == rest;
    LinesReadFits(lines, cap);
    var n := LinesRead(lines, cap);
    assert lines[..n] == [line] + rest[..n - 1];
    assert ([line] + rest[..n - 1])[1..] == rest[..n - 1];
    if n == 1 {
      assert Join(lines[..1], "\n") == line;
      assert CountedBytes(lines[..1]) == Utf8Length(line) + 1;
    } else {
      ParseFirstLine(line, rest[..n - 1]);
    }
    if Utf8Length(line) + 1 <= cap {
      LinesReadFits(rest, cap - (Utf8Length(line) + 1));
      if n == 1 {
        assert rest == [] && rest[..0] == [];
        assert Parse(Join([], "\n")).None?;
      }
    }
  }

  /**
    The probe reads line by line, stops at the first version or past the cap, and answers exactly what parsing
    the newline-joined lines it was allowed to read would.
  */
  method FirstVersion(items: seq<Item>, maxBytes: nat) returns (found: Found)
    ensures found == Expected(items, maxBytes)
  {
    var read, index := 0, 0;
    assert items[0..] == items;
    while true
      invariant 0 <= index <= |items| && read <= maxBytes
      invariant Expected(items, maxBytes) == Expected(items[index..], maxBytes - read)
      decreases |items| - index
    {
      if index == |items| {
        NothingMore(items[index..], maxBytes - read);
        return NoVersion;
      }
      match items[index] {
        case TooLong =>
          NothingMore(items[index..], maxBytes - read);
          return NoVersion;
        case Broken(error) =>
          NothingMore(items[index..], maxBytes - read);
          return ReadFailed(error);
        case Line(text) =>
          ExpectedStep(items[index..], maxBytes - read);
          assert items[index..][1..] == items[index + 1..];
          var version := Parse(text);
          if version.Some? {
            return Version(version.value);
          }
          read := read + (Utf8Length(text) + 1);
          if read > maxBytes {
            return NoVersion;
          }
          index := index + 1;
      }
    }
  }

  lemma NothingMore(items: seq<Item>, cap: nat)
    requires |items| == 0 || !items[0].Line?
    ensures Expected(items, cap)
      == if |items| > 0 && items[0].Broken? then ReadFailed(items[0].error) else NoVersion
  {
  }
}
