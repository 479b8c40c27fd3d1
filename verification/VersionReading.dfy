/**
  What text is read as which version: a version written out is read back as its numbers, anything else in its
  place is unreadable, and the first word that is one, with whatever marks around it, is the one found.
*/
module VersionReading {
  import opened Prelude
  import opened Help
  import opened Versions

  // Writing.

  function Decimals(numbers: seq<nat>): seq<string> {
    if |numbers| == 0 then [] else [Decimal(numbers[0])] + Decimals(numbers[1..])
  }

  function Vs(k: nat): string {
    if k == 0 then [] else "v" + Vs(k - 1)
  }

  predicate AllBlank(s: string) {
    forall c <- s :: c in BLANKS
  }

  /** Nothing, or a pre-release or a build. */
  predicate Suffix(s: string) {
    s == [] || s[0] == '-' || s[0] == '+'
  }

  predicate NoCut(s: string) {
    '-' !in s && '+' !in s
  }

  /** A part that is a number of 64 bits. */
  predicate Number(part: string) {
    part != [] && (forall c <- part :: Digit(c)) && DecimalValue(part) <= U64_MAX
  }

  /** What digits amount to, from the first on. */
  function DecimalValue(part: string): int {
    if part == [] then 0
    else 10 * DecimalValue(part[..|part| - 1]) + (part[|part| - 1] as int - '0' as int)
  }

  /** A dotted text that can stand as the core of a version: not blank at its ends, and no `v` of its own ahead. */
  predicate CoreText(core: string) {
    && core != [] && core[0] !in BLANKS && core[|core| - 1] !in BLANKS && core[0] != 'v' && NoCut(core)
  }

  // Trimming.

  lemma {:induction false} TrimStartPast(lead: string, s: string)
    requires AllBlank(lead) && (s == [] || s[0] !in BLANKS)
    ensures TrimStart(lead + s) == s
  {
    if lead == [] {
      assert lead + s == s;
    } else {
      assert lead[0] in lead && (lead + s)[1..] == lead[1..] + s;
      assert forall c <- lead[1..] :: c in lead;
      TrimStartPast(lead[1..], s);
    }
  }

  lemma {:induction false} TrimEndBehind(s: string, rest: string)
    requires s != [] && s[|s| - 1] !in BLANKS
    ensures TrimEnd(s + rest) == s + TrimEnd(rest)
    decreases |rest|
  {
    if rest == [] {
      assert s + rest == s;
    } else {
      var n := |rest| - 1;
      assert (s + rest)[|s + rest| - 1] == rest[n] && (s + rest)[..|s + rest| - 1] == s + rest[..n];
      if rest[n] in BLANKS {
        TrimEndBehind(s, rest[..n]);
      }
    }
  }

  lemma {:induction false} TrimEndOfBlanks(blanks: string)
    requires AllBlank(blanks)
    ensures TrimEnd(blanks) == []
    decreases |blanks|
  {
    if blanks != [] {
      var n := |blanks| - 1;
      assert blanks[n] in blanks;
      assert forall c <- blanks[..n] :: c in blanks;
      TrimEndOfBlanks(blanks[..n]);
    }
  }

  lemma TrimBlanks(lead: string, core: string, tail: string)
    requires AllBlank(lead) && AllBlank(tail) && core != [] && core[0] !in BLANKS && core[|core| - 1] !in BLANKS
    ensures Trim(lead + (core + tail)) == core
  {
    TrimStartPast(lead, core + tail);
    TrimEndBehind(core, tail);
    TrimEndOfBlanks(tail);
    assert core + [] == core;
  }

  lemma {:induction false} TrimVs(k: nat, s: string)
    requires s == [] || s[0] != 'v'
    ensures TrimV(Vs(k) + s) == s
  {
    if k == 0 {
      assert Vs(0) + s == s;
    } else {
      assert (Vs(k) + s)[1..] == Vs(k - 1) + s;
      TrimVs(k - 1, s);
    }
  }

  lemma {:induction false} CoreBefore(s: string, suffix: string)
    requires NoCut(s) && Suffix(suffix)
    ensures Core(s + suffix) == s
  {
    if s == [] {
      assert s + suffix == suffix;
    } else {
      assert s[0] in s && (s + suffix)[1..] == s[1..] + suffix;
      assert forall c <- s[1..] :: c in s;
      CoreBefore(s[1..], suffix);
    }
  }

  lemma BlanksAreNoCut(s: string)
    requires AllBlank(s)
    ensures NoCut(s) && 'v' !in s
  {
  }

  // The core of a version.

  /** A version with blanks, `v`s and a suffix around its core. */
  function Dressed(lead: string, k: nat, gap: string, core: string, space: string, suffix: string): string {
    lead + (Vs(k) + (gap + (core + (space + suffix))))
  }

  /** What is left at the end begins the suffix, behind the same blanks. */
  lemma TrimmedEnd(space: string, suffix: string) returns (rest: string)
    requires suffix != [] && Suffix(suffix)
    ensures rest != [] && Suffix(rest) && TrimEnd(space + suffix) == space + rest
  {
    var first := space + [suffix[0]];
    assert suffix == [suffix[0]] + suffix[1..];
    Associates(space, [suffix[0]], suffix[1..]);
    TrimEndBehind(first, suffix[1..]);
    rest := [suffix[0]] + TrimEnd(suffix[1..]);
    Associates(space, [suffix[0]], TrimEnd(suffix[1..]));
  }

  lemma CoreIsFound(lead: string, k: nat, gap: string, core: string, space: string, suffix: string)
    requires AllBlank(lead) && AllBlank(gap) && AllBlank(space) && Suffix(suffix) && CoreText(core)
    ensures Trim(Core(TrimV(Trim(Dressed(lead, k, gap, core, space, suffix))))) == core
  {
    var tail := TrimEnd(space + suffix);
    var gap' := if k == 0 then [] else gap;
    TrimmedDress(lead, k, gap, core, space, suffix);
    assert AllBlank(gap') && TrimV(Vs(k) + (gap' + (core + tail))) == gap' + (core + tail) by {
      BlanksAreNoCut(gap');
      assert gap' != [] ==> gap'[0] in gap';
      TrimVs(k, gap' + (core + tail));
    }
    CutDress(gap', core, space, suffix);
  }

  lemma TrimmedDress(lead: string, k: nat, gap: string, core: string, space: string, suffix: string)
    requires AllBlank(lead) && AllBlank(gap) && core != [] && core[0] !in BLANKS && core[|core| - 1] !in BLANKS
    ensures Trim(Dressed(lead, k, gap, core, space, suffix))
      == Vs(k) + ((if k == 0 then [] else gap) + (core + TrimEnd(space + suffix)))
  {
    var tail := space + suffix;
    if k == 0 {
      assert lead + (Vs(0) + (gap + (core + tail))) == (lead + gap) + (core + tail);
      TrimStartPast(lead + gap, core + tail);
      TrimEndBehind(core, tail);
      assert Vs(0) + ([] + (core + TrimEnd(tail))) == core + TrimEnd(tail);
    } else {
      var whole := Vs(k) + (gap + (core + tail));
      assert whole[0] == 'v';
      TrimStartPast(lead, whole);
      var ahead := Vs(k) + (gap + core);
      assert whole == ahead + tail;
      assert ahead[|ahead| - 1] == core[|core| - 1];
      TrimEndBehind(ahead, tail);
      assert ahead + TrimEnd(tail) == Vs(k) + (gap + (core + TrimEnd(tail)));
    }
  }

  lemma CutDress(gap: string, core: string, space: string, suffix: string)
    requires AllBlank(gap) && AllBlank(space) && Suffix(suffix) && CoreText(core)
    ensures Trim(Core(gap + (core + TrimEnd(space + suffix)))) == core
  {
    BlanksAreNoCut(gap);
    BlanksAreNoCut(space);
    if suffix == [] {
      assert space + suffix == space;
      TrimEndOfBlanks(space);
      var kept := gap + (core + []);
      assert NoCut(kept) && kept + [] == kept;
      CoreBefore(kept, []);
      TrimBlanks(gap, core, []);
    } else {
      var rest := TrimmedEnd(space, suffix);
      var kept := gap + (core + space);
      assert NoCut(kept);
      assert gap + (core + (space + rest)) == kept + rest;
      CoreBefore(kept, rest);
      TrimBlanks(gap, core, space);
    }
  }

  // Its parts.

  lemma {:induction false} SplitAtDot(before: string, after: string)
    requires '.' !in before
    ensures SplitAt(before + ("." + after), '.') == Some(Split(before, after))
  {
    var s := before + ("." + after);
    if before == [] {
      assert s == "." + after && s[1..] == after;
    } else {
      assert before[0] in before && before == [before[0]] + before[1..];
      assert s[1..] == before[1..] + ("." + after);
      assert forall c <- before[1..] :: c in before;
      SplitAtDot(before[1..], after);
    }
  }

  lemma {:induction false} NothingToSplit(s: string)
    requires '.' !in s
    ensures SplitAt(s, '.').None?
  {
    if s != [] {
      assert s[0] in s;
      assert forall c <- s[1..] :: c in s;
      NothingToSplit(s[1..]);
    }
  }

  /** A text is taken apart at its dots into the parts it was joined from. */
  lemma {:induction false} PartsOfJoined(parts: seq<string>)
    requires parts != [] && forall part <- parts :: '.' !in part
    ensures Parts(Join(parts, ".")) == parts
  {
    assert parts[0] in parts;
    if |parts| == 1 {
      NothingToSplit(parts[0]);
    } else {
      var rest := Join(parts[1..], ".");
      assert forall part <- parts[1..] :: part in parts;
      PartsOfJoined(parts[1..]);
      assert parts[0] + "." + rest == parts[0] + ("." + rest);
      SplitAtDot(parts[0], rest);
      assert parts == [parts[0]] + parts[1..];
    }
  }

  /** And those joined again are the text. */
  lemma {:induction false} JoinedParts(s: string)
    ensures Join(Parts(s), ".") == s && forall part <- Parts(s) :: '.' !in part
    decreases |s|
  {
    SplitIsAt(s);
    if SplitAt(s, '.').Some? {
      var split := SplitAt(s, '.').value;
      JoinedParts(split.after);
      assert Parts(s)[1..] == Parts(split.after);
      assert split.before + "." + split.after == s;
    }
  }

  lemma {:induction false} SplitIsAt(s: string)
    ensures SplitAt(s, '.').None? ==> '.' !in s
    ensures SplitAt(s, '.').Some? ==>
      var split := SplitAt(s, '.').value; s == split.before + "." + split.after && '.' !in split.before
  {
    if s != [] && s[0] != '.' {
      SplitIsAt(s[1..]);
      assert s == [s[0]] + s[1..];
    }
  }

  // Numbers.

  lemma {:induction false} DigitsAre(part: string)
    ensures Digits(part) <==> forall c <- part :: Digit(c)
  {
    if part != [] {
      assert part == [part[0]] + part[1..];
      DigitsAre(part[1..]);
    }
  }

  lemma {:induction false} ValueIs(part: string)
    requires Digits(part)
    ensures Value(part) == DecimalValue(part)
    decreases |part|
  {
    if part != [] {
      DigitsButLast(part);
      ValueIs(part[..|part| - 1]);
    }
  }

  lemma NumberIsParsed(part: string)
    ensures Number(part) <==> ParseU64(part).Some?
    ensures Number(part) ==> ParseU64(part) == Some(DecimalValue(part))
  {
    DigitsAre(part);
    if Digits(part) {
      ValueIs(part);
    }
  }

  /** What digits amount to is the number they are the digits of. */
  lemma {:induction false} DecimalReadsBack(n: nat)
    ensures DecimalValue(Decimal(n)) == n && forall c <- Decimal(n) :: Digit(c)
  {
    if n >= 10 {
      DecimalReadsBack(n / 10);
      var s := Decimal(n);
      assert s[..|s| - 1] == Decimal(n / 10);
    } else {
      assert Decimal(n)[..0] == [];
    }
  }

  /** Numbers are read part by part, in their order, and one part that is none spoils them all. */
  lemma {:induction false} AllPartsRead(parts: seq<string>)
    ensures ParseAll(parts).Some? <==> forall part <- parts :: Number(part)
    ensures ParseAll(parts).Some? ==>
      && |ParseAll(parts).value| == |parts|
      && forall i :: 0 <= i < |parts| ==> ParseAll(parts).value[i] == DecimalValue(parts[i])
  {
    if parts != [] {
      NumberIsParsed(parts[0]);
      AllPartsRead(parts[1..]);
      assert parts == [parts[0]] + parts[1..];
    }
  }

  // Reading a version.

  /** The components read are what the parts amount to, one for one. */
  predicate AreTheNumbers(components: Option<seq<nat>>, parts: seq<string>) {
    && components.Some? && |components.value| == |parts|
    && forall i :: 0 <= i < |parts| ==> components.value[i] == DecimalValue(parts[i])
  }

  /**
    A text of parts joined by dots, under any blanks, leading `v`s and suffix, is read as what its parts amount
    to, in their order, exactly when each is a number of 64 bits; and as nothing otherwise.
  */
  lemma VersionsAreReadByParts(
    lead: string, k: nat, gap: string, parts: seq<string>, space: string, suffix: string)
    requires AllBlank(lead) && AllBlank(gap) && AllBlank(space) && Suffix(suffix)
    requires parts != [] && (forall part <- parts :: '.' !in part) && CoreText(Join(parts, "."))
    ensures var components := Components(Dressed(lead, k, gap, Join(parts, "."), space, suffix));
      if forall part <- parts :: Number(part) then AreTheNumbers(components, parts) else components.None?
  {
    CoreIsFound(lead, k, gap, Join(parts, "."), space, suffix);
    PartsOfJoined(parts);
    AllPartsRead(parts);
  }

  lemma {:induction false} DecimalsAre(numbers: seq<nat>)
    ensures |Decimals(numbers)| == |numbers|
    ensures forall i :: 0 <= i < |numbers| ==> Decimals(numbers)[i] == Decimal(numbers[i])
  {
    if numbers != [] {
      DecimalsAre(numbers[1..]);
    }
  }

  /** Digits and dots, and a digit at either end. */
  lemma {:induction false} JoinedDigits(parts: seq<string>)
    requires parts != [] && forall part <- parts :: part != [] && forall c <- part :: Digit(c)
    ensures var core := Join(parts, ".");
      && core != [] && Digit(core[0]) && Digit(core[|core| - 1])
      && (forall c <- core :: Digit(c) || c == '.')
      && (|parts| > 1 ==> '.' in core)
  {
    assert parts[0] in parts && parts[0][0] in parts[0];
    if |parts| > 1 {
      assert forall part <- parts[1..] :: part in parts;
      JoinedDigits(parts[1..]);
    } else {
      assert parts[0][|parts[0]| - 1] in parts[0];
    }
  }

  /** Every list of numbers of 64 bits is read back, from their digits joined by dots in any dress. */
  lemma VersionsReadBack(lead: string, k: nat, gap: string, numbers: seq<nat>, space: string, suffix: string)
    requires AllBlank(lead) && AllBlank(gap) && AllBlank(space) && Suffix(suffix)
    requires numbers != [] && forall n <- numbers :: n <= U64_MAX
    ensures Components(Dressed(lead, k, gap, Join(Decimals(numbers), "."), space, suffix)) == Some(numbers)
  {
    var parts := Decimals(numbers);
    DecimalsAre(numbers);
    forall i | 0 <= i < |parts|
      ensures parts[i] != [] && (forall c <- parts[i] :: Digit(c)) && Number(parts[i])
      ensures DecimalValue(parts[i]) == numbers[i]
    {
      DecimalReadsBack(numbers[i]);
      assert numbers[i] in numbers;
    }
    NumbersMakeACore(parts);
    VersionsAreReadByParts(lead, k, gap, parts, space, suffix);
    var components := Components(Dressed(lead, k, gap, Join(parts, "."), space, suffix));
    assert AreTheNumbers(components, parts);
    assert components.value == numbers;
  }

  lemma NumbersMakeACore(parts: seq<string>)
    requires parts != [] && forall part <- parts :: part != [] && forall c <- part :: Digit(c)
    ensures CoreText(Join(parts, ".")) && forall part <- parts :: '.' !in part
  {
    JoinedDigits(parts);
  }

  // Finding one.

  /** Numbers joined by dots, and a suffix, with a dot somewhere: what a program may print for its version. */
  ghost predicate VersionText(text: string) {
    '.' in text && exists parts, suffix :: WrittenAs(text, parts, suffix)
  }

  ghost predicate WrittenAs(text: string, parts: seq<string>, suffix: string) {
    && parts != [] && (forall part <- parts :: Number(part)) && Suffix(suffix)
    && text == Join(parts, ".") + suffix
  }

  predicate Marks(s: string) {
    forall c <- s :: !Alphanumeric(c)
  }

  predicate NoBlanks(s: string) {
    forall c <- s :: c !in BLANKS
  }

  /** A word that is a version between marks, perhaps with `v`s ahead of it. */
  ghost predicate VersionWord(word: string, text: string) {
    && VersionText(text) && Alphanumeric(text[|text| - 1])
    && exists before, k, after :: Marks(before) && Marks(after) && word == before + (Vs(k) + (text + after))
  }

  lemma {:induction false} TrimMarksStartPast(before: string, s: string)
    requires Marks(before) && s != [] && Alphanumeric(s[0])
    ensures TrimMarksStart(before + s) == s
  {
    if before == [] {
      assert before + s == s;
    } else {
      assert before[0] in before && (before + s)[1..] == before[1..] + s;
      assert forall c <- before[1..] :: c in before;
      TrimMarksStartPast(before[1..], s);
    }
  }

  lemma {:induction false} TrimMarksEndBehind(s: string, after: string)
    requires Marks(after) && s != [] && Alphanumeric(s[|s| - 1])
    ensures TrimMarksEnd(s + after) == s
    decreases |after|
  {
    if after == [] {
      assert s + after == s;
    } else {
      var n := |after| - 1;
      assert after[n] in after && (s + after)[|s + after| - 1] == after[n];
      assert (s + after)[..|s + after| - 1] == s + after[..n];
      assert forall c <- after[..n] :: c in after;
      TrimMarksEndBehind(s, after[..n]);
    }
  }

  lemma VersionTextStarts(text: string)
    requires VersionText(text)
    ensures text != [] && Digit(text[0])
  {
    var parts, suffix :| WrittenAs(text, parts, suffix);
    JoinedDigits(parts);
  }

  lemma WordIsStripped(before: string, k: nat, text: string, after: string)
    requires Marks(before) && Marks(after)
    requires text != [] && Digit(text[0]) && Alphanumeric(text[|text| - 1])
    ensures Candidate(before + (Vs(k) + (text + after))) == text
  {
    var inner := Vs(k) + text;
    assert before + (Vs(k) + (text + after)) == before + (inner + after);
    assert inner[|inner| - 1] == text[|text| - 1];
    assert k > 0 ==> inner[0] == 'v';
    assert k == 0 ==> inner == text;
    TrimMarksStartPast(before, inner + after);
    TrimMarksEndBehind(inner, after);
    TrimVs(k, text);
  }

  /** What is stripped off a word is marks and `v`s. */
  lemma {:induction false} StartMarksOf(s: string) returns (before: string)
    ensures Marks(before) && s == before + TrimMarksStart(s)
    ensures TrimMarksStart(s) != [] ==> Alphanumeric(TrimMarksStart(s)[0])
  {
    if s != [] && !Alphanumeric(s[0]) {
      var rest := StartMarksOf(s[1..]);
      before := [s[0]] + rest;
      Associates([s[0]], rest, TrimMarksStart(s[1..]));
      assert s == [s[0]] + s[1..];
    } else {
      before := [];
      assert [] + s == s;
    }
  }

  lemma {:induction false} EndMarksOf(s: string) returns (after: string)
    ensures Marks(after) && s == TrimMarksEnd(s) + after
    ensures TrimMarksEnd(s) != [] ==> Alphanumeric(TrimMarksEnd(s)[|TrimMarksEnd(s)| - 1])
    decreases |s|
  {
    if s != [] && !Alphanumeric(s[|s| - 1]) {
      var n := |s| - 1;
      var rest := EndMarksOf(s[..n]);
      after := rest + [s[n]];
      assert TrimMarksEnd(s) == TrimMarksEnd(s[..n]);
      Associates(TrimMarksEnd(s[..n]), rest, [s[n]]);
      assert s == s[..n] + [s[n]];
    } else {
      after := [];
      assert s + [] == s;
    }
  }

  lemma {:induction false} VsOf(s: string) returns (k: nat)
    ensures s == Vs(k) + TrimV(s) && (TrimV(s) == [] || TrimV(s)[0] != 'v')
  {
    if s != [] && s[0] == 'v' {
      var n := VsOf(s[1..]);
      k := n + 1;
      Associates("v", Vs(n), TrimV(s[1..]));
      assert s == [s[0]] + s[1..];
    } else {
      k := 0;
      assert Vs(0) + s == s;
    }
  }

  lemma {:induction false} CoreOf(s: string)
    ensures NoCut(Core(s)) && |Core(s)| <= |s| && s == Core(s) + s[|Core(s)|..] && Suffix(s[|Core(s)|..])
  {
    if s != [] && s[0] != '-' && s[0] != '+' {
      CoreOf(s[1..]);
      assert s == [s[0]] + s[1..];
      assert s[1..][|Core(s[1..])|..] == s[|Core(s)|..];
    }
  }

  lemma NothingToTrim(s: string)
    requires NoBlanks(s)
    ensures Trim(s) == s
  {
    if s != [] {
      assert s[0] in s && s[|s| - 1] in s;
      TrimBlanks([], s, []);
      assert [] + (s + []) == s;
    }
  }

  /** A text without blanks and without a `v` ahead can be read exactly when it is numbers and a suffix. */
  lemma ReadableIff(text: string)
    requires NoBlanks(text) && (text == [] || text[0] != 'v')
    ensures Readable(text) <==> exists parts, suffix :: WrittenAs(text, parts, suffix)
  {
    if exists parts, suffix :: WrittenAs(text, parts, suffix) {
      var parts, suffix :| WrittenAs(text, parts, suffix);
      NumbersMakeACore(parts);
      VersionsAreReadByParts([], 0, [], parts, [], suffix);
      assert Dressed([], 0, [], Join(parts, "."), [], suffix) == text;
    }
    if Readable(text) {
      var parts, suffix := ReadableIsWritten(text);
    }
  }

  lemma ReadableIsWritten(text: string) returns (parts: seq<string>, suffix: string)
    requires NoBlanks(text) && (text == [] || text[0] != 'v') && Readable(text)
    ensures WrittenAs(text, parts, suffix)
  {
    var core := Core(text);
    CoreOf(text);
    parts, suffix := Parts(core), text[|core|..];
    NothingToTrim(text);
    assert forall c <- core :: c in text;
    NothingToTrim(core);
    JoinedParts(core);
    AllPartsRead(Parts(core));
  }

  lemma CandidateIsPart(word: string) returns (before: string, k: nat, after: string)
    ensures Marks(before) && Marks(after) && word == before + (Vs(k) + (Candidate(word) + after))
    ensures Candidate(word) == [] || Candidate(word)[0] != 'v'
    ensures Candidate(word) != [] ==> Alphanumeric(Candidate(word)[|Candidate(word)| - 1])
  {
    var started := TrimMarksStart(word);
    var ended := TrimMarksEnd(started);
    before := StartMarksOf(word);
    after := EndMarksOf(started);
    k := VsOf(ended);
    if TrimV(ended) != [] {
      LastOf(Vs(k), TrimV(ended));
    }
    Regroup(before, Vs(k), TrimV(ended), after);
  }

  lemma LastOf(a: string, b: string)
    requires b != []
    ensures (a + b)[|a + b| - 1] == b[|b| - 1]
  {
  }

  lemma Associates(a: string, b: string, c: string)
    ensures a + (b + c) == a + b + c
  {
  }

  lemma Regroup(a: string, b: string, c: string, d: string)
    ensures a + ((b + c) + d) == a + (b + (c + d))
  {
  }

  lemma PartHasNoBlanks(a: string, b: string, text: string, d: string)
    requires NoBlanks(a + (b + (text + d)))
    ensures NoBlanks(text)
  {
    assert forall c <- text :: c in a + (b + (text + d));
  }

  /** A word reads as a version exactly when it is one between marks, and as that one. */
  lemma WordReadsIff(word: string)
    requires NoBlanks(word)
    ensures VersionShaped(Candidate(word)) <==> VersionWord(word, Candidate(word))
    ensures forall text :: VersionWord(word, text) ==> Candidate(word) == text
  {
    var text := Candidate(word);
    var ahead, n, behind := CandidateIsPart(word);
    PartHasNoBlanks(ahead, Vs(n), text, behind);
    ReadableIff(text);
    forall other | VersionWord(word, other)
      ensures Candidate(word) == other
    {
      var before, k, after :| Marks(before) && Marks(after) && word == before + (Vs(k) + (other + after));
      VersionTextStarts(other);
      WordIsStripped(before, k, other, after);
    }
  }

  // Finding one in an output.

  /** Words behind blanks, and blanks at the end. */
  function Spread(gaps: seq<string>, words: seq<string>, tail: string): string
    requires |gaps| == |words|
  {
    if |words| == 0 then tail else gaps[0] + (words[0] + Spread(gaps[1..], words[1..], tail))
  }

  predicate Spaced(gaps: seq<string>, words: seq<string>, tail: string) {
    && |gaps| == |words| && AllBlank(tail)
    && (forall gap <- gaps :: AllBlank(gap)) && (forall i :: 0 < i < |gaps| ==> gaps[i] != [])
    && (forall word <- words :: word != [] && NoBlanks(word))
  }

  lemma {:induction false} TokensPast(gap: string, s: string)
    requires AllBlank(gap)
    ensures Tokens(gap + s) == Tokens(s)
  {
    if gap == [] {
      assert gap + s == s;
    } else {
      assert gap[0] in gap && (gap + s)[1..] == gap[1..] + s;
      assert forall c <- gap[1..] :: c in gap;
      TokensPast(gap[1..], s);
    }
  }

  lemma {:induction false} WordRunOf(word: string, rest: string)
    requires NoBlanks(word) && (rest == [] || rest[0] in BLANKS)
    ensures WordRun(word + rest) == |word|
  {
    if word == [] {
      assert word + rest == rest;
    } else {
      assert word[0] in word && (word + rest)[1..] == word[1..] + rest;
      assert forall c <- word[1..] :: c in word;
      WordRunOf(word[1..], rest);
    }
  }

  /** A text is taken apart at its blanks into the words it was spread from. */
  lemma {:induction false} TokensOfSpread(gaps: seq<string>, words: seq<string>, tail: string)
    requires Spaced(gaps, words, tail)
    ensures Tokens(Spread(gaps, words, tail)) == words
  {
    if words == [] {
      TokensPast(tail, []);
      assert tail + [] == tail;
    } else {
      var rest := Spread(gaps[1..], words[1..], tail);
      assert gaps[0] in gaps && words[0] in words;
      assert forall gap <- gaps[1..] :: gap in gaps;
      assert forall word <- words[1..] :: word in words;
      TokensOfSpread(gaps[1..], words[1..], tail);
      SpreadStartsBlank(gaps, words, tail);
      TokensPast(gaps[0], words[0] + rest);
      WordRunOf(words[0], rest);
      FirstToken(words[0], rest);
    }
  }

  lemma SpreadStartsBlank(gaps: seq<string>, words: seq<string>, tail: string)
    requires Spaced(gaps, words, tail) && words != []
    ensures var rest := Spread(gaps[1..], words[1..], tail); rest == [] || rest[0] in BLANKS
  {
    if |words| > 1 {
      assert gaps[1] in gaps && gaps[1][0] in gaps[1];
    } else {
      assert tail != [] ==> tail[0] in tail;
    }
  }

  lemma FirstToken(word: string, rest: string)
    requires word != [] && NoBlanks(word) && WordRun(word + rest) == |word|
    ensures Tokens(word + rest) == [word] + Tokens(rest)
  {
    assert word[0] in word && (word + rest)[0] == word[0];
    assert (word + rest)[..|word|] == word && (word + rest)[|word|..] == rest;
  }

  lemma {:induction false} FirstOfWords(words: seq<string>, i: nat)
    requires i < |words| && forall j :: 0 <= j < i ==> !VersionShaped(Candidate(words[j]))
    requires VersionShaped(Candidate(words[i]))
    ensures FirstOf(words) == Some(Candidate(words[i]))
  {
    if i > 0 {
      assert !VersionShaped(Candidate(words[0]));
      FirstOfWords(words[1..], i - 1);
    }
  }

  lemma {:induction false} NoneOfWords(words: seq<string>)
    requires forall word <- words :: !VersionShaped(Candidate(word))
    ensures FirstOf(words).None?
  {
    if words != [] {
      assert words[0] in words;
      NoneOfWords(words[1..]);
    }
  }

  /**
    The first word of an output that is a version between marks is the version found, without its marks; and
    none is found in an output that has no such word.
  */
  lemma TheFirstVersionIsFound(gaps: seq<string>, words: seq<string>, tail: string)
    requires Spaced(gaps, words, tail)
    ensures forall i: nat, text |
      i < |words| && VersionWord(words[i], text) && NoVersionAhead(words, i) ::
      Parse(Spread(gaps, words, tail)) == Some(text)
    ensures NoVersionAhead(words, |words|) ==> Parse(Spread(gaps, words, tail)).None?
  {
    TokensOfSpread(gaps, words, tail);
    forall i: nat | i < |words|
      ensures VersionShaped(Candidate(words[i])) <==> VersionWord(words[i], Candidate(words[i]))
      ensures forall text :: VersionWord(words[i], text) ==> Candidate(words[i]) == text
    {
      assert words[i] in words;
      WordReadsIff(words[i]);
    }
    forall i: nat, text | i < |words| && VersionWord(words[i], text) && NoVersionAhead(words, i)
      ensures Parse(Spread(gaps, words, tail)) == Some(text)
    {
      FirstOfWords(words, i);
    }
    if NoVersionAhead(words, |words|) {
      NoneOfWords(words);
    }
  }

  ghost predicate NoVersionAhead(words: seq<string>, n: nat) {
    forall j: nat, text :: j < n && j < |words| ==> !VersionWord(words[j], text)
  }
}
