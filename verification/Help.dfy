/**
  Reading a commander program's `--help` into the options it declares, as functions over its lines. The scans
  the source makes with loops are in `HelpScans.dfy`; what reading back a rendered help gives is in
  `HelpRoundTrip.dfy`.
*/
module Help {
  import opened Prelude

  // Characters.

  predicate AsciiBlank(c: char) {
    c == ' ' || c == '\t' || c == '\n' || c == '\U{0C}' || c == '\r'
  }

  predicate Letter(c: char) {
    'a' <= c <= 'z' || 'A' <= c <= 'Z'
  }

  predicate Digit(c: char) {
    '0' <= c <= '9'
  }

  /** What a long flag is made of after its dashes. */
  predicate FlagChar(c: char) {
    Letter(c) || Digit(c) || c == '-' || c == '_'
  }

  // Text.

  function TrimStart(s: string): string {
    if |s| > 0 && s[0] in BLANKS then TrimStart(s[1..]) else s
  }

  function TrimEnd(s: string): string {
    if |s| > 0 && s[|s| - 1] in BLANKS then TrimEnd(s[..|s| - 1]) else s
  }

  function Trim(s: string): string {
    TrimEnd(TrimStart(s))
  }

  /** `parts`, one after another, with `gap` between them. */
  function Join(parts: seq<string>, gap: string): string {
    if |parts| == 0 then []
    else if |parts| == 1 then parts[0]
    else parts[0] + gap + Join(parts[1..], gap)
  }

  predicate StartsWith(s: string, pattern: string) {
    |pattern| == 0 || (|s| > 0 && s[0] == pattern[0] && StartsWith(s[1..], pattern[1..]))
  }

  /** Where `pattern` first occurs in `s`. */
  function Find(s: string, pattern: string): (found: Option<nat>)
    ensures found.Some? ==> found.value <= |s|
  {
    if StartsWith(s, pattern) then Some(0)
    else if |s| == 0 then None
    else
      match Find(s[1..], pattern)
      case Some(at) => Some(at + 1)
      case None => None
  }

  /** Where `c` first occurs in `s`. */
  function FindChar(s: string, c: char): (found: Option<nat>)
    ensures found.Some? ==> found.value < |s|
  {
    if |s| == 0 then None
    else if s[0] == c then Some(0)
    else
      match FindChar(s[1..], c)
      case Some(at) => Some(at + 1)
      case None => None
  }

  datatype Split = Split(before: string, after: string)

  /** The text on either side of the first `c`. */
  function SplitAt(s: string, c: char): (split: Option<Split>)
    ensures split.Some? ==> |split.value.before| + 1 + |split.value.after| == |s|
  {
    if |s| == 0 then None
    else if s[0] == c then Some(Split([], s[1..]))
    else
      match SplitAt(s[1..], c)
      case Some(split) => Some(Split([s[0]] + split.before, split.after))
      case None => None
  }

  // Lines.

  /** A line that declares an option, without its indent, or nothing for any other line. */
  function OptionLine(line: string): Option<string> {
    if "  " <= line && |line| >= 4 && line[2] == '-' && line[3] !in BLANKS then Some(line[2..]) else None
  }

  /** The declaration part of an option line: everything before the first run of two blanks. */
  function BeforeDescription(line: string): string {
    if |line| < 2 then line
    else if AsciiBlank(line[0]) && AsciiBlank(line[1]) then []
    else [line[0]] + BeforeDescription(line[1..])
  }

  /** How many characters at the start of `s` a flag may go on with. */
  function FlagRun(s: string): (n: nat)
    ensures n <= |s|
  {
    if |s| > 0 && FlagChar(s[0]) then 1 + FlagRun(s[1..]) else 0
  }

  /** Every `--name` of a declaration. */
  function LongFlags(s: string): seq<string>
    decreases |s|
  {
    if |s| < 3 then []
    else if s[0] == '-' && s[1] == '-' && Letter(s[2]) then
      var n := 2 + FlagRun(s[2..]);
      [s[..n]] + LongFlags(s[n..])
    else LongFlags(s[1..])
  }

  /** The trimmed lines beneath a declaration, up to the next one or a blank. */
  function Continuation(lines: seq<string>): seq<string> {
    if |lines| == 0 || OptionLine(lines[0]).Some? || Blank(lines[0]) then []
    else [Trim(lines[0])] + Continuation(lines[1..])
  }

  function BlockAt(lines: seq<string>): string
    requires lines != []
  {
    Join([Trim(lines[0])] + Continuation(lines[1..]), " ")
  }

  /** One declared option: the long flags on its own line, and its whole wrapped description. */
  datatype Declared = Declared(flags: seq<string>, block: string)

  function DeclaredOptions(lines: seq<string>): seq<Declared> {
    if |lines| == 0 then []
    else
      (match OptionLine(lines[0])
       case Some(declaration) => [Declared(LongFlags(BeforeDescription(declaration)), BlockAt(lines))]
       case None => [])
      + DeclaredOptions(lines[1..])
  }

  // Lists inside a block.

  const CHOICES_PREFIX := "(choices:"

  /** Every value between a matched pair of `delimiter`, in order; nothing for an empty pair. */
  function QuotedValues(s: string, delimiter: char): seq<string>
    decreases |s|
  {
    match SplitAt(s, delimiter)
    case None => []
    case Some(start) =>
      match SplitAt(start.after, delimiter)
      case None => []
      case Some(closed) =>
        if |closed.before| == 0 then QuotedValues(closed.after, delimiter)
        else [closed.before] + QuotedValues(closed.after, delimiter)
  }

  /** An option's `(choices: "a", "b")` list. */
  function ChoiceList(block: string): Option<seq<string>> {
    FindFinds(block, CHOICES_PREFIX);
    match Find(block, CHOICES_PREFIX)
    case None => None
    case Some(at) =>
      StartsWithFits(block[at..], CHOICES_PREFIX);
      match SplitAt(block[at..][|CHOICES_PREFIX|..], ')')
      case None => None
      case Some(inside) => Some(QuotedValues(inside.before, '\"'))
  }

  /** Every `( … )` group of a block, in order, without its delimiters. */
  function ParenGroups(s: string): seq<string>
    decreases |s|
  {
    match SplitAt(s, '(')
    case None => []
    case Some(start) =>
      match SplitAt(start.after, ')')
      case None => []
      case Some(group) => [group.before] + ParenGroups(group.after)
  }

  /** Splitting at a character is cutting the text where it is first found. */
  lemma {:induction false} SplitIsFind(s: string, c: char)
    ensures SplitAt(s, c).Some? <==> FindChar(s, c).Some?
    ensures FindChar(s, c).Some? ==>
      SplitAt(s, c) == Some(Split(s[..FindChar(s, c).value], s[FindChar(s, c).value + 1..]))
  {
    if |s| > 0 && s[0] != c {
      SplitIsFind(s[1..], c);
      if FindChar(s[1..], c).Some? {
        var at := FindChar(s[1..], c).value;
        assert [s[0]] + s[1..][..at] == s[..at + 1];
        assert s[1..][at + 1..] == s[at + 2..];
      }
    }
  }

  lemma StartsWithFits(s: string, pattern: string)
    requires StartsWith(s, pattern)
    ensures |pattern| <= |s|
  {
  }

  /** Where something is found it is, and nowhere before. */
  lemma {:induction false} FindFinds(s: string, pattern: string)
    ensures var found := Find(s, pattern);
      if found.Some?
      then StartsWith(s[found.value..], pattern) && (forall i :: 0 <= i < found.value ==> !StartsWith(s[i..], pattern))
      else forall i :: 0 <= i <= |s| ==> !StartsWith(s[i..], pattern)
  {
    assert s[0..] == s;
    if !StartsWith(s, pattern) && s != [] {
      FindFinds(s[1..], pattern);
      forall i | 0 < i <= |s|
        ensures s[i..] == s[1..][i - 1..]
      {
      }
    }
  }
}
