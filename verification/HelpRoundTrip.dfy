/**
  Reading back a help text rendered the way commander renders one.

  An option is names, perhaps an argument, and a description of words, in which a group may stand that lists
  choices and then, perhaps, a default or a preset. It is laid out over lines with the description wrapped
  anywhere between words. Whatever the layout, reading the lines gives the declared long flags and never a flag
  a description only mentions; and it gives the choices, with whatever else the group quotes.
*/
module HelpRoundTrip {
  import opened Prelude
  import opened Help

  // What is rendered.

  datatype Name = Short(letter: char) | Long(name: string)

  predicate NameFits(name: Name) {
    match name
    case Short(letter) => Letter(letter) || Digit(letter)
    case Long(text) => text != [] && Letter(text[0]) && forall c <- text :: FlagChar(c)
  }

  function NameText(name: Name): string {
    match name
    case Short(letter) => ['-', letter]
    case Long(text) => "--" + text
  }

  function LongNames(names: seq<Name>): seq<string> {
    if |names| == 0 then []
    else (if names[0].Long? then ["--" + names[0].name] else []) + LongNames(names[1..])
  }

  /** A run of characters between blanks. */
  predicate Word(w: string) {
    w != [] && forall c <- w :: c !in BLANKS
  }

  predicate Words(words: seq<string>) {
    forall w <- words :: Word(w)
  }

  /** A description line: how far it is indented, and its words. */
  datatype Line = Line(indent: nat, words: seq<string>)

  datatype Rendered = Rendered(
    names: seq<Name>,
    argument: Option<string>,
    before: seq<string>,
    choices: Option<seq<string>>,
    extra: seq<string>,
    after: seq<string>,
    pad: nat,
    first: seq<string>,
    more: seq<Line>)

  /** Names are listed with commas, and the argument follows. */
  function NameWords(names: seq<Name>): seq<string> {
    if |names| == 0 then []
    else if |names| == 1 then [NameText(names[0])]
    else [NameText(names[0]) + ","] + NameWords(names[1..])
  }

  function TermWords(o: Rendered): seq<string> {
    NameWords(o.names) + if o.argument.Some? then [o.argument.value] else []
  }

  /** What a group lists: each choice in quotes, and then whatever else the group says. */
  function Listed(choices: seq<string>, extra: seq<string>): seq<string> {
    if |choices| == 0 then extra
    else
      ["\"" + choices[0] + (if |choices| == 1 && extra == [] then "\"" else "\",")] + Listed(choices[1..], extra)
  }

  function Closed(words: seq<string>): seq<string> {
    if |words| == 0 then []
    else if |words| == 1 then [words[0] + ")"]
    else [words[0]] + Closed(words[1..])
  }

  function GroupWords(choices: seq<string>, extra: seq<string>): seq<string> {
    Closed(Listed(choices, extra))
  }

  /** The description's words, with the choices where they stand. */
  function DescriptionWords(o: Rendered): seq<string> {
    o.before + ChoicePart(o) + o.after
  }

  function ChoicePart(o: Rendered): seq<string> {
    if o.choices.Some? then [CHOICES_PREFIX] + GroupWords(o.choices.value, o.extra) else []
  }

  function LineWords(lines: seq<Line>): seq<string> {
    if |lines| == 0 then [] else lines[0].words + LineWords(lines[1..])
  }

  predicate NoDoubleDash(w: string) {
    forall i :: 0 <= i < |w| - 1 ==> !(w[i] == '-' && w[i + 1] == '-')
  }

  predicate NoMarker(w: string) {
    Find(w, CHOICES_PREFIX).None?
  }

  predicate Blankless(choice: string) {
    forall c <- choice :: c !in BLANKS
  }

  /** What is asked of an option and of its layout. */
  predicate Fits(o: Rendered) {
    && o.names != [] && (forall name <- o.names :: NameFits(name))
    && (o.argument.Some? ==>
          Word(o.argument.value) && NoDoubleDash(o.argument.value) && NoMarker(o.argument.value))
    && Words(o.before) && Words(o.extra) && Words(o.after)
    && (forall w <- o.before :: NoMarker(w))
    && (o.choices.None? ==> forall w <- o.after :: NoMarker(w))
    && (o.choices.Some? ==> o.choices.value != [] && forall choice <- o.choices.value :: Blankless(choice))
    && o.pad >= 2
    && (forall line <- o.more :: line.indent >= 3 && line.words != [])
    && o.first + LineWords(o.more) == DescriptionWords(o)
  }

  function Spaces(n: nat): string {
    if n == 0 then [] else " " + Spaces(n - 1)
  }

  function Text(words: seq<string>): string {
    Join(words, " ")
  }

  /** What follows the term on its line. */
  function Tail(o: Rendered): string {
    if o.first == [] then [] else Spaces(o.pad) + Text(o.first)
  }

  function FirstLine(o: Rendered): string {
    Spaces(2) + (Text(TermWords(o)) + Tail(o))
  }

  function MoreLines(lines: seq<Line>): seq<string> {
    if |lines| == 0 then [] else [Spaces(lines[0].indent) + Text(lines[0].words)] + MoreLines(lines[1..])
  }

  function Lines(o: Rendered): seq<string> {
    [FirstLine(o)] + MoreLines(o.more)
  }

  function AllLines(options: seq<Rendered>): seq<string> {
    if |options| == 0 then [] else Lines(options[0]) + AllLines(options[1..])
  }

  // Words and blanks.

  lemma {:induction false} TextOfWords(words: seq<string>)
    requires Words(words) && words != []
    ensures Word(words[0]) && Text(words) != [] && Text(words)[0] == words[0][0]
    ensures Text(words)[0] !in BLANKS && Text(words)[|Text(words)| - 1] !in BLANKS
  {
    assert words[0] in words;
    assert words[0][0] in words[0] && words[0][|words[0]| - 1] in words[0];
    if |words| > 1 {
      assert Words(words[1..]);
      TextOfWords(words[1..]);
    }
  }

  lemma {:induction false} TextConcat(a: seq<string>, b: seq<string>)
    requires a != [] && b != []
    ensures Text(a + b) == Text(a) + " " + Text(b)
  {
    assert (a + b)[1..] == a[1..] + b;
    if |a| > 1 {
      TextConcat(a[1..], b);
      assert a[0] + " " + (Text(a[1..]) + " " + Text(b)) == a[0] + " " + Text(a[1..]) + " " + Text(b);
    } else {
      assert a[1..] + b == b;
    }
  }

  lemma {:induction false} TrimCore(spaces: nat, core: string)
    requires core != [] && core[0] !in BLANKS && core[|core| - 1] !in BLANKS
    ensures Trim(Spaces(spaces) + core) == core
  {
    if spaces > 0 {
      assert (Spaces(spaces) + core)[1..] == Spaces(spaces - 1) + core;
      TrimCore(spaces - 1, core);
    } else {
      assert Spaces(0) + core == core;
    }
  }

  lemma SpacesAreBlank(n: nat)
    ensures |Spaces(n)| == n && forall i :: 0 <= i < n ==> Spaces(n)[i] == ' '
  {
  }

  // The declaration.

  /** Nothing in it is two blanks in a row, and it does not end in one. */
  predicate Tidy(s: string) {
    && (forall i :: 0 <= i < |s| - 1 ==> !(AsciiBlank(s[i]) && AsciiBlank(s[i + 1])))
    && (s != [] ==> !AsciiBlank(s[|s| - 1]))
  }

  lemma {:induction false} TextIsTidy(words: seq<string>)
    requires Words(words) && words != []
    ensures Tidy(Text(words))
  {
    if |words| > 1 {
      assert Words(words[1..]);
      TextIsTidy(words[1..]);
      TextOfWords(words[1..]);
      var rest := Text(words[1..]);
      var w := words[0];
      assert Word(w);
      forall i | 0 <= i < |w + " " + rest| - 1
        ensures !(AsciiBlank((w + " " + rest)[i]) && AsciiBlank((w + " " + rest)[i + 1]))
      {
        if i > |w| {
          assert (w + " " + rest)[i] == rest[i - |w| - 1] && (w + " " + rest)[i + 1] == rest[i - |w|];
        }
      }
    } else {
      assert Word(words[0]);
    }
  }

  lemma {:induction false} DeclarationEnds(term: string, rest: string)
    requires Tidy(term) && term != []
    requires rest == [] || (|rest| >= 2 && AsciiBlank(rest[0]) && AsciiBlank(rest[1]))
    ensures BeforeDescription(term + rest) == term
  {
    if |term| == 1 {
      assert (term + rest)[1..] == rest;
      assert term == [term[0]];
      assert rest == [] ==> term + rest == term;
    } else {
      assert (term + rest)[1..] == term[1..] + rest;
      assert Tidy(term[1..]);
      DeclarationEnds(term[1..], rest);
    }
  }

  // Its flags.

  /** Text without a double dash holds no flag, whatever follows it that is not a dash. */
  lemma {:induction false} NoFlagIn(w: string, tail: string)
    requires NoDoubleDash(w) && (tail == [] || tail[0] != '-' || (w != [] && w[|w| - 1] != '-'))
    ensures LongFlags(w + tail) == LongFlags(tail)
    decreases |w|
  {
    if w == [] {
      assert w + tail == tail;
    } else {
      assert (w + tail)[1..] == w[1..] + tail;
      if |w| > 1 {
        assert NoDoubleDash(w[1..]);
        NoFlagIn(w[1..], tail);
      } else {
        assert w[1..] + tail == tail;
      }
      if |w + tail| >= 3 {
        assert !((w + tail)[0] == '-' && (w + tail)[1] == '-');
      }
    }
  }

  lemma {:induction false} FlagRunOf(name: string, tail: string)
    requires (forall c <- name :: FlagChar(c)) && (tail == [] || !FlagChar(tail[0]))
    ensures FlagRun(name + tail) == |name|
  {
    if name == [] {
      assert name + tail == tail;
    } else {
      assert (name + tail)[0] in name && (name + tail)[1..] == name[1..] + tail;
      FlagRunOf(name[1..], tail);
    }
  }

  lemma TakeFlag(s: string)
    requires |s| >= 3 && s[0] == '-' && s[1] == '-' && Letter(s[2])
    ensures var n := 2 + FlagRun(s[2..]); LongFlags(s) == [s[..n]] + LongFlags(s[n..])
  {
  }

  lemma DashSlices(name: string, tail: string)
    ensures ("--" + name + tail)[2..] == name + tail
    ensures ("--" + name + tail)[..2 + |name|] == "--" + name
    ensures ("--" + name + tail)[2 + |name|..] == tail
  {
  }

  lemma FlagAtStart(name: string, tail: string)
    requires NameFits(Long(name)) && (tail == [] || !FlagChar(tail[0]))
    ensures LongFlags("--" + name + tail) == ["--" + name] + LongFlags(tail)
  {
    DashSlices(name, tail);
    FlagRunOf(name, tail);
    TakeFlag("--" + name + tail);
  }

  /** A comma or nothing after a name, and then a blank or nothing. */
  lemma AfterAName(comma: string, tail: string)
    requires (comma == "" || comma == ",") && (tail == [] || tail[0] == ' ')
    ensures LongFlags(comma + tail) == LongFlags(tail)
    ensures comma + tail == [] || (!FlagChar((comma + tail)[0]) && (comma + tail)[0] != '-')
  {
    NoFlagIn(comma, tail);
  }

  lemma ShortFlags(letter: char, rest: string)
    requires NameFits(Short(letter)) && (rest == [] || rest[0] != '-')
    ensures LongFlags(['-', letter] + rest) == LongFlags(rest)
  {
  }

  lemma NameFlags(name: Name, comma: string, tail: string)
    requires NameFits(name) && (comma == "" || comma == ",") && (tail == [] || tail[0] == ' ')
    ensures LongFlags(NameText(name) + (comma + tail)) == LongNames([name]) + LongFlags(tail)
  {
    AfterAName(comma, tail);
    assert LongNames([name][1..]) == [];
    match name {
      case Short(letter) => ShortFlags(letter, comma + tail);
      case Long(text) => FlagAtStart(text, comma + tail);
    }
  }

  lemma LongNamesOf(names: seq<Name>)
    requires names != []
    ensures LongNames(names) == LongNames([names[0]]) + LongNames(names[1..])
  {
  }

  /** The text of several names is the first, a comma, a blank and the text of the others. */
  lemma NamesText(names: seq<Name>, tail: string)
    requires |names| > 1
    ensures Text(NameWords(names)) + tail
      == NameText(names[0]) + ("," + (" " + (Text(NameWords(names[1..])) + tail)))
  {
  }

  lemma HeadText(first: string, words: seq<string>)
    requires words != []
    ensures Text([first] + words) == first + " " + Text(words)
  {
  }

  lemma {:induction false} NamesFlags(names: seq<Name>, tail: string)
    requires names != [] && (forall name <- names :: NameFits(name)) && (tail == [] || tail[0] == ' ')
    ensures LongFlags(Text(NameWords(names)) + tail) == LongNames(names) + LongFlags(tail)
  {
    assert names[0] in names;
    LongNamesOf(names);
    if |names| == 1 {
      OneNameText(names, tail);
      NameFlags(names[0], "", tail);
    } else {
      var rest := Text(NameWords(names[1..])) + tail;
      assert LongFlags(rest) == LongNames(names[1..]) + LongFlags(tail) by {
        NamesFlags(names[1..], tail);
      }
      assert LongFlags(Text(NameWords(names)) + tail) == LongNames([names[0]]) + LongFlags(rest) by {
        MoreNamesFlags(names[0], rest);
        NamesText(names, tail);
      }
      Associates(LongNames([names[0]]), LongNames(names[1..]), LongFlags(tail));
    }
  }

  lemma Associates<T>(a: seq<T>, b: seq<T>, c: seq<T>)
    ensures a + (b + c) == a + b + c
  {
  }

  lemma OneNameText(names: seq<Name>, tail: string)
    requires |names| == 1
    ensures Text(NameWords(names)) + tail == NameText(names[0]) + ("" + tail)
    ensures LongNames(names[1..]) == []
  {
  }

  lemma MoreNamesFlags(name: Name, rest: string)
    requires NameFits(name)
    ensures LongFlags(NameText(name) + ("," + (" " + rest))) == LongNames([name]) + LongFlags(rest)
  {
    SkipBlank(rest);
    NameFlags(name, ",", " " + rest);
  }

  lemma SkipBlank(s: string)
    ensures LongFlags(" " + s) == LongFlags(s)
  {
  }

  lemma NameIsAWord(name: Name, comma: string)
    requires NameFits(name) && (comma == "" || comma == ",")
    ensures Word(NameText(name) + comma)
  {
  }

  lemma {:induction false} NamesStartWithADash(names: seq<Name>)
    requires names != [] && forall name <- names :: NameFits(name)
    ensures Words(NameWords(names)) && NameWords(names) != []
    ensures |NameWords(names)[0]| >= 2 && NameWords(names)[0][0] == '-'
  {
    assert names[0] in names;
    NameIsAWord(names[0], ",");
    NameIsAWord(names[0], "");
    assert NameText(names[0]) + "" == NameText(names[0]);
    if |names| > 1 {
      NamesStartWithADash(names[1..]);
    }
  }

  lemma TermFlags(o: Rendered)
    requires Fits(o)
    ensures LongFlags(Text(TermWords(o))) == LongNames(o.names)
  {
    NamesStartWithADash(o.names);
    var names := Text(NameWords(o.names));
    if o.argument.Some? {
      ArgumentFlags(o.names, o.argument.value);
    } else {
      assert TermWords(o) == NameWords(o.names);
      NamesFlags(o.names, []);
      assert names + [] == names;
    }
    assert LongNames(o.names) + [] == LongNames(o.names);
  }

  lemma ArgumentFlags(names: seq<Name>, w: string)
    requires names != [] && (forall name <- names :: NameFits(name)) && Word(w) && NoDoubleDash(w)
    ensures LongFlags(Text(NameWords(names) + [w])) == LongNames(names)
  {
    assert |NameWords(names)| > 0;
    TextConcat(NameWords(names), [w]);
    var text := Text(NameWords(names));
    assert text + " " + w == text + (" " + w);
    assert LongFlags(w) == [] by {
      NoFlagIn(w, []);
      assert w + [] == w;
    }
    SkipBlank(w);
    NamesFlags(names, " " + w);
    assert LongNames(names) + [] == LongNames(names);
  }

  lemma TermIsWords(o: Rendered)
    requires Fits(o)
    ensures Words(TermWords(o)) && TermWords(o) != []
    ensures Text(TermWords(o)) != [] && Text(TermWords(o))[0] == '-'
    ensures |Text(TermWords(o))| >= 2 && Text(TermWords(o))[1] !in BLANKS
  {
    NamesStartWithADash(o.names);
    TextOfWords(TermWords(o));
    var w := TermWords(o)[0];
    assert w == NameWords(o.names)[0] && Word(w);
    assert w[1] in w;
    assert Text(TermWords(o))[1] == w[1];
  }

  // Its lines.

  lemma GapIsBlank(n: nat, core: string)
    requires n >= 2
    ensures |Spaces(n) + core| >= 2 && (Spaces(n) + core)[0] == ' ' && (Spaces(n) + core)[1] == ' '
  {
  }

  lemma WordsConcat(a: seq<string>, b: seq<string>)
    ensures Words(a + b) <==> Words(a) && Words(b)
  {
  }

  lemma PrefixIsAWord()
    ensures Words([CHOICES_PREFIX])
  {
  }

  lemma DescriptionIsWords(o: Rendered)
    requires Fits(o)
    ensures Words(DescriptionWords(o)) && Words(o.first) && Words(LineWords(o.more))
  {
    assert Words(ChoicePart(o)) by {
      if o.choices.Some? {
        ListedAreWords(o.choices.value, o.extra);
        ClosedAreWords(Listed(o.choices.value, o.extra));
        PrefixIsAWord();
        WordsConcat([CHOICES_PREFIX], GroupWords(o.choices.value, o.extra));
      }
    }
    WordsConcat(o.before, ChoicePart(o));
    WordsConcat(o.before + ChoicePart(o), o.after);
    WordsConcat(o.first, LineWords(o.more));
  }

  lemma {:induction false} ListedAreWords(choices: seq<string>, extra: seq<string>)
    requires (forall choice <- choices :: Blankless(choice)) && Words(extra)
    ensures Words(Listed(choices, extra)) && (choices != [] ==> Listed(choices, extra) != [])
  {
    if choices != [] {
      assert Blankless(choices[0]);
      QuotedIsAWord(choices[0], "\"");
      QuotedIsAWord(choices[0], "\",");
      assert forall choice <- choices[1..] :: choice in choices;
      ListedAreWords(choices[1..], extra);
    }
  }

  lemma QuotedIsAWord(choice: string, end: string)
    requires Blankless(choice) && (end == "\"," || end == "\"")
    ensures Word("\"" + choice + end)
  {
  }

  lemma {:induction false} ClosedAreWords(words: seq<string>)
    requires Words(words)
    ensures Words(Closed(words))
  {
    if words != [] {
      assert Word(words[0]);
      assert forall w <- words[1..] :: w in words;
      ClosedAreWords(words[1..]);
    }
  }

  lemma TailRead(o: Rendered)
    requires Fits(o)
    ensures Tail(o) == [] || (|Tail(o)| >= 2 && Tail(o)[0] == ' ' && Tail(o)[1] == ' ')
    ensures Tail(o) != [] ==> Tail(o)[|Tail(o)| - 1] !in BLANKS
  {
    DescriptionIsWords(o);
    if o.first != [] {
      GapIsBlank(o.pad, Text(o.first));
      TextOfWords(o.first);
    }
  }

  lemma FirstLineRead(o: Rendered)
    requires Fits(o)
    ensures OptionLine(FirstLine(o)) == Some(Text(TermWords(o)) + Tail(o))
    ensures BeforeDescription(Text(TermWords(o)) + Tail(o)) == Text(TermWords(o))
    ensures Trim(FirstLine(o)) == Text(TermWords(o)) + Tail(o)
  {
    var term, tail := Text(TermWords(o)), Tail(o);
    TermIsWords(o);
    TailRead(o);
    assert BeforeDescription(term + tail) == term by {
      TextIsTidy(TermWords(o));
      DeclarationEnds(term, tail);
    }
    TextOfWords(TermWords(o));
    IndentedTwo(term + tail);
    TrimCore(2, term + tail);
  }

  lemma IndentedTwo(declaration: string)
    requires |declaration| >= 2 && declaration[0] == '-' && declaration[1] !in BLANKS
    ensures OptionLine(Spaces(2) + declaration) == Some(declaration)
  {
  }

  lemma MoreLineRead(line: Line)
    requires line.indent >= 3 && line.words != [] && Words(line.words)
    ensures var text := Spaces(line.indent) + Text(line.words);
      OptionLine(text).None? && !Blank(text) && Trim(text) == Text(line.words)
  {
    SpacesAreBlank(line.indent);
    TextOfWords(line.words);
    TrimCore(line.indent, Text(line.words));
    var text := Spaces(line.indent) + Text(line.words);
    assert text[2] == ' ';
    assert text[line.indent] == Text(line.words)[0] && text[line.indent] in text;
  }

  /** What ends an option's block: another option, a blank line, or the end of the text. */
  predicate EndsBlock(lines: seq<string>) {
    lines == [] || Declares(lines[0]) || Blank(lines[0])
  }

  /** A line indented by two and then a dash, with no blank behind it. */
  predicate Declares(line: string) {
    |line| >= 4 && line[0] == ' ' && line[1] == ' ' && line[2] == '-' && line[3] !in BLANKS
  }

  lemma OnlyDeclaringLinesDeclare(line: string)
    ensures OptionLine(line).Some? <==> Declares(line)
    ensures Declares(line) ==> line == "  " + OptionLine(line).value
  {
  }

  function LineTexts(lines: seq<Line>): seq<string> {
    if |lines| == 0 then [] else [Text(lines[0].words)] + LineTexts(lines[1..])
  }

  predicate LinesFit(lines: seq<Line>) {
    forall line <- lines :: line.indent >= 3 && line.words != []
  }

  lemma {:induction false} MoreLinesRead(lines: seq<Line>, rest: seq<string>)
    requires LinesFit(lines) && Words(LineWords(lines)) && EndsBlock(rest)
    ensures Continuation(MoreLines(lines) + rest) == LineTexts(lines)
  {
    if lines == [] {
      assert MoreLines(lines) + rest == rest;
    } else {
      assert lines[0] in lines;
      WordsConcat(lines[0].words, LineWords(lines[1..]));
      MoreLineRead(lines[0]);
      var first := Spaces(lines[0].indent) + Text(lines[0].words);
      assert MoreLines(lines) + rest == [first] + (MoreLines(lines[1..]) + rest);
      MoreLinesRead(lines[1..], rest);
      GoesOnWith(first, MoreLines(lines[1..]) + rest);
    }
  }

  lemma GoesOnWith(line: string, rest: seq<string>)
    requires OptionLine(line).None? && !Blank(line)
    ensures Continuation([line] + rest) == [Trim(line)] + Continuation(rest)
  {
  }

  lemma {:induction false} LineTextsJoin(lines: seq<Line>)
    requires LinesFit(lines) && lines != []
    ensures LineWords(lines) != [] && Text(LineTexts(lines)) == Text(LineWords(lines))
  {
    assert lines[0] in lines;
    if |lines| == 1 {
      assert LineWords(lines[1..]) == [] && lines[0].words + [] == lines[0].words;
    } else {
      LineTextsJoin(lines[1..]);
      HeadText(Text(lines[0].words), LineTexts(lines[1..]));
      TextConcat(lines[0].words, LineWords(lines[1..]));
    }
  }

  /** The whole description, whatever its layout, behind the term and a gap of blanks. */
  function Block(o: Rendered): string {
    var term := Text(TermWords(o));
    if DescriptionWords(o) == [] then term
    else term + (if o.first == [] then " " else Spaces(o.pad)) + Text(DescriptionWords(o))
  }

  lemma BlockOf(first: string, more: seq<string>, rest: seq<string>)
    ensures BlockAt([first] + more + rest) == Text([Trim(first)] + Continuation(more + rest))
  {
    assert ([first] + more + rest)[1..] == more + rest;
  }

  lemma BlockLines(o: Rendered, rest: seq<string>)
    requires Fits(o) && EndsBlock(rest)
    ensures BlockAt(Lines(o) + rest) == Text([Text(TermWords(o)) + Tail(o)] + LineTexts(o.more))
  {
    BlockOf(FirstLine(o), MoreLines(o.more), rest);
    FirstLineRead(o);
    DescriptionIsWords(o);
    MoreLinesRead(o.more, rest);
  }

  lemma Regroup(a: string, b: string, c: string, d: string, e: string)
    ensures a + (b + c) + d + e == a + b + (c + d + e)
  {
  }

  lemma BlockRead(o: Rendered, rest: seq<string>)
    requires Fits(o) && EndsBlock(rest)
    ensures BlockAt(Lines(o) + rest) == Block(o)
  {
    var term := Text(TermWords(o));
    BlockLines(o, rest);
    if o.more == [] {
      assert o.first == DescriptionWords(o) by {
        assert LineWords(o.more) == [] && o.first + [] == o.first;
      }
      assert [term + Tail(o)] + LineTexts(o.more) == [term + Tail(o)];
      OneLine(o);
    } else {
      HeadText(term + Tail(o), LineTexts(o.more));
      LineTextsJoin(o.more);
      SeveralLines(o);
    }
  }

  lemma OneLine(o: Rendered)
    requires o.first == DescriptionWords(o)
    ensures Text(TermWords(o)) + Tail(o) == Block(o)
  {
  }

  lemma SeveralLines(o: Rendered)
    requires o.first + LineWords(o.more) == DescriptionWords(o) && LineWords(o.more) != []
    ensures Text(TermWords(o)) + Tail(o) + " " + Text(LineWords(o.more)) == Block(o)
  {
    var term, later := Text(TermWords(o)), LineWords(o.more);
    if o.first == [] {
      assert o.first + later == later && term + [] == term;
    } else {
      TextConcat(o.first, later);
      Regroup(term, Spaces(o.pad), Text(o.first), " ", Text(later));
    }
  }

  // Its choices.

  function Shift(found: Option<nat>, n: nat): Option<nat> {
    match found
    case Some(at) => Some(at + n)
    case None => None
  }

  /** A pattern without blanks that begins before a blank ends before it. */
  lemma {:induction false} StartsWithinWord(w: string, tail: string, pattern: string)
    requires StartsWith(w + tail, pattern) && (forall c <- pattern :: c !in BLANKS)
    requires tail == [] || tail[0] in BLANKS
    ensures StartsWith(w, pattern)
  {
    if pattern != [] {
      assert pattern[0] in pattern;
      assert w == [] ==> w + tail == tail;
      if w != [] {
        assert (w + tail)[1..] == w[1..] + tail;
        assert forall c <- pattern[1..] :: c in pattern;
        StartsWithinWord(w[1..], tail, pattern[1..]);
      }
    }
  }

  lemma MarkerHasNoBlanks()
    ensures forall c <- CHOICES_PREFIX :: c !in BLANKS
  {
  }

  lemma {:induction false} MarkerlessWord(w: string, tail: string)
    requires NoMarker(w) && (tail == [] || tail[0] in BLANKS)
    ensures Find(w + tail, CHOICES_PREFIX) == Shift(Find(tail, CHOICES_PREFIX), |w|)
  {
    MarkerHasNoBlanks();
    if w == [] {
      assert w + tail == tail;
    } else {
      if StartsWith(w + tail, CHOICES_PREFIX) {
        StartsWithinWord(w, tail, CHOICES_PREFIX);
      }
      assert (w + tail)[1..] == w[1..] + tail;
      MarkerlessWord(w[1..], tail);
    }
  }

  lemma {:induction false} MarkerAfterBlanks(n: nat, s: string)
    ensures Find(Spaces(n) + s, CHOICES_PREFIX) == Shift(Find(s, CHOICES_PREFIX), n)
  {
    if n == 0 {
      assert Spaces(0) + s == s;
    } else {
      assert (Spaces(n) + s)[1..] == Spaces(n - 1) + s;
      MarkerAfterBlanks(n - 1, s);
    }
  }

  lemma {:induction false} MarkerlessText(words: seq<string>, tail: string)
    requires words != [] && (forall w <- words :: NoMarker(w)) && (tail == [] || tail[0] in BLANKS)
    ensures Find(Text(words) + tail, CHOICES_PREFIX) == Shift(Find(tail, CHOICES_PREFIX), |Text(words)|)
  {
    assert words[0] in words;
    if |words| == 1 {
      MarkerlessWord(words[0], tail);
    } else {
      var rest := Text(words[1..]) + tail;
      MarkerlessText(words[1..], tail);
      assert Spaces(1) + rest == " " + rest;
      MarkerAfterBlanks(1, rest);
      MarkerlessWord(words[0], " " + rest);
      assert Text(words) + tail == words[0] + (" " + rest);
    }
  }

  lemma {:induction false} NoParenNoMarker(w: string)
    requires '(' !in w
    ensures NoMarker(w)
  {
    if w != [] {
      assert forall c <- w[1..] :: c in w;
      NoParenNoMarker(w[1..]);
      assert w[0] in w;
    }
  }

  lemma NameHasNoParen(name: Name, comma: string)
    requires NameFits(name) && (comma == "" || comma == ",")
    ensures NoMarker(NameText(name) + comma)
  {
    assert name.Long? ==> forall c <- "--" + name.name :: c in "--" || c in name.name;
    assert '(' !in NameText(name);
    NoParenNoMarker(NameText(name) + comma);
  }

  lemma {:induction false} NamesHaveNoMarker(names: seq<Name>)
    requires forall name <- names :: NameFits(name)
    ensures forall w <- NameWords(names) :: NoMarker(w)
  {
    if names != [] {
      assert names[0] in names;
      NameHasNoParen(names[0], "");
      NameHasNoParen(names[0], ",");
      assert NameText(names[0]) + "" == NameText(names[0]);
      NamesHaveNoMarker(names[1..]);
    }
  }

  lemma TermHasNoMarker(o: Rendered)
    requires Fits(o)
    ensures TermWords(o) != [] && forall w <- TermWords(o) :: NoMarker(w)
  {
    NamesHaveNoMarker(o.names);
    TermIsWords(o);
  }

  lemma {:induction false} ClosedText(words: seq<string>)
    requires words != []
    ensures Closed(words) != [] && Text(Closed(words)) == Text(words) + ")"
  {
    if |words| > 1 {
      ClosedText(words[1..]);
      HeadText(words[0], Closed(words[1..]));
      assert words[0] + " " + (Text(words[1..]) + ")") == words[0] + " " + Text(words[1..]) + ")";
    }
  }

  /** The text up to the first `c`, or all of it. */
  function UpTo(s: string, c: char): string {
    match SplitAt(s, c)
    case Some(split) => split.before
    case None => s
  }

  /** A group that is closed is cut where it is closed, or where something in it closes it earlier. */
  lemma {:induction false} CutAtClose(s: string, c: char, rest: string)
    ensures var split := SplitAt(s + ([c] + rest), c);
      split.Some? && split.value.before == UpTo(s, c)
  {
    if s == [] {
      assert s + ([c] + rest) == [c] + rest;
    } else {
      assert (s + ([c] + rest))[1..] == s[1..] + ([c] + rest);
      CutAtClose(s[1..], c, rest);
    }
  }

  lemma UpToPast(s: string, c: char)
    requires s != [] && s[0] != c
    ensures UpTo(s, c) == [s[0]] + UpTo(s[1..], c)
  {
    assert s == [s[0]] + s[1..];
  }

  lemma {:induction false} UpToBehind(lead: string, tail: string, c: char)
    requires c !in lead
    ensures UpTo(lead + tail, c) == lead + UpTo(tail, c)
  {
    if lead == [] {
      assert lead + tail == tail && [] + UpTo(tail, c) == UpTo(tail, c);
    } else {
      assert lead[0] in lead && (lead + tail)[1..] == lead[1..] + tail;
      assert forall other <- lead[1..] :: other in lead;
      UpToPast(lead + tail, c);
      UpToBehind(lead[1..], tail, c);
      Associates([lead[0]], lead[1..], UpTo(tail, c));
      assert [lead[0]] + lead[1..] == lead;
    }
  }

  lemma {:induction false} UpToHasNone(s: string, c: char)
    ensures c !in UpTo(s, c)
  {
    if s != [] && s[0] != c {
      UpToHasNone(s[1..], c);
    }
  }

  lemma {:induction false} SplitAtFirst(before: string, c: char, after: string)
    requires c !in before
    ensures SplitAt(before + ([c] + after), c) == Some(Split(before, after))
  {
    var s := before + ([c] + after);
    if before == [] {
      assert s == [c] + after && s[1..] == after;
    } else {
      assert before[0] in before && before == [before[0]] + before[1..];
      assert s[0] == before[0] && s[1..] == before[1..] + ([c] + after);
      assert forall other <- before[1..] :: other in before;
      SplitAtFirst(before[1..], c, after);
    }
  }

  /** One quoted value, whatever is ahead of it and behind it. */
  lemma OneQuoted(lead: string, c: string, tail: string)
    requires '\"' !in lead && '\"' !in c && c != []
    ensures QuotedValues(lead + (['\"'] + (c + (['\"'] + tail))), '\"') == [c] + QuotedValues(tail, '\"')
  {
    SplitAtFirst(lead, '\"', c + (['\"'] + tail));
    SplitAtFirst(c, '\"', tail);
  }

  /** Nothing quoted ahead of a text is nothing read there. */
  lemma {:induction false} NothingQuoted(lead: string, tail: string)
    requires '\"' !in lead
    ensures QuotedValues(lead + tail, '\"') == QuotedValues(tail, '\"')
  {
    if lead == [] {
      assert lead + tail == tail;
    } else {
      assert lead[0] in lead && (lead + tail)[1..] == lead[1..] + tail;
      assert forall other <- lead[1..] :: other in lead;
      NothingQuoted(lead[1..], tail);
    }
  }

  /** A choice that stays one value between its quotes. */
  predicate Clean(choice: string) {
    choice != [] && '\"' !in choice && ')' !in choice
  }

  /** What stands behind the first choice of a group. */
  function BehindFirst(choices: seq<string>, extra: seq<string>): string
    requires choices != []
  {
    if |choices| == 1 && extra == [] then [] else ", " + Text(Listed(choices[1..], extra))
  }

  lemma FirstListed(choices: seq<string>, extra: seq<string>)
    requires choices != []
    ensures Text(Listed(choices, extra)) == "\"" + choices[0] + "\"" + BehindFirst(choices, extra)
  {
    var rest := Listed(choices[1..], extra);
    if |choices| > 1 || extra != [] {
      HeadText("\"" + choices[0] + "\",", rest);
      assert "\"" + choices[0] + "\"," + " " + Text(rest) == "\"" + choices[0] + "\"" + (", " + Text(rest));
    } else {
      assert rest == [];
    }
  }

  /** The choices, and then what the rest of the group quotes. */
  lemma {:induction false} ListedReads(choices: seq<string>, extra: seq<string>, lead: string)
    requires forall choice <- choices :: Clean(choice)
    requires '\"' !in lead && ')' !in lead
    ensures QuotedValues(UpTo(lead + Text(Listed(choices, extra)), ')'), '\"')
      == choices + QuotedValues(UpTo(Text(extra), ')'), '\"')
    decreases |choices|, 1
  {
    if choices == [] {
      UpToBehind(lead, Text(extra), ')');
      NothingQuoted(lead, UpTo(Text(extra), ')'));
    } else {
      var behind := BehindFirst(choices, extra);
      assert Clean(choices[0]);
      FirstListed(choices, extra);
      FirstReads(lead, choices[0], behind);
      BehindReads(choices, extra);
      assert choices == [choices[0]] + choices[1..];
      Associates([choices[0]], choices[1..], QuotedValues(UpTo(Text(extra), ')'), '\"'));
    }
  }

  lemma FirstReads(lead: string, first: string, behind: string)
    requires Clean(first) && '\"' !in lead && ')' !in lead
    ensures QuotedValues(UpTo(lead + ("\"" + first + "\"" + behind), ')'), '\"')
      == [first] + QuotedValues(UpTo(behind, ')'), '\"')
  {
    var quoted := "\"" + first + "\"";
    var tail := UpTo(behind, ')');
    assert lead + (quoted + behind) == lead + quoted + behind;
    UpToBehind(lead + quoted, behind, ')');
    assert lead + quoted + tail == lead + (['\"'] + (first + (['\"'] + tail)));
    OneQuoted(lead, first, tail);
  }

  lemma {:induction false} BehindReads(choices: seq<string>, extra: seq<string>)
    requires choices != [] && forall choice <- choices :: Clean(choice)
    ensures QuotedValues(UpTo(BehindFirst(choices, extra), ')'), '\"')
      == choices[1..] + QuotedValues(UpTo(Text(extra), ')'), '\"')
    decreases |choices|, 0
  {
    assert forall choice <- choices[1..] :: choice in choices;
    if |choices| == 1 && extra == [] {
      assert Text(extra) == [];
    } else {
      ListedReads(choices[1..], extra, ", ");
    }
  }

  /** Whatever is read is a value between quotes in the text. */
  lemma {:induction false} ReadIsQuoted(s: string, avoided: char)
    requires avoided !in s
    ensures forall value <- QuotedValues(s, '\"') :: value != [] && '\"' !in value && avoided !in value
    decreases |s|
  {
    if SplitAt(s, '\"').Some? {
      var start := SplitAt(s, '\"').value;
      SplitParts(s, '\"');
      if SplitAt(start.after, '\"').Some? {
        var closed := SplitAt(start.after, '\"').value;
        SplitParts(start.after, '\"');
        assert avoided !in start.after;
        assert avoided !in closed.after && avoided !in closed.before;
        ReadIsQuoted(closed.after, avoided);
      }
    }
  }

  lemma {:induction false} SplitParts(s: string, c: char)
    requires SplitAt(s, c).Some?
    ensures var split := SplitAt(s, c).value;
      s == split.before + ([c] + split.after) && c !in split.before
  {
    if s[0] != c {
      SplitParts(s[1..], c);
      var rest := SplitAt(s[1..], c).value;
      assert s == [s[0]] + s[1..];
      assert [s[0]] + rest.before + ([c] + rest.after) == [s[0]] + (rest.before + ([c] + rest.after));
    } else {
      assert s == [] + ([c] + s[1..]);
    }
  }

  /** What reading a group gives. */
  function GroupRead(choices: seq<string>, extra: seq<string>): seq<string> {
    QuotedValues(UpTo(" " + Text(Listed(choices, extra)), ')'), '\"')
  }

  /** What the rest of a group quotes, up to where the group is closed. */
  function ExtraQuoted(extra: seq<string>): seq<string> {
    QuotedValues(UpTo(Text(extra), ')'), '\"')
  }

  /** A group gives back its choices exactly when each is clean and nothing else in it is quoted. */
  lemma GroupReadsBack(choices: seq<string>, extra: seq<string>)
    ensures (forall choice <- choices :: Clean(choice)) ==> GroupRead(choices, extra) == choices + ExtraQuoted(extra)
    ensures GroupRead(choices, extra) == choices <==>
      (forall choice <- choices :: Clean(choice)) && ExtraQuoted(extra) == []
  {
    var text := UpTo(" " + Text(Listed(choices, extra)), ')');
    UpToHasNone(" " + Text(Listed(choices, extra)), ')');
    ReadIsQuoted(text, ')');
    if forall choice <- choices :: Clean(choice) {
      ListedReads(choices, extra, " ");
      assert |choices + ExtraQuoted(extra)| == |choices| + |ExtraQuoted(extra)|;
    }
  }

  /** From the marker on, up to where the group is closed, whatever follows it. */
  lemma ListReadsBack(choices: seq<string>, extra: seq<string>, after: seq<string>)
    requires choices != []
    ensures GroupWords(choices, extra) != []
    ensures ReadsAs(GroupWords(choices, extra), after, GroupRead(choices, extra))
  {
    var listed, rest := Listed(choices, extra), AfterText(after);
    ClosedText(listed);
    assert " " + (Text(listed) + ")") + rest == " " + Text(listed) + ([')'] + rest);
    CutAtClose(" " + Text(listed), ')', rest);
  }

  /** The words ahead of a list, with the blank after them. */
  function AheadText(before: seq<string>): string {
    if before == [] then [] else Text(before) + " "
  }

  lemma DescriptionText(before: seq<string>, marked: seq<string>)
    requires marked != []
    ensures Text(before + marked) == AheadText(before) + Text(marked)
  {
    if before == [] {
      assert before + marked == marked && [] + Text(marked) == Text(marked);
    } else {
      TextConcat(before, marked);
    }
  }

  /** A group reads as `read`, whatever text stands behind it. */
  predicate ReadsAs(group: seq<string>, after: seq<string>, read: seq<string>) {
    var split := SplitAt(" " + Text(group) + AfterText(after), ')');
    split.Some? && QuotedValues(split.value.before, '\"') == read
  }

  /** The words ahead of the choices, the marker, and what follows. */
  lemma ChoicesRead(lead: string, before: seq<string>, group: seq<string>, after: seq<string>, read: seq<string>)
    requires (forall w <- before :: NoMarker(w)) && group != [] && ReadsAs(group, after, read)
    requires var text := Text(before + ([CHOICES_PREFIX] + group + after));
      Find(lead + text, CHOICES_PREFIX) == Shift(Find(text, CHOICES_PREFIX), |lead|)
    ensures ChoiceList(lead + Text(before + ([CHOICES_PREFIX] + group + after))) == Some(read)
  {
    var marked, ahead := [CHOICES_PREFIX] + group + after, AheadText(before);
    DescriptionText(before, marked);
    assert StartsWith(Text(marked), CHOICES_PREFIX) by {
      MarkedText(group, after);
    }
    MarkerFurther(lead, before, Text(marked));
    MarkedReads(lead + ahead, group, after, read);
  }

  lemma MarkerFurther(lead: string, before: seq<string>, marked: string)
    requires (forall w <- before :: NoMarker(w)) && StartsWith(marked, CHOICES_PREFIX)
    requires var text := AheadText(before) + marked;
      Find(lead + text, CHOICES_PREFIX) == Shift(Find(text, CHOICES_PREFIX), |lead|)
    ensures lead + (AheadText(before) + marked) == lead + AheadText(before) + marked
    ensures Find(lead + AheadText(before) + marked, CHOICES_PREFIX) == Some(|lead + AheadText(before)|)
  {
    MarkerAhead(before, marked);
  }

  /** The words ahead hold no marker of their own. */
  lemma MarkerAhead(before: seq<string>, marked: string)
    requires (forall w <- before :: NoMarker(w)) && StartsWith(marked, CHOICES_PREFIX)
    ensures Find(AheadText(before) + marked, CHOICES_PREFIX) == Some(|AheadText(before)|)
  {
    if before == [] {
      assert [] + marked == marked;
    } else {
      MarkerlessText(before, " " + marked);
      assert Spaces(1) + marked == " " + marked;
      MarkerAfterBlanks(1, marked);
      assert Text(before) + " " + marked == Text(before) + (" " + marked);
    }
  }

  lemma {:induction false} StartsWithItself(pattern: string, rest: string)
    ensures StartsWith(pattern + rest, pattern)
  {
    if pattern != [] {
      assert (pattern + rest)[1..] == pattern[1..] + rest;
      StartsWithItself(pattern[1..], rest);
    }
  }

  function AfterText(after: seq<string>): string {
    if after == [] then [] else " " + Text(after)
  }

  lemma ListText(words: seq<string>, after: seq<string>)
    requires words != []
    ensures Text(words + after) == Text(words) + AfterText(after)
  {
    if after == [] {
      assert words + after == words && Text(words) + [] == Text(words);
    } else {
      TextConcat(words, after);
      assert Text(words) + " " + Text(after) == Text(words) + (" " + Text(after));
    }
  }

  lemma MarkedText(group: seq<string>, after: seq<string>)
    requires group != []
    ensures Text([CHOICES_PREFIX] + group + after) == CHOICES_PREFIX + (" " + Text(group) + AfterText(after))
    ensures StartsWith(Text([CHOICES_PREFIX] + group + after), CHOICES_PREFIX)
  {
    ListText(group, after);
    assert [CHOICES_PREFIX] + group + after == [CHOICES_PREFIX] + (group + after);
    HeadText(CHOICES_PREFIX, group + after);
    Glue(CHOICES_PREFIX, Text(group), AfterText(after));
    StartsWithItself(CHOICES_PREFIX, " " + Text(group) + AfterText(after));
  }

  lemma Glue(a: string, b: string, c: string)
    ensures a + " " + (b + c) == a + (" " + b + c)
  {
  }

  lemma MarkedReads(ahead: string, group: seq<string>, after: seq<string>, read: seq<string>)
    requires group != [] && ReadsAs(group, after, read)
    requires Find(ahead + Text([CHOICES_PREFIX] + group + after), CHOICES_PREFIX) == Some(|ahead|)
    ensures ChoiceList(ahead + Text([CHOICES_PREFIX] + group + after)) == Some(read)
  {
    var marked, inside := Text([CHOICES_PREFIX] + group + after), " " + Text(group) + AfterText(after);
    assert marked == CHOICES_PREFIX + inside by {
      MarkedText(group, after);
    }
    assert (ahead + marked)[|ahead|..] == marked && marked[|CHOICES_PREFIX|..] == inside;
    FoundReads(ahead + marked, |ahead|, inside);
  }

  lemma FoundReads(block: string, at: nat, inside: string)
    requires Find(block, CHOICES_PREFIX) == Some(at) && |block| >= at + |CHOICES_PREFIX|
    requires block[at..][|CHOICES_PREFIX|..] == inside && SplitAt(inside, ')').Some?
    ensures ChoiceList(block) == Some(QuotedValues(SplitAt(inside, ')').value.before, '\"'))
  {
  }

  /** Words and a gap without a marker. */
  lemma MarkerPast(words: seq<string>, gap: nat, text: string)
    requires words != [] && (forall w <- words :: NoMarker(w)) && gap >= 1
    ensures var lead := Text(words) + Spaces(gap);
      Find(lead + text, CHOICES_PREFIX) == Shift(Find(text, CHOICES_PREFIX), |lead|)
  {
    SpacesAreBlank(gap);
    MarkerlessText(words, Spaces(gap) + text);
    MarkerAfterBlanks(gap, text);
    assert Text(words) + Spaces(gap) + text == Text(words) + (Spaces(gap) + text);
  }

  lemma NoTextNoMarker()
    ensures Find([], CHOICES_PREFIX).None?
  {
  }

  lemma MarkerlessAlone(words: seq<string>)
    requires forall w <- words :: NoMarker(w)
    ensures Find(Text(words), CHOICES_PREFIX).None?
  {
    NoTextNoMarker();
    if words != [] {
      MarkerlessText(words, []);
      assert Text(words) + [] == Text(words);
    }
  }

  lemma NoMarkerNoChoices(block: string)
    requires Find(block, CHOICES_PREFIX).None?
    ensures ChoiceList(block).None?
  {
  }

  lemma BareTermRead(o: Rendered)
    requires Fits(o)
    ensures ChoiceList(Text(TermWords(o))).None?
  {
    TermHasNoMarker(o);
    MarkerlessAlone(TermWords(o));
    NoMarkerNoChoices(Text(TermWords(o)));
  }

  lemma WordsOf(o: Rendered)
    ensures o.choices.Some? ==>
      DescriptionWords(o) == o.before + ([CHOICES_PREFIX] + GroupWords(o.choices.value, o.extra) + o.after)
      && DescriptionWords(o) != []
    ensures o.choices.None? ==> DescriptionWords(o) == o.before + o.after
  {
  }

  /** What is read as an option's choices: what its group quotes, and nothing from one that states none. */
  lemma BlockGroup(o: Rendered)
    requires Fits(o)
    ensures ChoiceList(Block(o)) == if o.choices.Some? then Some(GroupRead(o.choices.value, o.extra)) else None
  {
    var words := DescriptionWords(o);
    WordsOf(o);
    if words == [] {
      BareTermRead(o);
    } else {
      var gap := if o.first == [] then 1 else o.pad;
      assert Spaces(1) == " ";
      TermHasNoMarker(o);
      MarkerPast(TermWords(o), gap, Text(words));
      if o.choices.Some? {
        var group, read := GroupWords(o.choices.value, o.extra), GroupRead(o.choices.value, o.extra);
        ListReadsBack(o.choices.value, o.extra, o.after);
        ChoicesRead(Text(TermWords(o)) + Spaces(gap), o.before, group, o.after, read);
      } else {
        assert forall w <- words :: w in o.before || w in o.after;
        MarkerlessAlone(words);
        NoMarkerNoChoices(Text(TermWords(o)) + Spaces(gap) + Text(words));
      }
    }
  }

  /** Whether an option's choices can be told from what else its group says. */
  predicate Tellable(o: Rendered) {
    o.choices.Some? ==> (forall choice <- o.choices.value :: Clean(choice)) && ExtraQuoted(o.extra) == []
  }

  /** What is read behind the choices: whatever else their group quotes. */
  function ChoicesAndMore(o: Rendered): Option<seq<string>> {
    if o.choices.Some? then Some(o.choices.value + ExtraQuoted(o.extra)) else None
  }

  predicate AllClean(o: Rendered) {
    o.choices.Some? ==> forall choice <- o.choices.value :: Clean(choice)
  }

  /** The choices of an option are read back exactly when they can be told from the rest of their group. */
  lemma BlockChoices(o: Rendered)
    requires Fits(o)
    ensures ChoiceList(Block(o)) == o.choices <==> Tellable(o)
    ensures AllClean(o) ==> ChoiceList(Block(o)) == ChoicesAndMore(o)
  {
    BlockGroup(o);
    if o.choices.Some? {
      GroupReadsBack(o.choices.value, o.extra);
    }
  }

  // An option whose default is read as a choice.

  const PROMPTS_NAME := "permission-prompts"

  const PROMPTS_TARGET := "<target>"

  const PROMPTS_CHOICES := ["host", "none"]

  const PROMPTS_DEFAULT := ["default:", "\"host\""]

  /** An option answered by one of two, and by the first unless told otherwise, under any prose ahead of it. */
  function PermissionPrompts(prose: seq<string>): Rendered {
    var part := [CHOICES_PREFIX] + GroupWords(PROMPTS_CHOICES, PROMPTS_DEFAULT);
    Rendered(
      [Long(PROMPTS_NAME)], Some(PROMPTS_TARGET), prose, Some(PROMPTS_CHOICES), PROMPTS_DEFAULT, [],
      9, prose, [Line(40, part)])
  }

  lemma GraphIsBlankless(w: string)
    requires forall i :: 0 <= i < |w| ==> '!' <= w[i] <= '~'
    ensures Blankless(w)
  {
    assert forall c <- BLANKS :: !('!' <= c <= '~');
  }

  lemma PromptsLiterals()
    ensures NameFits(Long(PROMPTS_NAME)) && Word(PROMPTS_TARGET) && NoDoubleDash(PROMPTS_TARGET)
    ensures '(' !in PROMPTS_TARGET
    ensures Blankless("host") && Blankless("none") && Words(PROMPTS_DEFAULT)
  {
    GraphIsBlankless(PROMPTS_TARGET);
    GraphIsBlankless("host");
    GraphIsBlankless("none");
    GraphIsBlankless("default:");
    GraphIsBlankless("\"host\"");
  }

  lemma PromptsFit(prose: seq<string>)
    requires Words(prose) && forall w <- prose :: NoMarker(w)
    ensures Fits(PermissionPrompts(prose))
  {
    PromptsLiterals();
    NoParenNoMarker(PROMPTS_TARGET);
    var o := PermissionPrompts(prose);
    assert LineWords(o.more) == o.more[0].words;
    assert DescriptionWords(o) == prose + o.more[0].words;
  }

  /** One quoted value behind a word. */
  lemma OneQuotedText(lead: string, value: string)
    requires '\"' !in lead && ')' !in lead && Clean(value)
    ensures QuotedValues(UpTo(lead + ("\"" + value + "\""), ')'), '\"') == [value]
  {
    assert "\"" + value + "\"" + [] == "\"" + value + "\"";
    FirstReads(lead, value, []);
  }

  lemma DefaultIsQuoted()
    ensures Clean("host") && Clean("none") && ExtraQuoted(PROMPTS_DEFAULT) == ["host"]
  {
    HeadText("default:", ["\"host\""]);
    assert "\"host\"" == "\"" + "host" + "\"";
    OneQuotedText("default:" + " ", "host");
  }

  lemma CleanGroupReads(o: Rendered, choices: seq<string>, more: seq<string>)
    requires Fits(o) && o.choices == Some(choices) && ExtraQuoted(o.extra) == more
    requires forall choice <- choices :: Clean(choice)
    ensures ChoiceList(Block(o)) == Some(choices + more)
  {
    BlockChoices(o);
  }

  lemma PromptsRead(o: Rendered)
    requires Fits(o) && o.choices == Some(PROMPTS_CHOICES) && o.extra == PROMPTS_DEFAULT
    ensures ChoiceList(Block(o)) == Some(PROMPTS_CHOICES + ["host"])
  {
    DefaultIsQuoted();
    CleanGroupReads(o, PROMPTS_CHOICES, ["host"]);
  }

  /** Its default is read as a third choice. */
  lemma ADefaultIsReadAsAChoice(prose: seq<string>)
    requires Words(prose) && forall w <- prose :: NoMarker(w)
    ensures var o := PermissionPrompts(prose);
      Fits(o) && o.choices == Some(["host", "none"]) && ChoiceList(Block(o)) == Some(["host", "none"] + ["host"])
  {
    PromptsFit(prose);
    PromptsRead(PermissionPrompts(prose));
  }

  // The whole text.

  /** Lines that declare nothing: the usage ahead of the options. */
  predicate Plain(lines: seq<string>) {
    forall line <- lines :: !Declares(line)
  }

  function Expected(options: seq<Rendered>): seq<Declared> {
    if |options| == 0 then []
    else [Declared(LongNames(options[0].names), Block(options[0]))] + Expected(options[1..])
  }

  lemma {:induction false} PlainDeclaresNothing(lines: seq<string>, rest: seq<string>)
    requires Plain(lines)
    ensures DeclaredOptions(lines + rest) == DeclaredOptions(rest)
  {
    if lines == [] {
      assert lines + rest == rest;
    } else {
      assert lines[0] in lines;
      assert (lines + rest)[1..] == lines[1..] + rest;
      PlainDeclaresNothing(lines[1..], rest);
    }
  }

  lemma {:induction false} MoreLinesArePlain(lines: seq<Line>)
    requires LinesFit(lines) && Words(LineWords(lines))
    ensures Plain(MoreLines(lines))
  {
    if lines != [] {
      assert lines[0] in lines;
      WordsConcat(lines[0].words, LineWords(lines[1..]));
      MoreLineRead(lines[0]);
      MoreLinesArePlain(lines[1..]);
    }
  }

  lemma DeclaredHere(line: string, rest: seq<string>, declaration: string)
    requires OptionLine(line) == Some(declaration)
    ensures DeclaredOptions([line] + rest)
      == [Declared(LongFlags(BeforeDescription(declaration)), BlockAt([line] + rest))] + DeclaredOptions(rest)
  {
  }

  lemma MoreLinesDeclareNothing(o: Rendered, rest: seq<string>)
    requires Fits(o)
    ensures DeclaredOptions(MoreLines(o.more) + rest) == DeclaredOptions(rest)
  {
    DescriptionIsWords(o);
    MoreLinesArePlain(o.more);
    PlainDeclaresNothing(MoreLines(o.more), rest);
  }

  lemma OptionRead(o: Rendered, rest: seq<string>)
    requires Fits(o) && EndsBlock(rest)
    ensures DeclaredOptions(Lines(o) + rest) == [Declared(LongNames(o.names), Block(o))] + DeclaredOptions(rest)
    ensures EndsBlock(Lines(o) + rest)
  {
    var below := MoreLines(o.more) + rest;
    var declaration := Text(TermWords(o)) + Tail(o);
    assert Lines(o) + rest == [FirstLine(o)] + below;
    FirstLineRead(o);
    assert LongFlags(BeforeDescription(declaration)) == LongNames(o.names) by {
      TermFlags(o);
    }
    assert BlockAt([FirstLine(o)] + below) == Block(o) by {
      BlockRead(o, rest);
    }
    MoreLinesDeclareNothing(o, rest);
    DeclaredHere(FirstLine(o), below, declaration);
  }

  lemma AllLinesOf(options: seq<Rendered>, footer: seq<string>)
    requires options != []
    ensures AllLines(options) + footer == Lines(options[0]) + (AllLines(options[1..]) + footer)
  {
  }

  lemma {:induction false} OptionsRead(options: seq<Rendered>, footer: seq<string>)
    requires (forall o <- options :: Fits(o)) && Plain(footer) && EndsBlock(footer)
    ensures DeclaredOptions(AllLines(options) + footer) == Expected(options)
    ensures EndsBlock(AllLines(options) + footer)
  {
    if |options| == 0 {
      assert AllLines(options) + footer == footer;
      assert DeclaredOptions(footer) == [] by {
        PlainDeclaresNothing(footer, []);
        assert footer + [] == footer;
      }
    } else {
      assert options[0] in options;
      OptionsRead(options[1..], footer);
      AllLinesOf(options, footer);
      OptionRead(options[0], AllLines(options[1..]) + footer);
    }
  }

  /**
    For any list of options, laid out in any of the ways commander lays them out, between any text that
    declares nothing: the options read are exactly the long flags declared, in order, so none that only a
    description mentions; and each block gives back its choices exactly when nothing else in their group is
    quoted, and otherwise gives that too.
  */
  lemma HelpReadsBack(header: seq<string>, options: seq<Rendered>, footer: seq<string>)
    requires Plain(header) && (forall o <- options :: Fits(o)) && Plain(footer) && EndsBlock(footer)
    ensures var read := DeclaredOptions(header + AllLines(options) + footer);
      && |read| == |options|
      && (forall i :: 0 <= i < |options| ==>
            && read[i].flags == LongNames(options[i].names)
            && (ChoiceList(read[i].block) == options[i].choices <==> Tellable(options[i]))
            && (AllClean(options[i]) ==> ChoiceList(read[i].block) == ChoicesAndMore(options[i])))
  {
    WholeRead(header, options, footer);
    ExpectedSize(options);
    forall i | 0 <= i < |options|
      ensures Expected(options)[i].flags == LongNames(options[i].names)
      ensures ChoiceList(Expected(options)[i].block) == options[i].choices <==> Tellable(options[i])
      ensures AllClean(options[i]) ==> ChoiceList(Expected(options)[i].block) == ChoicesAndMore(options[i])
    {
      ExpectedAt(options, i);
      BlockChoices(options[i]);
    }
  }

  lemma WholeRead(header: seq<string>, options: seq<Rendered>, footer: seq<string>)
    requires Plain(header) && (forall o <- options :: Fits(o)) && Plain(footer) && EndsBlock(footer)
    ensures DeclaredOptions(header + AllLines(options) + footer) == Expected(options)
  {
    assert header + AllLines(options) + footer == header + (AllLines(options) + footer);
    PlainDeclaresNothing(header, AllLines(options) + footer);
    OptionsRead(options, footer);
  }

  lemma {:induction false} ExpectedSize(options: seq<Rendered>)
    ensures |Expected(options)| == |options|
  {
    if |options| > 0 {
      ExpectedSize(options[1..]);
    }
  }

  lemma {:induction false} ExpectedAt(options: seq<Rendered>, i: nat)
    requires i < |options| == |Expected(options)|
    ensures Expected(options)[i] == Declared(LongNames(options[i].names), Block(options[i]))
  {
    if i > 0 {
      ExpectedSize(options[1..]);
      ExpectedAt(options[1..], i - 1);
    }
  }

  // Groups in general.

  /** Prose with a group after each piece of it, and what stands behind the last. */
  function Grouped(prose: seq<string>, groups: seq<string>, tail: string): string
    requires |prose| == |groups|
  {
    if |groups| == 0 then tail
    else prose[0] + (['('] + (groups[0] + ([')'] + Grouped(prose[1..], groups[1..], tail))))
  }

  /** Nothing that is both opened and closed. */
  ghost predicate HoldsNoGroup(tail: string) {
    '(' !in tail || exists before, after :: OpensFor(tail, before, after) && ')' !in after
  }

  predicate OpensFor(text: string, before: string, after: string) {
    '(' !in before && text == before + (['('] + after)
  }

  ghost predicate GroupsOf(text: string, prose: seq<string>, groups: seq<string>, tail: string) {
    && |prose| == |groups|
    && (forall piece <- prose :: '(' !in piece) && (forall group <- groups :: ')' !in group)
    && HoldsNoGroup(tail) && text == Grouped(prose, groups, tail)
  }

  lemma {:induction false} SplitNowhere(s: string, c: char)
    ensures SplitAt(s, c).None? <==> c !in s
  {
    if s != [] {
      SplitNowhere(s[1..], c);
      assert s == [s[0]] + s[1..];
    }
  }

  lemma TailHasNoGroup(tail: string)
    ensures HoldsNoGroup(tail) ==> ParenGroups(tail) == []
    ensures SplitAt(tail, '(').None? || SplitAt(SplitAt(tail, '(').value.after, ')').None? ==> HoldsNoGroup(tail)
  {
    SplitNowhere(tail, '(');
    if SplitAt(tail, '(').Some? {
      var split := SplitAt(tail, '(').value;
      SplitParts(tail, '(');
      SplitNowhere(split.after, ')');
      assert OpensFor(tail, split.before, split.after);
      if HoldsNoGroup(tail) {
        var before, after :| OpensFor(tail, before, after) && ')' !in after;
        SplitAtFirst(before, '(', after);
      }
    }
  }

  /** The groups of a text are read in order, whatever stands between them and however unclosed it ends. */
  lemma {:induction false} GroupsReadBack(prose: seq<string>, groups: seq<string>, tail: string)
    requires |prose| == |groups| && GroupsOf(Grouped(prose, groups, tail), prose, groups, tail)
    ensures ParenGroups(Grouped(prose, groups, tail)) == groups
  {
    if |groups| == 0 {
      TailHasNoGroup(tail);
    } else {
      var later := Grouped(prose[1..], groups[1..], tail);
      assert prose[0] in prose && groups[0] in groups;
      assert (forall piece <- prose[1..] :: piece in prose) && (forall group <- groups[1..] :: group in groups);
      SplitAtFirst(prose[0], '(', groups[0] + ([')'] + later));
      SplitAtFirst(groups[0], ')', later);
      GroupsReadBack(prose[1..], groups[1..], tail);
    }
  }

  lemma {:induction false} EveryTextIsGrouped(text: string) returns (prose: seq<string>, tail: string)
    ensures GroupsOf(text, prose, ParenGroups(text), tail)
    decreases |text|
  {
    prose, tail := [], text;
    TailHasNoGroup(text);
    if SplitAt(text, '(').Some? {
      var start := SplitAt(text, '(').value;
      SplitParts(text, '(');
      if SplitAt(start.after, ')').Some? {
        var closed := SplitAt(start.after, ')').value;
        SplitParts(start.after, ')');
        var later;
        later, tail := EveryTextIsGrouped(closed.after);
        prose := [start.before] + later;
        assert prose[1..] == later;
        assert ([closed.before] + ParenGroups(closed.after))[1..] == ParenGroups(closed.after);
      }
    }
  }

  /** The groups read are the only ones there are: a text falls into prose and groups in one way. */
  lemma TheGroupsAreThese(text: string, groups: seq<string>)
    ensures ParenGroups(text) == groups <==> exists prose, tail :: GroupsOf(text, prose, groups, tail)
  {
    var prose, tail := EveryTextIsGrouped(text);
    if other, end :| GroupsOf(text, other, groups, end) {
      GroupsReadBack(other, groups, end);
    }
  }
}
