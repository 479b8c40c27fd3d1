/** The hand-written scans of the help parser, each one pass over a moving index, proved to read what it should. */
module HelpScans {
  import opened Prelude
  import opened Help

  lemma OneMore<T>(done: seq<T>, next: T, rest: seq<T>)
    ensures done + ([next] + rest) == (done + [next]) + rest
  {
  }

  method ScanBeforeDescription(line: string) returns (declaration: string)
    ensures declaration == BeforeDescription(line)
  {
    var run, index := 0, 0;
    while index < |line|
      invariant 0 <= index <= |line| && 0 <= run <= 1 && run <= index
      invariant run == 1 <==> index > 0 && AsciiBlank(line[index - 1])
      invariant BeforeDescription(line) == line[..index - run] + BeforeDescription(line[index - run..])
    {
      if AsciiBlank(line[index]) {
        run := run + 1;
        if run == 2 {
          RunOfTwo(line, index - 1);
          return line[..index - 1];
        }
      } else {
        if run == 1 {
          Skip(line, index - 1);
        }
        Skip(line, index);
        run := 0;
      }
      index := index + 1;
    }
    Whole(line, index - run);
    return line;
  }

  /** Past a character that does not begin a run of two blanks. */
  lemma Skip(line: string, at: nat)
    requires at < |line| && !(at + 1 < |line| && AsciiBlank(line[at]) && AsciiBlank(line[at + 1]))
    ensures line[..at] + BeforeDescription(line[at..]) == line[..at + 1] + BeforeDescription(line[at + 1..])
  {
  }

  lemma RunOfTwo(line: string, at: nat)
    requires at + 1 < |line| && AsciiBlank(line[at]) && AsciiBlank(line[at + 1])
    ensures line[..at] + BeforeDescription(line[at..]) == line[..at]
  {
  }

  lemma Whole(line: string, at: nat)
    requires at <= |line| <= at + 1
    ensures line[..at] + BeforeDescription(line[at..]) == line
  {
  }

  method ScanLongFlags(declaration: string) returns (flags: seq<string>)
    ensures flags == LongFlags(declaration)
  {
    flags := [];
    var index := 0;
    assert declaration[0..] == declaration;
    while index + 2 < |declaration|
      invariant 0 <= index <= |declaration|
      invariant flags + LongFlags(declaration[index..]) == LongFlags(declaration)
      decreases |declaration| - index
    {
      if declaration[index] != '-' || declaration[index + 1] != '-' || !Letter(declaration[index + 2]) {
        NoFlagHere(declaration, index);
        index := index + 1;
      } else {
        var end := ScanFlag(declaration, index);
        OneMore(flags, declaration[index..end], LongFlags(declaration[end..]));
        flags := flags + [declaration[index..end]];
        index := end;
      }
    }
    assert LongFlags(declaration[index..]) == [];
  }

  lemma NoFlagHere(declaration: string, index: nat)
    requires index + 2 < |declaration|
    requires declaration[index] != '-' || declaration[index + 1] != '-' || !Letter(declaration[index + 2])
    ensures LongFlags(declaration[index..]) == LongFlags(declaration[index + 1..])
  {
  }

  /** The end of the flag that starts at `start`. */
  method ScanFlag(declaration: string, start: nat) returns (end: nat)
    requires start + 2 < |declaration|
    requires declaration[start] == '-' && declaration[start + 1] == '-' && Letter(declaration[start + 2])
    ensures start < end <= |declaration|
    ensures LongFlags(declaration[start..]) == [declaration[start..end]] + LongFlags(declaration[end..])
  {
    end := start + 2;
    while end < |declaration| && FlagChar(declaration[end])
      invariant start + 2 <= end <= |declaration|
      invariant FlagRun(declaration[start + 2..]) == end - start - 2 + FlagRun(declaration[end..])
    {
      assert declaration[end..][1..] == declaration[end + 1..];
      end := end + 1;
    }
    var rest := declaration[start..];
    assert rest[2..] == declaration[start + 2..];
    assert rest[..end - start] == declaration[start..end] && rest[end - start..] == declaration[end..];
  }

  method ScanBlockAt(lines: seq<string>, start: nat) returns (block: string)
    requires start < |lines|
    ensures block == BlockAt(lines[start..])
  {
    var parts := [Trim(lines[start])];
    var index := start + 1;
    assert lines[start..][1..] == lines[start + 1..];
    while index < |lines|
      invariant start < index <= |lines|
      invariant parts + Continuation(lines[index..]) == [Trim(lines[start])] + Continuation(lines[start + 1..])
    {
      assert lines[index..][1..] == lines[index + 1..];
      if OptionLine(lines[index]).Some? || Blank(lines[index]) {
        break;
      }
      parts := parts + [Trim(lines[index])];
      index := index + 1;
    }
    assert Continuation(lines[index..]) == [];
    assert parts + [] == parts;
    block := Join(parts, " ");
  }

  method ScanQuoted(text: string, delimiter: char) returns (values: seq<string>)
    ensures values == QuotedValues(text, delimiter)
  {
    values := [];
    var rest := text;
    while FindChar(rest, delimiter).Some?
      invariant values + QuotedValues(rest, delimiter) == QuotedValues(text, delimiter)
      decreases |rest|
    {
      SplitIsFind(rest, delimiter);
      var after := rest[FindChar(rest, delimiter).value + 1..];
      SplitIsFind(after, delimiter);
      var close := FindChar(after, delimiter);
      if close.None? {
        assert QuotedValues(rest, delimiter) == [];
        return;
      }
      var next := after[close.value + 1..];
      if close.value > 0 {
        assert after[..close.value] != "";
        OneMore(values, after[..close.value], QuotedValues(next, delimiter));
        values := values + [after[..close.value]];
      }
      rest := next;
    }
    SplitIsFind(rest, delimiter);
  }

  method ScanParenGroups(block: string) returns (groups: seq<string>)
    ensures groups == ParenGroups(block)
  {
    groups := [];
    var cursor := 0;
    assert block[0..] == block;
    while FindChar(block[cursor..], '(').Some?
      invariant 0 <= cursor <= |block|
      invariant groups + ParenGroups(block[cursor..]) == ParenGroups(block)
      decreases |block| - cursor
    {
      var rest := block[cursor..];
      var open := FindChar(rest, '(').value + 1;
      var after := rest[open..];
      var close := FindChar(after, ')');
      FirstGroup(rest, after);
      if close.None? {
        return;
      }
      OneMore(groups, after[..close.value], ParenGroups(after[close.value + 1..]));
      groups := groups + [after[..close.value]];
      cursor := cursor + open + close.value + 1;
      assert block[cursor..] == after[close.value + 1..];
    }
    SplitIsFind(block[cursor..], '(');
  }

  lemma FirstGroup(s: string, after: string)
    requires FindChar(s, '(').Some? && after == s[FindChar(s, '(').value + 1..]
    ensures FindChar(after, ')').None? ==> ParenGroups(s) == []
    ensures FindChar(after, ')').Some? ==>
      var close := FindChar(after, ')').value;
      ParenGroups(s) == [after[..close]] + ParenGroups(after[close + 1..])
  {
    SplitIsFind(s, '(');
    SplitIsFind(after, ')');
  }

  /** Every long flag the text declares, with the block its description occupies. */
  method ReadOptions(lines: seq<string>) returns (options: seq<Declared>)
    ensures options == DeclaredOptions(lines)
  {
    options := [];
    var index := 0;
    while index < |lines|
      invariant 0 <= index <= |lines|
      invariant options + DeclaredOptions(lines[index..]) == DeclaredOptions(lines)
    {
      assert lines[index..][1..] == lines[index + 1..];
      var declaration := OptionLine(lines[index]);
      if declaration.Some? {
        var before := ScanBeforeDescription(declaration.value);
        var flags := ScanLongFlags(before);
        var block := ScanBlockAt(lines, index);
        OneMore(options, Declared(flags, block), DeclaredOptions(lines[index + 1..]));
        options := options + [Declared(flags, block)];
      }
      index := index + 1;
    }
    assert options + [] == options;
  }
}
