/**
  What is written can be read: a reader of JSON texts, made from the grammar of RFC 8259 alone, gives back the
  value the writer was given.

  The reader takes strings as section 7 writes them, numbers as section 6 does, and no white space between tokens,
  since none is written.
*/
module JsonReading {
  import opened Prelude
  import opened Events
  import opened PromptSize

  /** What was read, and what stands behind it. */
  datatype Reading<+T> = Reading(value: T, rest: string)

  // Strings.

  /** What a reversed solidus and one more character stand for, the `u` of a number apart. */
  function Short(c: char): Option<char> {
    match c
    case '\"' => Some('\"')
    case '\\' => Some('\\')
    case '/' => Some('/')
    case 'b' => Some(8 as char)
    case 'f' => Some(12 as char)
    case 'n' => Some(10 as char)
    case 'r' => Some(13 as char)
    case 't' => Some(9 as char)
    case _ => None
  }

  function HexValue(c: char): Option<nat> {
    if '0' <= c <= '9' then Some(c as int - '0' as int)
    else if 'a' <= c <= 'f' then Some(c as int - 'a' as int + 10)
    else if 'A' <= c <= 'F' then Some(c as int - 'A' as int + 10)
    else None
  }

  /** The 16 bits that `\uXXXX` at the start of `s` gives. */
  function Unit(s: string): (unit: Option<nat>)
    ensures unit.Some? ==> unit.value < 0x1_0000 && |s| >= 6
  {
    if |s| < 6 || s[0] != '\\' || s[1] != 'u' then None
    else
      match (HexValue(s[2]), HexValue(s[3]), HexValue(s[4]), HexValue(s[5]))
      case (Some(a), Some(b), Some(c), Some(d)) =>
        assert a < 16 && b < 16 && c < 16 && d < 16;
        Some(0x1000 * a + 0x100 * b + 0x10 * c + d)
      case _ => None
  }

  /** One character of a string, which is not at its closing quote. */
  function ReadChar(s: string): (read: Option<Reading<char>>)
    ensures read.Some? ==> |read.value.rest| < |s|
  {
    if s == [] || s[0] == '\"' || s[0] as int < 0x20 then None
    else if s[0] != '\\' then Some(Reading(s[0], s[1..]))
    else if |s| > 1 && Short(s[1]).Some? then Some(Reading(Short(s[1]).value, s[2..]))
    else
      match Unit(s)
      case None => None
      case Some(unit) =>
        if unit < 0xD800 || 0xE000 <= unit then Some(Reading(unit as char, s[6..]))
        else
          // The first half of a pair must be followed by the second.
          match Unit(s[6..])
          case Some(second) =>
            if unit < 0xDC00 && 0xDC00 <= second < 0xE000
            then Some(Reading((0x1_0000 + 0x400 * (unit - 0xD800) + (second - 0xDC00)) as char, s[12..]))
            else None
          case None => None
  }

  /** The rest of a string whose opening quote was read, up to its closing one. */
  function ReadText(s: string): (read: Option<Reading<string>>)
    ensures read.Some? ==> |read.value.rest| < |s|
    decreases |s|
  {
    if s != [] && s[0] == '\"' then Some(Reading("", s[1..]))
    else
      match ReadChar(s)
      case None => None
      case Some(first) =>
        match ReadText(first.rest)
        case None => None
        case Some(later) => Some(Reading([first.value] + later.value, later.rest))
  }

  /** One escaped character is read back as that character. */
  lemma EscapeReadsBack(c: char, behind: string)
    ensures ReadChar(Escape(c) + behind) == Some(Reading(c, behind))
    ensures Escape(c)[0] != '\"'
  {
    var s := Escape(c) + behind;
    if |Escape(c)| == 2 {
      assert s[2..] == behind && s[1] == Escape(c)[1];
    } else if |Escape(c)| == 6 {
      ControlReadsBack(c, behind);
    } else {
      assert s[1..] == behind;
    }
  }

  lemma ControlReadsBack(c: char, behind: string)
    requires |Escape(c)| == 6
    ensures ReadChar(Escape(c) + behind) == Some(Reading(c, behind))
  {
    var s := Escape(c) + behind;
    var n := c as int;
    assert s[0] == '\\' && s[1] == 'u' && s[2] == '0' && s[3] == '0' && s[4] == HEX[n / 16] && s[5] == HEX[n % 16];
    HexReadsBack(n / 16);
    HexReadsBack(n % 16);
    assert Unit(s) == Some(n);
    assert s[6..] == behind;
  }

  lemma HexReadsBack(n: nat)
    requires n < 16
    ensures HexValue(HEX[n]) == Some(n)
  {
  }

  lemma CharThenText(s: string, c: char, later: string, text: string, behind: string)
    requires s != [] && s[0] != '\"' && ReadChar(s) == Some(Reading(c, later))
    requires ReadText(later) == Some(Reading(text, behind))
    ensures ReadText(s) == Some(Reading([c] + text, behind))
  {
  }

  lemma EscapedThenText(c: char, later: string, text: string, behind: string)
    requires ReadText(later) == Some(Reading(text, behind))
    ensures ReadText(Escape(c) + later) == Some(Reading([c] + text, behind))
  {
    var s := Escape(c) + later;
    EscapeReadsBack(c, later);
    assert s[0] == Escape(c)[0];
    CharThenText(s, c, later, text, behind);
  }

  /** A written string is read back, and what stands behind it is left. */
  lemma {:induction false} TextReadsBack(text: string, behind: string)
    ensures ReadText(EscapeAll(text) + "\"" + behind) == Some(Reading(text, behind))
  {
    var s := EscapeAll(text) + "\"" + behind;
    if text == [] {
      assert s[0] == '\"' && s[1..] == behind;
    } else {
      var later := EscapeAll(text[1..]) + "\"" + behind;
      assert s == Escape(text[0]) + later;
      TextReadsBack(text[1..], behind);
      EscapedThenText(text[0], later, text[1..], behind);
      assert text == [text[0]] + text[1..];
    }
  }

  // What may stand between the quotes.

  predicate HexDigits(s: string) {
    forall c <- s :: HexValue(c).Some?
  }

  /** A sequence of unescaped characters and of escapes: no control character, no bare quote or reversed solidus. */
  predicate Chars(s: string)
    decreases |s|
  {
    || s == []
    || (s[0] != '\"' && s[0] != '\\' && s[0] as int >= 0x20 && Chars(s[1..]))
    || (s[0] == '\\' && |s| >= 2 && Short(s[1]).Some? && Chars(s[2..]))
    || (s[0] == '\\' && |s| >= 6 && s[1] == 'u' && HexDigits(s[2..6]) && Chars(s[6..]))
  }

  lemma {:induction false} EscapedIsClean(text: string)
    ensures Chars(EscapeAll(text))
    ensures forall c <- EscapeAll(text) :: c as int >= 0x20
  {
    if text != [] {
      EscapedIsClean(text[1..]);
      OneIsClean(text[0], EscapeAll(text[1..]));
      OneIsPrintable(text[0]);
    }
  }

  lemma PlainEscape(c: char)
    requires |Escape(c)| !in {2, 6}
    ensures Escape(c) == [c] && c != '\"' && c != '\\' && c as int >= 0x20
  {
  }

  lemma OneIsPrintable(c: char)
    ensures forall d <- Escape(c) :: d as int >= 0x20
  {
    if |Escape(c)| == 2 {
      ShortIsClean(c);
    } else if |Escape(c)| == 6 {
      ControlIsHex(c);
    } else {
      PlainEscape(c);
    }
  }

  lemma OneIsClean(c: char, later: string)
    requires Chars(later)
    ensures Chars(Escape(c) + later)
  {
    var escaped := Escape(c);
    if |escaped| == 2 {
      ShortIsClean(c);
      PairThenChars(escaped[1], escaped + later, later);
    } else if |escaped| == 6 {
      ControlIsHex(c);
      NumberThenChars(escaped, later);
    } else {
      PlainEscape(c);
      assert ([c] + later)[1..] == later;
    }
  }

  lemma ShortIsClean(c: char)
    requires |Escape(c)| == 2
    ensures Escape(c)[0] == '\\' && Short(Escape(c)[1]).Some? && forall d <- Escape(c) :: d as int >= 0x20
  {
  }

  lemma PairThenChars(c: char, s: string, later: string)
    requires |s| == 2 + |later| && s[0] == '\\' && s[1] == c && s[2..] == later && Short(c).Some? && Chars(later)
    ensures Chars(s)
  {
  }

  lemma NumberThenChars(escaped: string, later: string)
    requires |escaped| == 6 && escaped[0] == '\\' && escaped[1] == 'u' && HexDigits(escaped[2..]) && Chars(later)
    ensures Chars(escaped + later)
  {
    var s := escaped + later;
    assert s[6..] == later && s[2..6] == escaped[2..];
  }

  lemma ControlIsHex(c: char)
    requires |Escape(c)| == 6
    ensures Escape(c)[0] == '\\' && Escape(c)[1] == 'u' && HexDigits(Escape(c)[2..])
    ensures forall d <- Escape(c) :: d as int >= 0x20
  {
    HexReadsBack(c as int / 16);
    HexReadsBack(c as int % 16);
    assert Escape(c)[2..] == ['0', '0', HEX[c as int / 16], HEX[c as int % 16]];
  }

  /** What one character takes: two bytes with a short escape, six as a number, else its own width. */
  function SpentOn(c: char): nat {
    if c as int in {0x22, 0x5C, 0x08, 0x09, 0x0A, 0x0C, 0x0D} then 2
    else if c as int < 0x20 then 6
    else Utf8Width(c)
  }

  function Spent(text: string): nat {
    if text == [] then 0 else SpentOn(text[0]) + Spent(text[1..])
  }

  lemma {:induction false} AsciiBytes(s: string)
    requires forall c <- s :: c as int < 0x80
    ensures Utf8Length(s) == |s|
  {
    if s != [] {
      assert s[0] in s && forall c <- s[1..] :: c in s;
      AsciiBytes(s[1..]);
    }
  }

  lemma EscapeSpends(c: char)
    ensures Utf8Length(Escape(c)) == SpentOn(c)
  {
    if |Escape(c)| == 1 {
      assert Escape(c)[1..] == [];
    } else {
      AsciiBytes(Escape(c));
    }
  }

  /** The count of a text is told character by character, whatever the escapes look like. */
  lemma {:induction false} EscapedTextSpends(text: string)
    ensures EscapedBytes(text) == Spent(text)
  {
    if text != [] {
      Utf8Concat(Escape(text[0]), EscapeAll(text[1..]));
      EscapeSpends(text[0]);
      EscapedTextSpends(text[1..]);
    }
  }

  // Values.

  /** The characters of numbers and of the three literal names. */
  predicate TokenChar(c: char) {
    '0' <= c <= '9' || 'a' <= c <= 'z' || c == 'E' || c == '+' || c == '-' || c == '.'
  }

  function TokenLength(s: string): (n: nat)
    ensures n <= |s|
  {
    if s == [] || !TokenChar(s[0]) then 0 else 1 + TokenLength(s[1..])
  }

  predicate IsDigit(c: char) {
    '0' <= c <= '9'
  }

  function PastDigits(s: string): string {
    if s == [] || !IsDigit(s[0]) then s else PastDigits(s[1..])
  }

  predicate StartsWithDigit(s: string) {
    s != [] && IsDigit(s[0])
  }

  /** `[ "-" ] int [ frac ] [ exp ]` */
  predicate IsNumber(s: string) {
    var unsigned := if s != [] && s[0] == '-' then s[1..] else s;
    StartsWithDigit(unsigned) && IsFraction(if unsigned[0] == '0' then unsigned[1..] else PastDigits(unsigned))
  }

  predicate IsFraction(s: string) {
    if s != [] && s[0] == '.' then StartsWithDigit(s[1..]) && IsExponent(PastDigits(s[1..])) else IsExponent(s)
  }

  predicate IsExponent(s: string) {
    || s == []
    || (s[0] in {'e', 'E'}
        && var signless := if |s| > 1 && s[1] in {'+', '-'} then s[2..] else s[1..];
           StartsWithDigit(signless) && PastDigits(signless) == [])
  }

  /** A token that stands for a value of its own and is not `null`. */
  predicate IsLiteral(token: string) {
    token == "true" || token == "false" || (IsNumber(token) && forall c <- token :: TokenChar(c))
  }

  predicate StartsWith(s: string, c: char) {
    s != [] && s[0] == c
  }

  function ReadToken(s: string): Option<Reading<Json>> {
    var n := TokenLength(s);
    if s[..n] == "null" then Some(Reading(Null, s[n..]))
    else if IsLiteral(s[..n]) then Some(Reading(Literal(s[..n]), s[n..]))
    else None
  }

  lemma TokenIsRead(s: string)
    ensures ReadToken(s).Some? ==> |ReadToken(s).value.rest| < |s|
  {
  }

  /** One value at the start of a text. */
  function ReadValue(s: string): (read: Option<Reading<Json>>)
    ensures read.Some? ==> |read.value.rest| < |s|
    decreases |s|, 0
  {
    if StartsWith(s, '\"') then
      match ReadText(s[1..])
      case None => None
      case Some(text) => Some(Reading(Str(text.value), text.rest))
    else if StartsWith(s, '[') then
      if StartsWith(s[1..], ']') then Some(Reading(Arr([]), s[2..]))
      else
        match ReadItems(s[1..])
        case None => None
        case Some(items) => Some(Reading(Arr(items.value), items.rest))
    else if StartsWith(s, '{') then
      if StartsWith(s[1..], '}') then Some(Reading(Obj([]), s[2..]))
      else
        match ReadMembers(s[1..])
        case None => None
        case Some(members) => Some(Reading(Obj(members.value), members.rest))
    else
      TokenIsRead(s);
      ReadToken(s)
  }

  /** The items of an array, at least one, up to its closing bracket. */
  function ReadItems(s: string): (read: Option<Reading<seq<Json>>>)
    ensures read.Some? ==> |read.value.rest| < |s|
    decreases |s|, 1
  {
    match ReadValue(s)
    case None => None
    case Some(first) =>
      if StartsWith(first.rest, ']') then Some(Reading([first.value], first.rest[1..]))
      else if StartsWith(first.rest, ',') then
        match ReadItems(first.rest[1..])
        case None => None
        case Some(later) => Some(Reading([first.value] + later.value, later.rest))
      else None
  }

  function ReadMember(s: string): (read: Option<Reading<Member>>)
    ensures read.Some? ==> |read.value.rest| < |s|
    decreases |s|, 1
  {
    if !StartsWith(s, '\"') then None
    else
      match ReadText(s[1..])
      case None => None
      case Some(key) =>
        if !StartsWith(key.rest, ':') then None
        else
          match ReadValue(key.rest[1..])
          case None => None
          case Some(value) => Some(Reading(Member(key.value, value.value), value.rest))
  }

  function ReadMembers(s: string): (read: Option<Reading<seq<Member>>>)
    ensures read.Some? ==> |read.value.rest| < |s|
    decreases |s|, 2
  {
    match ReadMember(s)
    case None => None
    case Some(first) =>
      if StartsWith(first.rest, '}') then Some(Reading([first.value], first.rest[1..]))
      else if StartsWith(first.rest, ',') then
        match ReadMembers(first.rest[1..])
        case None => None
        case Some(later) => Some(Reading([first.value] + later.value, later.rest))
      else None
  }

  /** Every literal in it is one. */
  predicate WellFormed(json: Json)
    decreases json
  {
    match json
    case Literal(text) => IsLiteral(text)
    case Arr(items) => forall item <- items :: WellFormed(item)
    case Obj(members) => forall member <- members :: WellFormed(member.value)
    case _ => true
  }

  /** What may stand behind a value: nothing that would go on with its token. */
  predicate Stops(behind: string) {
    behind == [] || !TokenChar(behind[0])
  }

  lemma {:induction false} TokenStops(token: string, behind: string)
    requires (forall c <- token :: TokenChar(c)) && Stops(behind)
    ensures TokenLength(token + behind) == |token|
  {
    if token == [] {
      assert token + behind == behind;
    } else {
      assert token[0] in token && (token + behind)[1..] == token[1..] + behind;
      TokenStops(token[1..], behind);
    }
  }

  lemma TokenReadsBack(token: string, behind: string)
    requires (token == "null" || IsLiteral(token)) && Stops(behind)
    ensures ReadValue(token + behind)
      == Some(Reading(if token == "null" then Null else Literal(token), behind))
    ensures token != [] && token[0] !in {'\"', '[', '{', ']', '}'}
  {
    assert forall c <- token :: TokenChar(c);
    assert token != [] && TokenChar(token[0]);
    TokenStops(token, behind);
    assert (token + behind)[..|token|] == token && (token + behind)[|token|..] == behind;
    assert (token + behind)[0] == token[0];
  }

  /** No value starts with a closing bracket. */
  lemma WritesNoBracketFirst(json: Json)
    requires WellFormed(json)
    ensures Write(json) != [] && Write(json)[0] !in {']', '}'}
  {
    match json {
      case Null => TokenReadsBack("null", []);
      case Literal(text) => TokenReadsBack(text, []);
      case _ =>
    }
  }

  // What follows an opening, a comma and a closing.

  lemma ArrayOpens(inside: string, items: seq<Json>, behind: string)
    requires ReadItems(inside) == Some(Reading(items, behind)) && !StartsWith(inside, ']')
    ensures ReadValue("[" + inside) == Some(Reading(Arr(items), behind))
  {
    assert ("[" + inside)[1..] == inside;
  }

  lemma ObjectOpens(inside: string, members: seq<Member>, behind: string)
    requires ReadMembers(inside) == Some(Reading(members, behind)) && !StartsWith(inside, '}')
    ensures ReadValue("{" + inside) == Some(Reading(Obj(members), behind))
  {
    assert ("{" + inside)[1..] == inside;
  }

  lemma NothingInside(behind: string)
    ensures ReadValue("[" + ("]" + behind)) == Some(Reading(Arr([]), behind))
    ensures ReadValue("{" + ("}" + behind)) == Some(Reading(Obj([]), behind))
  {
    var items, members := "[" + ("]" + behind), "{" + ("}" + behind);
    assert items[1..] == "]" + behind && items[2..] == behind;
    assert members[1..] == "}" + behind && members[2..] == behind;
  }

  lemma ItemsEnd(s: string, item: Json, behind: string)
    requires ReadValue(s) == Some(Reading(item, "]" + behind))
    ensures ReadItems(s) == Some(Reading([item], behind))
  {
    assert ("]" + behind)[1..] == behind;
  }

  lemma ItemsGoOn(s: string, item: Json, later: string, items: seq<Json>, behind: string)
    requires ReadValue(s) == Some(Reading(item, "," + later)) && ReadItems(later) == Some(Reading(items, behind))
    ensures ReadItems(s) == Some(Reading([item] + items, behind))
  {
    assert ("," + later)[1..] == later;
  }

  lemma MembersEnd(s: string, member: Member, behind: string)
    requires ReadMember(s) == Some(Reading(member, "}" + behind))
    ensures ReadMembers(s) == Some(Reading([member], behind))
  {
    assert ("}" + behind)[1..] == behind;
  }

  lemma MembersGoOn(s: string, member: Member, later: string, members: seq<Member>, behind: string)
    requires ReadMember(s) == Some(Reading(member, "," + later))
    requires ReadMembers(later) == Some(Reading(members, behind))
    ensures ReadMembers(s) == Some(Reading([member] + members, behind))
  {
    assert ("," + later)[1..] == later;
  }

  lemma KeyThenValue(key: string, later: string, value: Json, behind: string)
    requires ReadValue(later) == Some(Reading(value, behind))
    ensures ReadMember(Quoted(key) + ":" + later) == Some(Reading(Member(key, value), behind))
  {
    var s := Quoted(key) + ":" + later;
    assert s == Quoted(key) + (":" + later);
    QuotedReadsBack(key, ":" + later);
    MemberGoesOn(s, key, later, value, behind);
  }

  lemma MemberGoesOn(s: string, key: string, later: string, value: Json, behind: string)
    requires StartsWith(s, '\"') && ReadText(s[1..]) == Some(Reading(key, ":" + later))
    requires ReadValue(later) == Some(Reading(value, behind))
    ensures ReadMember(s) == Some(Reading(Member(key, value), behind))
  {
    assert (":" + later)[1..] == later;
  }

  lemma {:induction false} QuotedReadsBack(text: string, behind: string)
    ensures var s := Quoted(text) + behind;
      s[0] == '\"' && ReadText(s[1..]) == Some(Reading(text, behind))
  {
    TextReadsBack(text, behind);
    QuotedThen(EscapeAll(text), behind);
  }

  lemma QuotedThen(inside: string, behind: string)
    ensures ("\"" + inside + "\"" + behind)[1..] == inside + "\"" + behind
  {
  }

  lemma {:induction false} StringReadsBack(text: string, behind: string)
    ensures ReadValue(Quoted(text) + behind) == Some(Reading(Str(text), behind))
  {
    QuotedReadsBack(text, behind);
  }

  /** Reading what was written gives the value back, and leaves what stands behind it. */
  lemma {:induction false} ValueReadsBack(json: Json, behind: string)
    requires WellFormed(json) && Stops(behind)
    ensures ReadValue(Write(json) + behind) == Some(Reading(json, behind))
    decreases json, 0
  {
    match json {
      case Null => TokenReadsBack("null", behind);
      case Literal(text) => TokenReadsBack(text, behind);
      case Str(text) => StringReadsBack(text, behind);
      case Arr(items) =>
        var inside := WriteItems(items) + "]" + behind;
        assert Write(json) + behind == "[" + inside;
        if items == [] {
          assert inside == "]" + behind;
          NothingInside(behind);
        } else {
          ItemsReadBack(items, behind);
          ArrayOpens(inside, items, behind);
        }
      case Obj(members) =>
        var inside := WriteMembers(members) + "}" + behind;
        assert Write(json) + behind == "{" + inside;
        if members == [] {
          assert inside == "}" + behind;
          NothingInside(behind);
        } else {
          MembersReadBack(members, behind);
          MembersStartWithAKey(members, behind);
          ObjectOpens(inside, members, behind);
        }
    }
  }

  lemma {:induction false} ItemsReadBack(items: seq<Json>, behind: string)
    requires items != [] && forall item <- items :: WellFormed(item)
    ensures ReadItems(WriteItems(items) + "]" + behind) == Some(Reading(items, behind))
    ensures !StartsWith(WriteItems(items) + "]" + behind, ']')
    decreases items, 1
  {
    var s := WriteItems(items) + "]" + behind;
    WritesNoBracketFirst(items[0]);
    if |items| == 1 {
      OneItemWritten(items, behind);
      ValueReadsBack(items[0], "]" + behind);
      ItemsEnd(s, items[0], behind);
      assert items == [items[0]];
    } else {
      var later := WriteItems(items[1..]) + "]" + behind;
      MoreItemsWritten(items, behind);
      ValueReadsBack(items[0], "," + later);
      ItemsReadBack(items[1..], behind);
      ItemsGoOn(s, items[0], later, items[1..], behind);
      assert items == [items[0]] + items[1..];
    }
  }

  lemma OneItemWritten(items: seq<Json>, behind: string)
    requires |items| == 1
    ensures WriteItems(items) + "]" + behind == Write(items[0]) + ("]" + behind)
  {
    assert WriteItems(items[1..]) == [];
  }

  lemma MoreItemsWritten(items: seq<Json>, behind: string)
    requires |items| > 1
    ensures WriteItems(items) + "]" + behind == Write(items[0]) + ("," + (WriteItems(items[1..]) + "]" + behind))
  {
    assert WriteItems(items) == Write(items[0]) + "," + WriteItems(items[1..]);
    Regrouped(Write(items[0]), ",", WriteItems(items[1..]), "]", behind);
  }

  lemma Regrouped(a: string, b: string, c: string, d: string, e: string)
    ensures (a + b + c) + d + e == a + (b + (c + d + e))
  {
  }

  lemma {:induction false} MemberReadsBack(member: Member, behind: string)
    requires WellFormed(member.value) && Stops(behind)
    ensures ReadMember(WriteMember(member) + behind) == Some(Reading(member, behind))
    decreases member, 1
  {
    ValueReadsBack(member.value, behind);
    KeyThenValue(member.key, Write(member.value) + behind, member.value, behind);
    assert WriteMember(member) + behind == Quoted(member.key) + ":" + (Write(member.value) + behind);
  }

  lemma {:induction false} MembersReadBack(members: seq<Member>, behind: string)
    requires members != [] && forall member <- members :: WellFormed(member.value)
    ensures ReadMembers(WriteMembers(members) + "}" + behind) == Some(Reading(members, behind))
    decreases members, 2
  {
    var s := WriteMembers(members) + "}" + behind;
    if |members| == 1 {
      OneMemberWritten(members, behind);
      MemberReadsBack(members[0], "}" + behind);
      MembersEnd(s, members[0], behind);
      assert members == [members[0]];
    } else {
      var later := WriteMembers(members[1..]) + "}" + behind;
      MoreMembersWritten(members, behind);
      MemberReadsBack(members[0], "," + later);
      MembersReadBack(members[1..], behind);
      MembersGoOn(s, members[0], later, members[1..], behind);
      assert members == [members[0]] + members[1..];
    }
  }

  lemma OneMemberWritten(members: seq<Member>, behind: string)
    requires |members| == 1
    ensures WriteMembers(members) + "}" + behind == WriteMember(members[0]) + ("}" + behind)
  {
    assert WriteMembers(members[1..]) == [];
  }

  lemma MoreMembersWritten(members: seq<Member>, behind: string)
    requires |members| > 1
    ensures WriteMembers(members) + "}" + behind
      == WriteMember(members[0]) + ("," + (WriteMembers(members[1..]) + "}" + behind))
  {
    assert WriteMembers(members) == WriteMember(members[0]) + "," + WriteMembers(members[1..]);
    Regrouped(WriteMember(members[0]), ",", WriteMembers(members[1..]), "}", behind);
  }

  /** Members start with the quote of a key. */
  lemma MembersStartWithAKey(members: seq<Member>, behind: string)
    requires members != []
    ensures !StartsWith(WriteMembers(members) + "}" + behind, '}')
  {
    assert WriteMember(members[0])[0] == '\"';
  }

  // The order of keys.

  /** Keys are ordered by the first character they differ in, a shorter one before those it begins. */
  lemma {:induction false} KeysAreOrdered(a: string, b: string)
    ensures Before(a, b) <==> a != b && (a <= b || exists k: nat :: DifferAt(a, b, k))
  {
    if a != [] && b != [] {
      if a[0] == b[0] {
        KeysAreOrdered(a[1..], b[1..]);
        assert a == [a[0]] + a[1..] && b == [b[0]] + b[1..];
        DifferLater(a, b);
      } else {
        assert a[..0] == b[..0] && (a[0] < b[0] ==> DifferAt(a, b, 0));
        assert forall k: nat :: 0 < k < |a| && k < |b| ==> a[..k][0] != b[..k][0];
      }
    }
  }

  ghost predicate DifferAt(a: string, b: string, k: nat) {
    k < |a| && k < |b| && a[..k] == b[..k] && a[k] < b[k]
  }

  lemma DifferLater(a: string, b: string)
    requires a != [] && b != [] && a[0] == b[0]
    ensures (exists k: nat :: DifferAt(a[1..], b[1..], k)) <==> exists k: nat :: DifferAt(a, b, k)
  {
    forall k: nat | DifferAt(a[1..], b[1..], k)
      ensures DifferAt(a, b, k + 1)
    {
      assert a[..k + 1] == [a[0]] + a[1..][..k] && b[..k + 1] == [b[0]] + b[1..][..k];
    }
    forall k: nat | DifferAt(a, b, k)
      ensures k > 0 && DifferAt(a[1..], b[1..], k - 1)
    {
      assert k > 0;
      assert a[1..][..k - 1] == a[..k][1..] && b[1..][..k - 1] == b[..k][1..];
    }
  }

  lemma {:induction false} OneIsBefore(a: string, b: string)
    ensures a != b ==> Before(a, b) || Before(b, a)
    ensures !Before(a, a)
  {
    if a != [] {
      OneIsBefore(a[1..], if b == [] then [] else b[1..]);
      assert b != [] && a[0] == b[0] && a[1..] == b[1..] ==> a == b;
    }
  }

  lemma {:induction false} BeforeIsTransitive(a: string, b: string, c: string)
    requires Before(a, b) && Before(b, c)
    ensures Before(a, c)
  {
    if a != [] && a[0] == b[0] && b[0] == c[0] {
      BeforeIsTransitive(a[1..], b[1..], c[1..]);
    }
  }

  ghost predicate Sorted(members: seq<Member>) {
    forall i, j :: 0 <= i < j < |members| ==> Before(members[i].key, members[j].key)
  }

  /** Every object in it, at any depth, has its members in strict key order. */
  ghost predicate InOrder(json: Json)
    decreases json
  {
    match json
    case Arr(items) => forall item <- items :: InOrder(item)
    case Obj(members) => Sorted(members) && forall member <- members :: InOrder(member.value)
    case _ => true
  }

  lemma {:induction false} InsertSorts(members: seq<Member>, member: Member)
    requires Sorted(members)
    ensures Sorted(Insert(members, member))
    ensures forall other <- Insert(members, member) :: other == member || other in members
  {
    if members != [] {
      var first := members[0];
      if Before(member.key, first.key) {
        forall j | 0 < j < |members|
          ensures Before(member.key, members[j].key)
        {
          BeforeIsTransitive(member.key, first.key, members[j].key);
        }
      } else if member.key != first.key {
        OneIsBefore(member.key, first.key);
        InsertSorts(members[1..], member);
        var later := Insert(members[1..], member);
        assert forall other <- later :: Before(first.key, other.key);
      }
    }
  }

  lemma {:induction false} ValueIsInOrder(json: Json)
    ensures InOrder(AsValue(json))
    ensures WellFormed(json) ==> WellFormed(AsValue(json))
    decreases json
  {
    match json {
      case Arr(items) => ItemsAreInOrder(items);
      case Obj(members) => MembersAreInOrder(members);
      case _ =>
    }
  }

  lemma {:induction false} ItemsAreInOrder(items: seq<Json>)
    ensures forall item <- ItemsAsValues(items) :: InOrder(item)
    ensures (forall item <- items :: WellFormed(item)) ==> forall item <- ItemsAsValues(items) :: WellFormed(item)
    decreases items
  {
    if items != [] {
      ValueIsInOrder(items[0]);
      ItemsAreInOrder(items[1..]);
      assert forall item <- items[1..] :: item in items;
    }
  }

  lemma {:induction false} MembersAreInOrder(members: seq<Member>)
    ensures Sorted(MembersAsValues(members))
    ensures forall member <- MembersAsValues(members) :: InOrder(member.value)
    ensures (forall member <- members :: WellFormed(member.value)) ==>
      forall member <- MembersAsValues(members) :: WellFormed(member.value)
    decreases members
  {
    if members != [] {
      ValueIsInOrder(members[0].value);
      MembersAreInOrder(members[1..]);
      InsertSorts(MembersAsValues(members[1..]), MemberAsValue(members[0]));
      assert forall member <- members[1..] :: member in members;
    }
  }

  // What stands under a key.

  function Field(members: seq<Member>, key: string): Option<Json> {
    if members == [] then None
    else if members[0].key == key then Some(members[0].value)
    else Field(members[1..], key)
  }

  lemma {:induction false} InsertedField(members: seq<Member>, member: Member, key: string)
    ensures Field(Insert(members, member), key) == if key == member.key then Some(member.value) else Field(members, key)
  {
    if members != [] && member.key != members[0].key && !Before(member.key, members[0].key) {
      InsertedField(members[1..], member, key);
      assert ([members[0]] + Insert(members[1..], member))[1..] == Insert(members[1..], member);
    } else {
      assert ([member] + members)[1..] == members;
      assert members != [] ==> ([member] + members[1..])[1..] == members[1..];
    }
  }

  /** Putting members in order keeps what stands under each key, itself in order. */
  lemma {:induction false} FieldsStay(members: seq<Member>, key: string)
    ensures Field(MembersAsValues(members), key)
      == if Field(members, key).Some? then Some(AsValue(Field(members, key).value)) else None
    decreases members
  {
    if members != [] {
      FieldsStay(members[1..], key);
      InsertedField(MembersAsValues(members[1..]), MemberAsValue(members[0]), key);
    }
  }

  // The frame.

  /** A `session/prompt` request as it is read: its four members, its two parameters, and the blocks in order. */
  ghost predicate IsPrompt(frame: Json, id: string, session: string, blocks: seq<Json>) {
    && frame.Obj?
    && Sorted(frame.members)
    && (forall key :: Field(frame.members, key).Some? <==> key in {"jsonrpc", "id", "method", "params"})
    && Field(frame.members, "jsonrpc") == Some(Str("2.0"))
    && Field(frame.members, "id") == Some(Str(id))
    && Field(frame.members, "method") == Some(Str("session/prompt"))
    && var params := Field(frame.members, "params").value;
       && params.Obj?
       && Sorted(params.members)
       && (forall key :: Field(params.members, key).Some? <==> key in {"sessionId", "prompt"})
       && Field(params.members, "sessionId") == Some(Str(session))
       && Field(params.members, "prompt") == Some(Arr(blocks))
  }

  lemma FieldAhead(member: Member, later: seq<Member>, key: string)
    ensures Field([member] + later, key) == if key == member.key then Some(member.value) else Field(later, key)
  {
    assert ([member] + later)[1..] == later;
  }

  lemma TwoFields(a: Member, b: Member, key: string)
    ensures Field([a, b], key)
      == if key == a.key then Some(a.value) else if key == b.key then Some(b.value) else None
  {
    FieldAhead(b, [], key);
    FieldAhead(a, [b] + [], key);
    assert [a, b] == [a] + ([b] + []);
  }

  lemma FourFields(a: Member, b: Member, c: Member, d: Member, key: string)
    ensures Field([a, b, c, d], key)
      == if key == a.key then Some(a.value) else if key == b.key then Some(b.value)
         else if key == c.key then Some(c.value) else if key == d.key then Some(d.value) else None
  {
    TwoFields(c, d, key);
    FieldAhead(b, [c, d], key);
    FieldAhead(a, [b] + [c, d], key);
    assert [a, b, c, d] == [a] + ([b] + [c, d]);
  }

  lemma ParamsFields(session: string, blocks: seq<Json>, key: string)
    ensures var params := AsValue(PromptParams(session, blocks)).members;
      Field(params, key) == (if key == "sessionId" then Some(Str(session))
                             else if key == "prompt" then Some(Arr(ItemsAsValues(blocks))) else None)
  {
    FieldsStay(PromptParams(session, blocks).members, key);
    TwoFields(Member("sessionId", Str(session)), Member("prompt", Arr(blocks)), key);
  }

  lemma EnvelopeFields(id: string, params: Json, key: string)
    ensures var frame := AsValue(Envelope(id, params)).members;
      Field(frame, key) == (if key == "jsonrpc" then Some(Str("2.0"))
                            else if key == "id" then Some(Str(id))
                            else if key == "method" then Some(Str("session/prompt"))
                            else if key == "params" then Some(AsValue(params)) else None)
  {
    FieldsStay(Envelope(id, params).members, key);
    FourFields(Member("jsonrpc", Str("2.0")), Member("id", Str(id)), Member("method", Str("session/prompt")),
      Member("params", params), key);
  }

  /** The frame the count is of is read back as the request it stands for, with nothing left over. */
  lemma FrameReadsBack(id: string, session: string, blocks: seq<Json>)
    requires forall block <- blocks :: WellFormed(block)
    ensures var written := Write(AsValue(Envelope(id, PromptParams(session, blocks))));
      && Utf8Length(written) == FrameBytes(id, session, blocks)
      && ReadValue(written).Some? && ReadValue(written).value.rest == []
      && IsPrompt(ReadValue(written).value.value, id, session, ItemsAsValues(blocks))
  {
    var params := PromptParams(session, blocks);
    var envelope := Envelope(id, params);
    assert WellFormed(params);
    assert WellFormed(envelope);
    ValueIsInOrder(envelope);
    ValueIsInOrder(params);
    var written := Write(AsValue(envelope));
    assert written + [] == written;
    ValueReadsBack(AsValue(envelope), []);
    forall key
      ensures Field(AsValue(envelope).members, key).Some? <==> key in {"jsonrpc", "id", "method", "params"}
    {
      EnvelopeFields(id, params, key);
    }
    forall key
      ensures Field(AsValue(params).members, key).Some? <==> key in {"sessionId", "prompt"}
    {
      ParamsFields(session, blocks, key);
    }
    EnvelopeFields(id, params, "jsonrpc");
    EnvelopeFields(id, params, "id");
    EnvelopeFields(id, params, "method");
    EnvelopeFields(id, params, "params");
    ParamsFields(session, blocks, "sessionId");
    ParamsFields(session, blocks, "prompt");
  }
}
