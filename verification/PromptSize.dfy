/**
  The byte count of a `session/prompt` frame, taken before it is written.

  The frame is one JSON object with no whitespace (section 4 of the JSON-RPC 2.0 Specification, escapes as in
  section 7 of RFC 8259). The connection writes it from a value whose objects keep their members in key order;
  the count adds an envelope around an empty prompt to the blocks counted as they serialise, in their own
  order.
*/
module PromptSize {
  import opened Prelude
  import opened Events

  datatype Json =
    | Null
    | Literal(text: string)
    | Str(text: string)
    | Arr(items: seq<Json>)
    | Obj(members: seq<Member>)

  datatype Member = Member(key: string, value: Json)

  // Writing.

  const HEX := "0123456789abcdef"

  /** One character inside a JSON string. */
  function Escape(c: char): (escaped: string)
    ensures escaped != []
  {
    if c == '\"' then "\\\""
    else if c == '\\' then "\\\\"
    else if c == '\U{08}' then "\\b"
    else if c == '\t' then "\\t"
    else if c == '\n' then "\\n"
    else if c == '\U{0C}' then "\\f"
    else if c == '\r' then "\\r"
    else if c as int < 0x20 then "\\u00" + [HEX[c as int / 16], HEX[c as int % 16]]
    else [c]
  }

  function EscapeAll(text: string): string {
    if text == [] then [] else Escape(text[0]) + EscapeAll(text[1..])
  }

  function Quoted(text: string): string {
    "\"" + EscapeAll(text) + "\""
  }

  function Write(json: Json): string
    decreases json
  {
    match json
    case Null => "null"
    case Literal(text) => text
    case Str(text) => Quoted(text)
    case Arr(items) => "[" + WriteItems(items) + "]"
    case Obj(members) => "{" + WriteMembers(members) + "}"
  }

  function WriteItems(items: seq<Json>): string
    decreases items
  {
    if items == [] then []
    else Write(items[0]) + (if |items| == 1 then [] else ",") + WriteItems(items[1..])
  }

  function WriteMembers(members: seq<Member>): string
    decreases members
  {
    if members == [] then []
    else WriteMember(members[0]) + (if |members| == 1 then [] else ",") + WriteMembers(members[1..])
  }

  function WriteMember(member: Member): string
    decreases member, 0
  {
    Quoted(member.key) + ":" + Write(member.value)
  }

  // Its length in bytes, part by part.

  lemma {:induction false} Utf8Concat(a: string, b: string)
    ensures Utf8Length(a + b) == Utf8Length(a) + Utf8Length(b)
  {
    if a == [] {
      assert a + b == b;
    } else {
      assert (a + b)[1..] == a[1..] + b;
      Utf8Concat(a[1..], b);
    }
  }

  /** What a string takes inside its quotes. */
  function EscapedBytes(text: string): nat {
    Utf8Length(EscapeAll(text))
  }

  function Bytes(json: Json): nat
    decreases json
  {
    match json
    case Null => 4
    case Literal(text) => Utf8Length(text)
    case Str(text) => 2 + EscapedBytes(text)
    case Arr(items) => 2 + BytesOfItems(items) + Commas(|items|)
    case Obj(members) => 2 + BytesOfMembers(members) + Commas(|members|)
  }

  function Commas(n: nat): nat {
    if n == 0 then 0 else n - 1
  }

  function BytesOfItems(items: seq<Json>): nat
    decreases items
  {
    if items == [] then 0 else Bytes(items[0]) + BytesOfItems(items[1..])
  }

  function BytesOfMembers(members: seq<Member>): nat
    decreases members
  {
    if members == [] then 0 else BytesOfMember(members[0]) + BytesOfMembers(members[1..])
  }

  function BytesOfMember(member: Member): nat
    decreases member, 0
  {
    3 + EscapedBytes(member.key) + Bytes(member.value)
  }

  lemma QuotedBytes(text: string)
    ensures Utf8Length(Quoted(text)) == 2 + EscapedBytes(text)
  {
    Utf8Concat("\"", EscapeAll(text));
    Utf8Concat("\"" + EscapeAll(text), "\"");
    assert Utf8Length("\"") == 1;
  }

  /** The parts add up to what is written. */
  lemma {:induction false} WrittenBytes(json: Json)
    ensures Utf8Length(Write(json)) == Bytes(json)
    decreases json
  {
    match json {
      case Null => NullBytes();
      case Literal(text) =>
      case Str(text) => QuotedBytes(text);
      case Arr(items) =>
        WrittenItems(items);
        WrappedBytes("[", WriteItems(items), "]");
      case Obj(members) =>
        WrittenMembers(members);
        WrappedBytes("{", WriteMembers(members), "}");
    }
  }

  lemma NullBytes()
    ensures Utf8Length("null") == 4
  {
  }

  lemma WrappedBytes(before: string, inside: string, after: string)
    requires |before| == 1 && |after| == 1 && Utf8Width(before[0]) == 1 && Utf8Width(after[0]) == 1
    ensures Utf8Length(before + inside + after) == 2 + Utf8Length(inside)
  {
    Utf8Concat(before, inside);
    Utf8Concat(before + inside, after);
  }

  lemma {:induction false} WrittenItems(items: seq<Json>)
    ensures Utf8Length(WriteItems(items)) == BytesOfItems(items) + Commas(|items|)
    decreases items
  {
    if items != [] {
      WrittenBytes(items[0]);
      WrittenItems(items[1..]);
      JoinedBytes(Write(items[0]), |items| == 1, WriteItems(items[1..]));
    }
  }

  lemma {:induction false} WrittenMembers(members: seq<Member>)
    ensures Utf8Length(WriteMembers(members)) == BytesOfMembers(members) + Commas(|members|)
    decreases members
  {
    if members != [] {
      WrittenMember(members[0]);
      WrittenMembers(members[1..]);
      JoinedBytes(WriteMember(members[0]), |members| == 1, WriteMembers(members[1..]));
    }
  }

  lemma WrittenMember(member: Member)
    ensures Utf8Length(WriteMember(member)) == BytesOfMember(member)
    decreases member, 0
  {
    QuotedBytes(member.key);
    WrittenBytes(member.value);
    Utf8Concat(Quoted(member.key), ":");
    Utf8Concat(Quoted(member.key) + ":", Write(member.value));
    assert Utf8Length(":") == 1;
  }

  lemma JoinedBytes(first: string, last: bool, rest: string)
    ensures Utf8Length(first + (if last then [] else ",") + rest)
      == Utf8Length(first) + (if last then 0 else 1) + Utf8Length(rest)
  {
    var comma := if last then [] else ",";
    Utf8Concat(first, comma);
    Utf8Concat(first + comma, rest);
    assert Utf8Length(",") == 1;
  }

  // A value, whose objects are kept in key order.

  predicate Before(a: string, b: string) {
    if a == [] then b != []
    else if b == [] then false
    else a[0] < b[0] || (a[0] == b[0] && Before(a[1..], b[1..]))
  }

  /** A member put into its place, over any it has the key of. */
  function Insert(members: seq<Member>, member: Member): seq<Member> {
    if members == [] then [member]
    else if member.key == members[0].key then [member] + members[1..]
    else if Before(member.key, members[0].key) then [member] + members
    else [members[0]] + Insert(members[1..], member)
  }

  function AsValue(json: Json): Json
    decreases json
  {
    match json
    case Arr(items) => Arr(ItemsAsValues(items))
    case Obj(members) => Obj(MembersAsValues(members))
    case _ => json
  }

  function ItemsAsValues(items: seq<Json>): seq<Json>
    decreases items
  {
    if items == [] then [] else [AsValue(items[0])] + ItemsAsValues(items[1..])
  }

  function MembersAsValues(members: seq<Member>): seq<Member>
    decreases members
  {
    if members == [] then [] else Insert(MembersAsValues(members[1..]), MemberAsValue(members[0]))
  }

  function MemberAsValue(member: Member): Member
    decreases member, 0
  {
    Member(member.key, AsValue(member.value))
  }

  /** Every object names each member once, as a serialised structure does. */
  predicate NamedOnce(json: Json)
    decreases json
  {
    match json
    case Arr(items) => ItemsNamedOnce(items)
    case Obj(members) => MembersNamedOnce(members)
    case _ => true
  }

  predicate ItemsNamedOnce(items: seq<Json>)
    decreases items
  {
    items == [] || (NamedOnce(items[0]) && ItemsNamedOnce(items[1..]))
  }

  predicate MembersNamedOnce(members: seq<Member>)
    decreases members
  {
    members == []
    || (MemberNamedOnce(members[0]) && MembersNamedOnce(members[1..]) && !HasKey(members[1..], members[0].key))
  }

  predicate MemberNamedOnce(member: Member)
    decreases member, 0
  {
    NamedOnce(member.value)
  }

  predicate HasKey(members: seq<Member>, key: string) {
    members != [] && (members[0].key == key || HasKey(members[1..], key))
  }

  lemma {:induction false} InsertAdds(members: seq<Member>, member: Member)
    requires !HasKey(members, member.key) && MembersNamedOnce(members) && MemberNamedOnce(member)
    ensures BytesOfMembers(Insert(members, member)) == BytesOfMember(member) + BytesOfMembers(members)
    ensures |Insert(members, member)| == |members| + 1 && MembersNamedOnce(Insert(members, member))
    ensures forall key :: HasKey(Insert(members, member), key) <==> key == member.key || HasKey(members, key)
  {
    if members == [] || Before(member.key, members[0].key) {
      assert ([member] + members)[1..] == members;
      assert [member] == [member] + [];
    } else {
      InsertAdds(members[1..], member);
      var rest := Insert(members[1..], member);
      assert ([members[0]] + rest)[1..] == rest;
    }
  }

  /** Putting members in key order changes no length. */
  lemma {:induction false} ValueBytes(json: Json)
    requires NamedOnce(json)
    ensures Bytes(AsValue(json)) == Bytes(json) && NamedOnce(AsValue(json))
    decreases json
  {
    match json {
      case Arr(items) => ItemsValueBytes(items);
      case Obj(members) => MembersValueBytes(members);
      case _ =>
    }
  }

  lemma {:induction false} ItemsValueBytes(items: seq<Json>)
    requires ItemsNamedOnce(items)
    ensures BytesOfItems(ItemsAsValues(items)) == BytesOfItems(items) && |ItemsAsValues(items)| == |items|
    ensures ItemsNamedOnce(ItemsAsValues(items))
    decreases items
  {
    if items != [] {
      ValueBytes(items[0]);
      ItemsValueBytes(items[1..]);
      assert ItemsAsValues(items)[1..] == ItemsAsValues(items[1..]);
    }
  }

  lemma {:induction false} MembersValueBytes(members: seq<Member>)
    requires MembersNamedOnce(members)
    ensures BytesOfMembers(MembersAsValues(members)) == BytesOfMembers(members)
    ensures |MembersAsValues(members)| == |members| && MembersNamedOnce(MembersAsValues(members))
    ensures forall key :: HasKey(MembersAsValues(members), key) <==> HasKey(members, key)
    decreases members
  {
    if members != [] {
      MemberValueBytes(members[0]);
      MembersValueBytes(members[1..]);
      InsertAdds(MembersAsValues(members[1..]), MemberAsValue(members[0]));
    }
  }

  lemma MemberValueBytes(member: Member)
    requires MemberNamedOnce(member)
    ensures BytesOfMember(MemberAsValue(member)) == BytesOfMember(member) && MemberNamedOnce(MemberAsValue(member))
    decreases member, 0
  {
    ValueBytes(member.value);
  }

  // The frame.

  const SHORTEST_REQUEST_ID := "1"

  function PromptParams(session: string, blocks: seq<Json>): Json {
    Obj([Member("sessionId", Str(session)), Member("prompt", Arr(blocks))])
  }

  function Envelope(id: string, params: Json): Json {
    Obj([Member("jsonrpc", Str("2.0")), Member("id", Str(id)), Member("method", Str("session/prompt")),
         Member("params", params)])
  }

  /** The frame the connection writes under a request id, in bytes, without its newline. */
  function FrameBytes(id: string, session: string, blocks: seq<Json>): nat {
    Utf8Length(Write(AsValue(Envelope(id, PromptParams(session, blocks)))))
  }

  lemma TwoMembers(first: Member, second: Member)
    ensures BytesOfMembers([first, second]) == BytesOfMember(first) + BytesOfMember(second)
  {
    assert [first, second][1..] == [second] && [second][1..] == [];
    assert BytesOfMembers([second]) == BytesOfMember(second);
  }

  lemma ParamsBytes(session: string, blocks: seq<Json>)
    ensures Bytes(PromptParams(session, blocks)) == Bytes(PromptParams(session, [])) - 2 + Bytes(Arr(blocks))
  {
    TwoMembers(Member("sessionId", Str(session)), Member("prompt", Arr(blocks)));
    TwoMembers(Member("sessionId", Str(session)), Member("prompt", Arr([])));
  }

  lemma EnvelopeBytes(id: string, params: Json)
    ensures Bytes(Envelope(id, params))
      == Bytes(Envelope(SHORTEST_REQUEST_ID, Null)) - 4 - EscapedBytes(SHORTEST_REQUEST_ID)
         + EscapedBytes(id) + Bytes(params)
  {
    FourMembers(Envelope(id, params).members);
    FourMembers(Envelope(SHORTEST_REQUEST_ID, Null).members);
  }

  lemma FourMembers(members: seq<Member>)
    requires |members| == 4
    ensures BytesOfMembers(members)
      == BytesOfMember(members[0]) + BytesOfMember(members[1]) + BytesOfMember(members[2]) + BytesOfMember(members[3])
  {
    assert members[1..][1..] == members[2..] && members[2..][1..] == members[3..] && members[3..][1..] == [];
    assert BytesOfMembers(members[3..]) == BytesOfMember(members[3]);
    assert BytesOfMembers(members[2..]) == BytesOfMember(members[2]) + BytesOfMembers(members[3..]);
  }

  /** A member ahead of others, under a key none of them has. */
  lemma AheadNamedOnce(member: Member, rest: seq<Member>)
    requires MemberNamedOnce(member) && MembersNamedOnce(rest) && !HasKey(rest, member.key)
    ensures MembersNamedOnce([member] + rest)
    ensures forall key :: HasKey([member] + rest, key) <==> key == member.key || HasKey(rest, key)
  {
    assert ([member] + rest)[1..] == rest;
  }

  lemma FourNamedOnce(members: seq<Member>)
    requires |members| == 4 && MemberNamedOnce(members[0]) && MemberNamedOnce(members[1])
    requires MemberNamedOnce(members[2]) && MemberNamedOnce(members[3])
    requires members[0].key !in [members[1].key, members[2].key, members[3].key]
    requires members[1].key !in [members[2].key, members[3].key] && members[2].key != members[3].key
    ensures MembersNamedOnce(members)
  {
    assert members[0].key != members[1].key && members[0].key != members[2].key && members[0].key != members[3].key;
    AheadNamedOnce(members[3], []);
    AheadNamedOnce(members[2], [members[3]] + []);
    AheadNamedOnce(members[1], [members[2]] + ([members[3]] + []));
    AheadNamedOnce(members[0], [members[1]] + ([members[2]] + ([members[3]] + [])));
    assert members == [members[0]] + ([members[1]] + ([members[2]] + ([members[3]] + [])));
  }

  lemma EnvelopeNamedOnce(id: string, params: Json)
    requires NamedOnce(params)
    ensures NamedOnce(Envelope(id, params))
  {
    assert "jsonrpc"[0] == 'j' && "id"[0] == 'i' && "method"[0] == 'm' && "params"[0] == 'p';
    FourNamedOnce(Envelope(id, params).members);
  }

  lemma ParamsNamedOnce(session: string, blocks: seq<Json>)
    requires ItemsNamedOnce(blocks)
    ensures NamedOnce(PromptParams(session, blocks))
  {
    var members := PromptParams(session, blocks).members;
    assert "prompt"[0] == 'p' && "sessionId"[0] == 's';
    AheadNamedOnce(members[1], []);
    AheadNamedOnce(members[0], [members[1]] + []);
    assert members == [members[0]] + ([members[1]] + []);
  }

  lemma ShortestIdBytes()
    ensures EscapedBytes(SHORTEST_REQUEST_ID) == 1
  {
    assert EscapeAll("1") == Escape('1') + EscapeAll("1"[1..]);
    assert Escape('1') + [] == "1";
  }

  lemma {:induction false} EscapedIsNoShorter(text: string)
    ensures EscapedBytes(text) >= |text|
  {
    if text != [] {
      Utf8Concat(Escape(text[0]), EscapeAll(text[1..]));
      EscapedIsNoShorter(text[1..]);
    }
  }

  /** What is counted before the frame is written. */
  function CountedBytes(session: string, blocks: seq<Json>): int {
    Utf8Length(Write(AsValue(Envelope(SHORTEST_REQUEST_ID, AsValue(PromptParams(session, []))))))
    - 2 + Utf8Length(Write(Arr(blocks)))
  }

  /**
    For every session, list of blocks and request id, the frame is the count plus what the id takes beyond one
    byte, whatever order the writer keeps members in.
  */
  lemma FrameIsTheCountPlusTheId(id: string, session: string, blocks: seq<Json>)
    requires ItemsNamedOnce(blocks)
    ensures FrameBytes(id, session, blocks) == CountedBytes(session, blocks) + EscapedBytes(id) - 1
  {
    var empty := AsValue(PromptParams(session, []));
    ParamsNamedOnce(session, blocks);
    ParamsNamedOnce(session, []);
    EnvelopeNamedOnce(id, PromptParams(session, blocks));
    WrittenBytes(AsValue(Envelope(id, PromptParams(session, blocks))));
    ValueBytes(Envelope(id, PromptParams(session, blocks)));
    EnvelopeBytes(id, PromptParams(session, blocks));
    ParamsBytes(session, blocks);
    ValueBytes(PromptParams(session, []));
    EnvelopeNamedOnce(SHORTEST_REQUEST_ID, empty);
    WrittenBytes(AsValue(Envelope(SHORTEST_REQUEST_ID, empty)));
    ValueBytes(Envelope(SHORTEST_REQUEST_ID, empty));
    EnvelopeBytes(SHORTEST_REQUEST_ID, empty);
    WrittenBytes(Arr(blocks));
    ShortestIdBytes();
  }

  /** A prompt is refused exactly when no frame for it fits the budget, whatever id it would be given. */
  lemma RefusedOnlyWhenNoFrameFits(session: string, blocks: seq<Json>, budget: nat)
    requires ItemsNamedOnce(blocks)
    ensures CountedBytes(session, blocks) > budget <==>
      forall id :: id != [] ==> FrameBytes(id, session, blocks) > budget
  {
    ShortestIdBytes();
    FrameIsTheCountPlusTheId(SHORTEST_REQUEST_ID, session, blocks);
    forall id: string | id != []
      ensures FrameBytes(id, session, blocks) >= CountedBytes(session, blocks)
    {
      FrameIsTheCountPlusTheId(id, session, blocks);
      EscapedIsNoShorter(id);
    }
    if forall id :: id != [] ==> FrameBytes(id, session, blocks) > budget {
      assert FrameBytes(SHORTEST_REQUEST_ID, session, blocks) > budget;
    }
  }

  // The count as the source takes it.

  /** The largest byte count an address can hold. */
  const USIZE_MAX := 0xFFFF_FFFF_FFFF_FFFF

  function SaturatingCount(bytes: nat, more: nat): nat {
    if bytes + more <= USIZE_MAX then bytes + more else USIZE_MAX
  }

  /** A writer that counts what it is given and keeps none of it. */
  class ByteCounter {
    var bytes: nat

    constructor ()
      ensures bytes == 0
    {
      bytes := 0;
    }

    method Write(buffer: string)
      modifies this
      ensures bytes == SaturatingCount(old(bytes), Utf8Length(buffer))
    {
      bytes := SaturatingCount(bytes, Utf8Length(buffer));
    }

    /** Serialises into this writer, piece by piece, in the order a structure lists its members. */
    method Serialise(json: Json)
      modifies this
      ensures bytes == SaturatingCount(old(bytes), Bytes(json))
      decreases json, 1
    {
      match json {
        case Null => NullBytes(); Write("null");
        case Literal(text) => Write(text);
        case Str(text) => WriteString(text);
        case Arr(items) =>
          Write("[");
          SerialiseItems(items);
          Write("]");
        case Obj(members) =>
          Write("{");
          SerialiseMembers(members);
          Write("}");
      }
    }

    method WriteString(text: string)
      modifies this
      ensures bytes == SaturatingCount(old(bytes), 2 + EscapedBytes(text))
    {
      Write("\"");
      var k := 0;
      while k < |text|
        invariant 0 <= k <= |text|
        invariant SaturatingCount(bytes, EscapedBytes(text[k..])) == SaturatingCount(old(bytes), 1 + EscapedBytes(text))
        invariant bytes <= USIZE_MAX || bytes == old(bytes)
      {
        assert text[k..][1..] == text[k + 1..];
        Utf8Concat(Escape(text[k]), EscapeAll(text[k + 1..]));
        Write(Escape(text[k]));
        k := k + 1;
      }
      Write("\"");
    }

    method SerialiseItems(items: seq<Json>)
      modifies this
      ensures bytes == SaturatingCount(old(bytes), BytesOfItems(items) + Commas(|items|))
      decreases items, 0
    {
      if items == [] {
        bytes := SaturatingCount(bytes, 0);
        return;
      }
      Serialise(items[0]);
      if |items| > 1 {
        Write(",");
      }
      SerialiseItems(items[1..]);
    }

    method SerialiseMembers(members: seq<Member>)
      modifies this
      ensures bytes == SaturatingCount(old(bytes), BytesOfMembers(members) + Commas(|members|))
      decreases members, 0
    {
      if members == [] {
        bytes := SaturatingCount(bytes, 0);
        return;
      }
      WriteString(members[0].key);
      Write(":");
      Serialise(members[0].value);
      if |members| > 1 {
        Write(",");
      }
      SerialiseMembers(members[1..]);
    }
  }

  /** The byte length of the smallest frame the connection can write for these blocks. */
  method PromptFrameBytes(session: string, blocks: seq<Json>) returns (count: nat)
    requires ItemsNamedOnce(blocks) && Bytes(Arr(blocks)) <= USIZE_MAX
    ensures count == FrameBytes(SHORTEST_REQUEST_ID, session, blocks)
  {
    var params := AsValue(PromptParams(session, []));
    var envelope := Utf8Length(Write(AsValue(Envelope(SHORTEST_REQUEST_ID, params))));
    var counter := new ByteCounter();
    counter.Serialise(Arr(blocks));
    FrameIsTheCountPlusTheId(SHORTEST_REQUEST_ID, session, blocks);
    WrittenBytes(Arr(blocks));
    ShortestIdBytes();
    count := envelope - 2 + counter.bytes;
  }

  /** Refuses a prompt before anything is sent, exactly when no frame for it could fit. */
  method RefuseOversizedPrompt(session: string, blocks: seq<Json>, budget: nat) returns (refused: bool)
    requires ItemsNamedOnce(blocks) && Bytes(Arr(blocks)) <= USIZE_MAX
    ensures refused <==> forall id :: id != [] ==> FrameBytes(id, session, blocks) > budget
  {
    var count := PromptFrameBytes(session, blocks);
    FrameIsTheCountPlusTheId(SHORTEST_REQUEST_ID, session, blocks);
    ShortestIdBytes();
    RefusedOnlyWhenNoFrameFits(session, blocks, budget);
    refused := count > budget;
  }
}
