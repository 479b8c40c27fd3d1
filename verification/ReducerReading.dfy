/**
  What a host is shown, told from the frames alone: a call's row says what the agent last said of that call, the
  plan's row what the last plan said, and the texts are the agent's texts.

  Nothing here uses the functions the reducer reads a frame with. What was sent for a call is listed as
  statements, and what a collection of blocks says is told by where its blocks stand.
*/
module ReducerReading {
  import opened Prelude
  import opened Events
  import opened HeldMerge
  import opened ReducerSpec
  import opened Coalescing
  import Bracketing

  // What was sent for a call.

  /** One frame on a call. A collection the frame is silent about is `None`, an explicit empty one is empty. */
  datatype Statement = Statement(title: Option<string>, content: Option<seq<Block>>, status: Option<ToolStatus>)

  /** The call a frame is on, as the host knows it. */
  predicate IsOn(frame: Frame, id: string) {
    (frame.ToolCallFrame? || frame.ToolCallUpdateFrame?) && ClearOfPlan(frame.id) == id
  }

  /** The first frame on a call announces it: what it is silent about is left out, and a title is found for it. */
  function Announcement(frame: Frame): Statement
    requires frame.ToolCallFrame? || frame.ToolCallUpdateFrame?
  {
    match frame
    case ToolCallFrame(_, call) => Statement(Some(call.title), Some(call.content), Some(call.status))
    case ToolCallUpdateFrame(_, fields) =>
      var titled := fields.title.Some? && exists c <- fields.title.value :: c !in BLANKS;
      Statement(
        Some(if titled then fields.title.value else "tool"),
        if fields.content.Some? then fields.content else Some([]),
        fields.status)
  }

  /** A later one revises it. A `tool_call` cannot tell an empty collection from none, and so says nothing by it. */
  function Revision(frame: Frame): Statement
    requires frame.ToolCallFrame? || frame.ToolCallUpdateFrame?
  {
    match frame
    case ToolCallFrame(_, call) =>
      Statement(Some(call.title), if |call.content| == 0 then None else Some(call.content), Some(call.status))
    case ToolCallUpdateFrame(_, fields) => Statement(fields.title, fields.content, fields.status)
  }

  function OutcomeOf(status: Option<ToolStatus>): Option<Outcome> {
    if status == Some(Completed) then Some(Succeeded)
    else if status == Some(Faulted) then Some(Failed)
    else None
  }

  /** The last frame that counts: it ends its call, or its call has an id no host is ever told of. */
  predicate Ending(core: Core, id: string, statement: Statement) {
    OutcomeOf(statement.status).Some? || !core.publishes(id)
  }

  /** The statements on a call, up to the one that ends it. */
  function Statements(core: Core, inputs: seq<Input>, id: string): (statements: seq<Statement>)
    ensures statements != [] ==> statements[0].title.Some? && statements[0].content.Some?
  {
    if inputs == [] then []
    else
      var earlier := Statements(core, inputs[..|inputs| - 1], id);
      var frame := inputs[|inputs| - 1].frame;
      if !IsOn(frame, id) then earlier
      else if earlier == [] then [Announcement(frame)]
      else if Ending(core, id, earlier[|earlier| - 1]) then earlier
      else earlier + [Revision(frame)]
  }

  /** The last statement before the end that gives the call a title: an end has no place for one. */
  function LastTitle(statements: seq<Statement>): (k: nat)
    requires statements != [] && statements[0].title.Some?
    ensures k < |statements| && statements[k].title.Some? && (k > 0 ==> OutcomeOf(statements[k].status).None?)
    ensures forall j :: k < j < |statements| ==> statements[j].title.None? || OutcomeOf(statements[j].status).Some?
  {
    var n := |statements| - 1;
    if n == 0 || (statements[n].title.Some? && OutcomeOf(statements[n].status).None?) then n
    else LastTitle(statements[..n])
  }

  /** The last statement with a content collection. */
  function LastContent(statements: seq<Statement>): (k: nat)
    requires statements != [] && statements[0].content.Some?
    ensures k < |statements| && statements[k].content.Some?
    ensures forall j :: k < j < |statements| ==> statements[j].content.None?
  {
    var n := |statements| - 1;
    if n == 0 || statements[n].content.Some? then n else LastContent(statements[..n])
  }

  // What a collection says.

  predicate FirstTextAt(blocks: seq<Block>, i: nat) {
    i < |blocks| && blocks[i].TextBlock? && forall j :: 0 <= j < i ==> !blocks[j].TextBlock?
  }

  predicate FirstDiffAt(blocks: seq<Block>, i: nat) {
    i < |blocks| && blocks[i].DiffBlock? && forall j :: 0 <= j < i ==> !blocks[j].DiffBlock?
  }

  predicate FirstTerminalAt(blocks: seq<Block>, i: nat) {
    i < |blocks| && blocks[i].TerminalBlock? && forall j :: 0 <= j < i ==> !blocks[j].TerminalBlock?
  }

  predicate NoText(blocks: seq<Block>) {
    forall block <- blocks :: !block.TextBlock?
  }

  predicate NoDiff(blocks: seq<Block>) {
    forall block <- blocks :: !block.DiffBlock?
  }

  predicate NoTerminal(blocks: seq<Block>) {
    forall block <- blocks :: !block.TerminalBlock?
  }

  /** The detail line of a collection: its first text, else the first diff's path, else the first terminal. */
  ghost predicate DetailOf(blocks: seq<Block>, detail: Option<string>) {
    if !NoText(blocks) then exists i: nat :: FirstTextAt(blocks, i) && detail == Some(blocks[i].text)
    else if !NoDiff(blocks) then exists i: nat :: FirstDiffAt(blocks, i) && detail == Some(blocks[i].path)
    else if !NoTerminal(blocks) then exists i: nat :: FirstTerminalAt(blocks, i) && detail == Some(blocks[i].terminal)
    else detail == None
  }

  /** The diffs of a collection are at exactly these places, in order. */
  ghost predicate DiffsAt(blocks: seq<Block>, places: seq<nat>) {
    && (forall i <- places :: i < |blocks| && blocks[i].DiffBlock?)
    && Rising(places)
    && (forall i :: 0 <= i < |blocks| && blocks[i].DiffBlock? ==> i in places)
  }

  ghost predicate Rising(places: seq<nat>) {
    forall j, k :: 0 <= j < k < |places| ==> places[j] < places[k]
  }

  function RowOf(block: Block): FileChange
    requires block.DiffBlock?
  {
    FileChange(block.path, None, None, block.oldText, Some(block.newText))
  }

  /** One row for each diff, in order, with the diff's path and its two texts. */
  ghost predicate RowsOf(blocks: seq<Block>, places: seq<nat>, files: seq<FileChange>) {
    && DiffsAt(blocks, places)
    && |files| == |places|
    && forall k :: 0 <= k < |places| ==> places[k] in places && files[k] == RowOf(blocks[places[k]])
  }

  /** The content of a collection: the rows of its diffs if it has any, else its first text. */
  ghost predicate ContentOf(blocks: seq<Block>, content: Option<Content>) {
    if !NoDiff(blocks) then content.Some? && content.value.Diff? && exists at :: RowsOf(blocks, at, content.value.files)
    else if !NoText(blocks) then exists i: nat :: FirstTextAt(blocks, i) && content == Some(Output(blocks[i].text))
    else content == None
  }

  /** A row's detail, as published: nothing when an announcement says nothing, cleared when a revision does. */
  ghost predicate DetailShown(core: Core, blocks: seq<Block>, announced: bool, shown: Option<string>) {
    exists detail :: DetailOf(blocks, detail) && shown ==
      if detail.Some? then Some(core.detail(detail.value).value)
      else if announced then None
      else Some(core.detail("").value)
  }

  ghost predicate ContentShown(core: Core, blocks: seq<Block>, announced: bool, shown: Option<Content>) {
    exists content :: ContentOf(blocks, content) && shown ==
      if content.Some? then Some(core.content(content.value).value)
      else if announced then None
      else Some(core.content(Empty).value)
  }

  /** The row says what the statements say. */
  ghost predicate Reads(core: Core, statements: seq<Statement>, row: Row)
    requires statements != [] && statements[0].title.Some? && statements[0].content.Some?
  {
    var k := LastContent(statements);
    && row.title == core.title(statements[LastTitle(statements)].title.value).value
    && DetailShown(core, statements[k].content.value, k == 0, row.detail)
    && ContentShown(core, statements[k].content.value, k == 0, row.content)
    && row.outcome == OutcomeOf(statements[|statements| - 1].status)
  }

  // The reducer's own reading of a collection is this one.

  lemma {:induction false} FirstTextStands(blocks: seq<Block>)
    ensures FirstText(blocks).None? <==> NoText(blocks)
    ensures FirstText(blocks).Some? ==>
      exists i: nat :: FirstTextAt(blocks, i) && FirstText(blocks).value == blocks[i].text
  {
    if blocks != [] {
      if blocks[0].TextBlock? {
        assert FirstTextAt(blocks, 0);
      } else {
        FirstTextStands(blocks[1..]);
        if FirstText(blocks).Some? {
          var i: nat :| FirstTextAt(blocks[1..], i) && FirstText(blocks[1..]).value == blocks[1..][i].text;
          assert FirstTextAt(blocks, i + 1);
        }
      }
    }
  }

  lemma {:induction false} FirstDiffStands(blocks: seq<Block>)
    ensures FirstDiffPath(blocks).None? <==> NoDiff(blocks)
    ensures FirstDiffPath(blocks).Some? ==>
      exists i: nat :: FirstDiffAt(blocks, i) && FirstDiffPath(blocks).value == blocks[i].path
  {
    if blocks != [] {
      if blocks[0].DiffBlock? {
        assert FirstDiffAt(blocks, 0);
      } else {
        FirstDiffStands(blocks[1..]);
        if FirstDiffPath(blocks).Some? {
          var i: nat :| FirstDiffAt(blocks[1..], i) && FirstDiffPath(blocks[1..]).value == blocks[1..][i].path;
          assert FirstDiffAt(blocks, i + 1);
        }
      }
    }
  }

  lemma {:induction false} FirstTerminalStands(blocks: seq<Block>)
    ensures FirstTerminal(blocks).None? <==> NoTerminal(blocks)
    ensures FirstTerminal(blocks).Some? ==>
      exists i: nat :: FirstTerminalAt(blocks, i) && FirstTerminal(blocks).value == blocks[i].terminal
  {
    if blocks != [] {
      if blocks[0].TerminalBlock? {
        assert FirstTerminalAt(blocks, 0);
      } else {
        FirstTerminalStands(blocks[1..]);
        if FirstTerminal(blocks).Some? {
          var i: nat :| FirstTerminalAt(blocks[1..], i) && FirstTerminal(blocks[1..]).value == blocks[1..][i].terminal;
          assert FirstTerminalAt(blocks, i + 1);
        }
      }
    }
  }

  lemma DetailIsRead(blocks: seq<Block>)
    ensures DetailOf(blocks, ContentDetail(blocks))
  {
    FirstTextStands(blocks);
    FirstDiffStands(blocks);
    FirstTerminalStands(blocks);
  }

  /** The places of the diffs in a longer collection. */
  lemma PlacesBehind(first: Block, blocks: seq<Block>, places: seq<nat>, moved: seq<nat>)
    requires DiffsAt(blocks, places) && |moved| == |places|
    requires forall k :: 0 <= k < |places| ==> moved[k] == places[k] + 1
    ensures first.DiffBlock? ==> DiffsAt([first] + blocks, [0] + moved)
    ensures !first.DiffBlock? ==> DiffsAt([first] + blocks, moved)
  {
    var more := [first] + blocks;
    MovedRise(places, moved);
    forall i | i in moved
      ensures 0 < i < |more| && more[i].DiffBlock?
    {
      var k :| 0 <= k < |moved| && moved[k] == i;
      assert places[k] in places && more[i] == blocks[i - 1];
    }
    forall i | 1 <= i < |more| && more[i].DiffBlock?
      ensures i in moved
    {
      assert more[i] == blocks[i - 1];
      var k :| 0 <= k < |places| && places[k] == i - 1;
      assert moved[k] == i;
    }
  }

  lemma MovedRise(places: seq<nat>, moved: seq<nat>)
    requires Rising(places) && |moved| == |places|
    requires forall k :: 0 <= k < |places| ==> moved[k] == places[k] + 1
    ensures Rising(moved) && Rising([0] + moved)
  {
  }

  lemma RowsBehind(first: Block, blocks: seq<Block>, places: seq<nat>, moved: seq<nat>, files: seq<FileChange>)
    requires RowsOf(blocks, places, files) && |moved| == |places|
    requires forall k :: 0 <= k < |places| ==> moved[k] == places[k] + 1
    ensures first.DiffBlock? ==> RowsOf([first] + blocks, [0] + moved, [RowOf(first)] + files)
    ensures !first.DiffBlock? ==> RowsOf([first] + blocks, moved, files)
  {
    PlacesBehind(first, blocks, places, moved);
    assert forall k :: 0 <= k < |places| ==> ([first] + blocks)[moved[k]] == blocks[places[k]];
  }

  lemma {:induction false} DiffRowsStand(blocks: seq<Block>) returns (places: seq<nat>)
    ensures RowsOf(blocks, places, DiffRows(blocks))
  {
    if blocks == [] {
      places := [];
    } else {
      var later := DiffRowsStand(blocks[1..]);
      var moved := seq(|later|, k requires 0 <= k < |later| => later[k] + 1);
      RowsBehind(blocks[0], blocks[1..], later, moved, DiffRows(blocks[1..]));
      places := if blocks[0].DiffBlock? then [0] + moved else moved;
      assert [blocks[0]] + blocks[1..] == blocks;
      assert !blocks[0].DiffBlock? ==> DiffRows(blocks) == DiffRows(blocks[1..]);
    }
  }

  lemma {:induction false} DiffRowsAreNone(blocks: seq<Block>)
    ensures DiffRows(blocks) == [] <==> NoDiff(blocks)
  {
    if blocks != [] {
      DiffRowsAreNone(blocks[1..]);
      assert blocks == [blocks[0]] + blocks[1..];
    }
  }

  lemma ContentIsRead(blocks: seq<Block>)
    ensures ContentOf(blocks, ToolCallContent(blocks))
  {
    var places := DiffRowsStand(blocks);
    DiffRowsAreNone(blocks);
    FirstTextStands(blocks);
  }

  // One more statement.

  /** What an update says of detail and content is what its collection says. */
  lemma AnnouncedContentReads(core: Core, blocks: seq<Block>)
    ensures DetailShown(core, blocks, true, Shown(core.detail, ContentDetail(blocks)))
    ensures ContentShown(core, blocks, true, Shown(core.content, ToolCallContent(blocks)))
  {
    DetailIsRead(blocks);
    ContentIsRead(blocks);
  }

  lemma RevisedContentReads(core: Core, blocks: seq<Block>)
    ensures DetailShown(core, blocks, false, Some(core.detail(ContentDetail(blocks).GetOr("")).value))
    ensures ContentShown(core, blocks, false, Some(core.content(ToolCallContent(blocks).GetOr(Empty)).value))
  {
    DetailIsRead(blocks);
    ContentIsRead(blocks);
  }

  /** The row of a call that was just announced. */
  lemma AnnouncementReads(core: Core, frame: Frame, call: ToolCall)
    requires frame.ToolCallFrame? || frame.ToolCallUpdateFrame?
    requires call == if frame.ToolCallFrame? then frame.call else FirstSighting(frame.fields)
    ensures Reads(core, [Announcement(frame)], AnnouncedRow(core, call))
  {
    var statement := Announcement(frame);
    AnnouncementSays(frame, call);
    AnnouncedContentReads(core, statement.content.value);
    AnnouncedOutcome(core, frame, call);
    assert LastContent([statement]) == 0 == LastTitle([statement]);
  }

  lemma AnnouncementSays(frame: Frame, call: ToolCall)
    requires frame.ToolCallFrame? || frame.ToolCallUpdateFrame?
    requires call == if frame.ToolCallFrame? then frame.call else FirstSighting(frame.fields)
    ensures Announcement(frame).title == Some(call.title) && Announcement(frame).content == Some(call.content)
  {
  }

  lemma AnnouncedOutcome(core: Core, frame: Frame, call: ToolCall)
    requires frame.ToolCallFrame? || frame.ToolCallUpdateFrame?
    requires call == if frame.ToolCallFrame? then frame.call else FirstSighting(frame.fields)
    ensures Finished(call.status) == OutcomeOf(Announcement(frame).status)
  {
  }

  /** What the row of a running call becomes when a frame revises it. */
  function Revised(core: Core, row: Row, fields: ToolCallFields): Row {
    match UpdateMeaning(fields)
    case Ends(result) => Ended(core, row, result)
    case Says(update) => Overlay(core, row, update)
  }

  /** One more statement, field by field. */
  lemma OneMore(statements: seq<Statement>, next: Statement)
    requires statements != [] && statements[0].title.Some? && statements[0].content.Some?
    ensures var more := statements + [next];
      && LastTitle(more) == (if next.title.Some? && OutcomeOf(next.status).None? then |statements|
                             else LastTitle(statements))
      && LastContent(more) == if next.content.Some? then |statements| else LastContent(statements)
  {
    var more := statements + [next];
    assert more[..|more| - 1] == statements;
  }

  lemma RevisionSays(core: Core, row: Row, frame: Frame, fields: ToolCallFields)
    requires frame.ToolCallFrame? || frame.ToolCallUpdateFrame?
    requires fields == if frame.ToolCallFrame? then RepeatFields(frame.call) else frame.fields
    requires row.outcome.None?
    ensures var next := Revision(frame);
      var revised := Revised(core, row, fields);
      && revised.outcome == OutcomeOf(next.status)
      && revised.title == (if next.title.Some? && OutcomeOf(next.status).None? then core.title(next.title.value).value
                           else row.title)
  {
  }

  lemma RevisionShows(core: Core, row: Row, frame: Frame, fields: ToolCallFields)
    requires frame.ToolCallFrame? || frame.ToolCallUpdateFrame?
    requires fields == if frame.ToolCallFrame? then RepeatFields(frame.call) else frame.fields
    ensures var content := Revision(frame).content;
      var revised := Revised(core, row, fields);
      if content.None? then revised.detail == row.detail && revised.content == row.content
      else DetailShown(core, content.value, false, revised.detail)
           && ContentShown(core, content.value, false, revised.content)
  {
    assert Revision(frame).content == fields.content;
    if fields.content.Some? {
      RevisedContentReads(core, fields.content.value);
    }
  }

  lemma RevisionReads(core: Core, statements: seq<Statement>, row: Row, frame: Frame, fields: ToolCallFields)
    requires statements != [] && statements[0].title.Some? && statements[0].content.Some?
    requires Reads(core, statements, row) && row.outcome.None?
    requires frame.ToolCallFrame? || frame.ToolCallUpdateFrame?
    requires fields == if frame.ToolCallFrame? then RepeatFields(frame.call) else frame.fields
    ensures Reads(core, statements + [Revision(frame)], Revised(core, row, fields))
  {
    OneMore(statements, Revision(frame));
    RevisionSays(core, row, frame, fields);
    RevisionShows(core, row, frame, fields);
  }

  // One frame, with no interval.

  /** What is known of one call while frames arrive: its row says what the statements say. */
  ghost predicate Heard(core: Core, s: State, shown: View, statements: seq<Statement>, id: string) {
    && (id in s.openCalls ==> id in shown && s.openCalls[id].held.None?)
    && (statements == [] ==> id !in shown)
    && (statements != [] ==>
          && statements[0].title.Some? && statements[0].content.Some?
          && (id in shown ==> Reads(core, statements, shown[id]))
          && (id !in s.openCalls ==> IsFinished(core, s, id))
          && (id in shown ==> (id in s.openCalls <==> !Ending(core, id, statements[|statements| - 1]))))
  }

  /** The statements once one more frame arrived. */
  function More(core: Core, statements: seq<Statement>, frame: Frame, id: string): seq<Statement> {
    if !IsOn(frame, id) then statements
    else if statements == [] then [Announcement(frame)]
    else if Ending(core, id, statements[|statements| - 1]) then statements
    else statements + [Revision(frame)]
  }

  lemma AnnouncedIsHeard(
    core: Core, s: State, shown: View, statements: seq<Statement>, frame: Frame, call: ToolCall, id: string)
    requires Heard(core, s, shown, statements, id) && IsOn(frame, id) && id !in s.openCalls
    requires call == if frame.ToolCallFrame? then frame.call else FirstSighting(frame.fields)
    ensures var r := Announce(core, s, id, call);
      Heard(core, r.state, ShowAll(core, shown, r.events), More(core, statements, frame, id), id)
  {
    if IsFinished(core, s, id) {
      if statements != [] {
        StillReads(core, s, shown, statements, frame, id);
      }
    } else {
      AnnouncedShows(core, shown, id, call);
      AnnouncementReads(core, frame, call);
      AnnouncedOutcome(core, frame, call);
    }
  }

  /** A frame on a call that ended, or was never announced, adds nothing to read. */
  lemma StillReads(core: Core, s: State, shown: View, statements: seq<Statement>, frame: Frame, id: string)
    requires Heard(core, s, shown, statements, id) && IsOn(frame, id) && id !in s.openCalls && statements != []
    ensures Heard(core, s, shown, More(core, statements, frame, id), id)
  {
  }

  lemma RevisedIsHeard(
    core: Core, now: nat, s: State, shown: View, statements: seq<Statement>, frame: Frame, fields: ToolCallFields,
    id: string)
    requires Heard(core, s, shown, statements, id) && IsOn(frame, id) && id in s.openCalls
    requires fields == if frame.ToolCallFrame? then RepeatFields(frame.call) else frame.fields
    ensures var r := ReviseOpen(core, Policy(0, true), s, id, fields, now);
      Heard(core, r.state, ShowAll(core, shown, r.events), More(core, statements, frame, id), id)
  {
    RevisionReads(core, statements, shown[id], frame, fields);
    RevisionSays(core, shown[id], frame, fields);
    RevisedShows(core, now, s, shown, id, fields);
  }

  lemma NothingSaidShows(core: Core, now: nat, s: State, row: Row, id: string, fields: ToolCallFields)
    requires id in s.openCalls && UpdateMeaning(fields).Says? && UpdateMeaning(fields).update.IsEmpty()
    ensures Revised(core, row, fields) == row
    ensures ReviseOpen(core, Policy(0, true), s, id, fields, now) == Reduction(s, [])
  {
    OverlayNothing(core, row, UpdateMeaning(fields).update);
  }

  lemma {:induction false} EndShows(core: Core, now: nat, s: State, shown: View, id: string, fields: ToolCallFields)
    requires id in s.openCalls && id in shown && s.openCalls[id].held.None? && UpdateMeaning(fields).Ends?
    ensures var r := ReviseOpen(core, Policy(0, true), s, id, fields, now);
      && ShowAll(core, shown, r.events) == shown[id := Revised(core, shown[id], fields)]
      && id !in r.state.openCalls && IsFinished(core, r.state, id)
    ensures Revised(core, shown[id], fields).outcome.Some?
  {
    LastWordsShow(core, s, shown, id, UpdateMeaning(fields).result);
    assert WithHeld(core, s, shown, id) == shown[id];
    assert Revised(core, shown[id], fields) == Ended(core, shown[id], UpdateMeaning(fields).result);
  }

  /** With no interval the host's row becomes the revised one, and the call goes on unless that is over. */
  lemma {:induction false} RevisedShows(core: Core, now: nat, s: State, shown: View, id: string, fields: ToolCallFields)
    requires id in s.openCalls && id in shown && s.openCalls[id].held.None? && shown[id].outcome.None?
    ensures var r := ReviseOpen(core, Policy(0, true), s, id, fields, now);
      && ShowAll(core, shown, r.events) == shown[id := Revised(core, shown[id], fields)]
      && (id in r.state.openCalls <==> Revised(core, shown[id], fields).outcome.None?)
      && (id in r.state.openCalls ==> r.state.openCalls[id].held.None?)
      && (id !in r.state.openCalls ==> IsFinished(core, r.state, id))
  {
    var meaning := UpdateMeaning(fields);
    if meaning.Ends? {
      EndShows(core, now, s, shown, id, fields);
    } else if meaning.update.IsEmpty() {
      NothingSaidShows(core, now, s, shown[id], id, fields);
      assert shown[id := shown[id]] == shown;
    } else {
      SentAtOnce(core, s, shown, id, meaning.update, now);
    }
  }

  predicate About(event: Event, id: string) {
    (event.ActivityStarted? || event.ActivityUpdated? || event.ActivityCompleted?) && event.id == id
  }

  lemma {:induction false} OthersShowNothing(core: Core, view: View, events: seq<Event>, id: string)
    requires forall event <- events :: !About(event, id)
    ensures id in ShowAll(core, view, events) <==> id in view
    ensures id in view ==> ShowAll(core, view, events)[id] == view[id]
  {
    if |events| > 0 {
      assert !About(events[|events| - 1], id);
      OthersShowNothing(core, view, events[..|events| - 1], id);
    }
  }

  /** A frame on something else leaves the call and its row as they were. */
  ghost predicate Apart(s: State, r: Reduction, id: string) {
    && (forall event <- r.events :: !About(event, id))
    && (id in r.state.openCalls <==> id in s.openCalls)
    && (id in s.openCalls ==> r.state.openCalls[id] == s.openCalls[id])
    && s.finishedCalls <= r.state.finishedCalls
  }

  lemma OtherRevision(
    core: Core, policy: Policy, s: State, other: string, fields: ToolCallFields, now: nat, id: string)
    requires other in s.openCalls && other != id
    ensures Apart(s, ReviseOpen(core, policy, s, other, fields, now), id)
  {
  }

  lemma OtherAnnouncement(core: Core, s: State, other: string, call: ToolCall, id: string)
    requires other !in s.openCalls && other != id
    ensures Apart(s, Announce(core, s, other, call), id)
  {
  }

  lemma OtherFrame(core: Core, policy: Policy, s: State, frame: Frame, now: nat, id: string)
    requires !IsOn(frame, id) && id != PLAN_CALL_ID
    ensures Apart(s, Body(core, policy, s, frame, now), id)
  {
    if frame.ToolCallFrame? || frame.ToolCallUpdateFrame? {
      var other := ClearOfPlan(frame.id);
      var fields := if frame.ToolCallFrame? then RepeatFields(frame.call) else frame.fields;
      var call := if frame.ToolCallFrame? then frame.call else FirstSighting(frame.fields);
      if other in s.openCalls {
        OtherRevision(core, policy, s, other, fields, now, id);
      } else {
        OtherAnnouncement(core, s, other, call, id);
      }
    }
  }

  lemma BodyIsHeard(
    core: Core, now: nat, s: State, shown: View, statements: seq<Statement>, frame: Frame, id: string)
    requires Heard(core, s, shown, statements, id) && id != PLAN_CALL_ID
    ensures var r := Body(core, Policy(0, true), s, frame, now);
      Heard(core, r.state, ShowAll(core, shown, r.events), More(core, statements, frame, id), id)
  {
    if !IsOn(frame, id) {
      OtherFrame(core, Policy(0, true), s, frame, now, id);
      OthersShowNothing(core, shown, Body(core, Policy(0, true), s, frame, now).events, id);
    } else {
      var fields := if frame.ToolCallFrame? then RepeatFields(frame.call) else frame.fields;
      var call := if frame.ToolCallFrame? then frame.call else FirstSighting(frame.fields);
      if id in s.openCalls {
        RevisedIsHeard(core, now, s, shown, statements, frame, fields, id);
      } else {
        AnnouncedIsHeard(core, s, shown, statements, frame, call, id);
      }
    }
  }

  lemma ReduceIsHeard(
    core: Core, now: nat, s: State, shown: View, statements: seq<Statement>, frame: Frame, id: string)
    requires Heard(core, s, shown, statements, id) && id != PLAN_CALL_ID
    ensures var r := Reduce(core, Policy(0, true), s, frame, now);
      Heard(core, r.state, ShowAll(core, shown, r.events), More(core, statements, frame, id), id)
  {
    var first := if Transcript(frame) then CloseReasoning(s) else Reduction(s, []);
    QuietIsHeard(core, s, first.state, shown, statements, id);
    BodyIsHeard(core, now, first.state, shown, statements, frame, id);
    SilentShows(core, shown, first.events);
    ShowAllConcat(core, shown, first.events, Body(core, Policy(0, true), first.state, frame, now).events);
  }

  lemma QuietIsHeard(core: Core, s: State, quiet: State, shown: View, statements: seq<Statement>, id: string)
    requires Heard(core, s, shown, statements, id)
    requires quiet.openCalls == s.openCalls && quiet.finishedCalls == s.finishedCalls
    ensures Heard(core, quiet, shown, statements, id)
  {
  }

  lemma {:induction false} RunIsHeard(core: Core, inputs: seq<Input>, id: string)
    requires id != PLAN_CALL_ID
    ensures var run := Run(core, Policy(0, true), inputs);
      Heard(core, run.state, ShowAll(core, map[], run.events), Statements(core, inputs, id), id)
  {
    if inputs != [] {
      var n := |inputs| - 1;
      RunIsHeard(core, inputs[..n], id);
      var run := Run(core, Policy(0, true), inputs[..n]);
      var step := Reduce(core, Policy(0, true), run.state, inputs[n].frame, inputs[n].now);
      ReduceIsHeard(core, inputs[n].now, run.state, ShowAll(core, map[], run.events),
        Statements(core, inputs[..n], id), inputs[n].frame, id);
      ShowAllConcat(core, map[], run.events, step.events);
    }
  }

  // Every run.

  /** A call the host shows reads, with what is held, as its statements do, and runs until one ends it. */
  ghost predicate RowReads(core: Core, run: Reduction, statements: seq<Statement>, id: string) {
    var shown := ShowAll(core, map[], run.events);
    && id in shown && (forall open <- run.state.openCalls :: open in shown)
    && statements != [] && statements[0].title.Some? && statements[0].content.Some?
    && Reads(core, statements, WithHeld(core, run.state, shown, id))
    && (id in run.state.openCalls <==> !Ending(core, id, statements[|statements| - 1]))
  }

  /** What is read of a host that is sent everything at once is read of the other with what is held. */
  lemma RefinedRowReads(core: Core, c: Reduction, z: Reduction, statements: seq<Statement>, id: string)
    requires Refines(core, c.state, z.state, ShowAll(core, map[], c.events), ShowAll(core, map[], z.events))
    requires Heard(core, z.state, ShowAll(core, map[], z.events), statements, id)
    requires id in ShowAll(core, map[], c.events)
    ensures RowReads(core, c, statements, id)
  {
  }

  lemma RunRowReads(core: Core, interval: nat, inputs: seq<Input>, id: string)
    requires core.Lawful() && id != PLAN_CALL_ID
    requires id in ShowAll(core, map[], Run(core, Policy(interval, true), inputs).events)
    ensures RowReads(core, Run(core, Policy(interval, true), inputs), Statements(core, inputs, id), id)
  {
    CoalescingRefinesImmediate(core, interval, inputs);
    RunIsHeard(core, inputs, id);
    RefinedRowReads(
      core, Run(core, Policy(interval, true), inputs), Run(core, Policy(0, true), inputs),
      Statements(core, inputs, id), id);
  }

  /**
    After every run, whatever the interval and the clock: a call the host shows has, with what is still held laid
    over its row, the title, the detail, the content and the outcome that the frames on it last stated.
  */
  lemma RowsSayWhatWasLastSent(core: Core, interval: nat, inputs: seq<Input>, id: string)
    requires core.Lawful() && id != PLAN_CALL_ID
    requires id in ShowAll(core, map[], Run(core, Policy(interval, true), inputs).events)
    ensures var run := Run(core, Policy(interval, true), inputs);
      var statements := Statements(core, inputs, id);
      && statements != []
      && Reads(core, statements, WithHeld(core, run.state, ShowAll(core, map[], run.events), id))
  {
    RunRowReads(core, interval, inputs, id);
  }

  /** What a finished turn's row says: what was stated, and for a call the agent never ended the turn's outcome. */
  ghost predicate FinishedReads(
    core: Core, shown: View, id: string, statements: seq<Statement>, outcome: Outcome)
  {
    && id in shown && statements != [] && statements[0].title.Some? && statements[0].content.Some?
    && if Ending(core, id, statements[|statements| - 1]) then Reads(core, statements, shown[id])
       else shown[id].outcome == Some(outcome) && Reads(core, statements, shown[id].(outcome := None))
  }

  /** Once the turn is finished nothing is held: the row itself says it. */
  lemma FinishedRowsSayWhatWasLastSent(
    core: Core, interval: nat, inputs: seq<Input>, order: seq<string>, outcome: Outcome, id: string)
    requires core.Lawful() && id != PLAN_CALL_ID
    requires IsOpeningOrder(Run(core, Policy(interval, true), inputs).state.openCalls, order)
    requires id in ShowAll(core, map[], Run(core, Policy(interval, true), inputs).events)
    ensures FinishedReads(
      core, ShowAll(core, map[], Bracketing.Turn(core, Policy(interval, true), inputs, order, outcome)), id,
      Statements(core, inputs, id), outcome)
  {
    RunRowReads(core, interval, inputs, id);
    FinishedRowReads(
      core, Run(core, Policy(interval, true), inputs), Statements(core, inputs, id), order, outcome, id);
  }

  lemma FinishedRowReads(
    core: Core, run: Reduction, statements: seq<Statement>, order: seq<string>, outcome: Outcome, id: string)
    requires id != PLAN_CALL_ID && IsOpeningOrder(run.state.openCalls, order)
    requires RowReads(core, run, statements, id)
    ensures FinishedReads(
      core, ShowAll(core, map[], run.events + FinishInOrder(core, run.state, order, outcome).events), id,
      statements, outcome)
  {
    FinishedRow(core, run, order, outcome, id);
    var row := WithHeld(core, run.state, ShowAll(core, map[], run.events), id);
    assert row.outcome.None? ==> row.(outcome := Some(outcome)).(outcome := None) == row;
  }

  /** What the end of the turn makes of one row: a running call's held merge and the turn's outcome. */
  lemma FinishedRow(core: Core, run: Reduction, order: seq<string>, outcome: Outcome, id: string)
    requires id != PLAN_CALL_ID && IsOpeningOrder(run.state.openCalls, order)
    requires forall open <- run.state.openCalls :: open in ShowAll(core, map[], run.events)
    requires id in ShowAll(core, map[], run.events)
    ensures var before := ShowAll(core, map[], run.events);
      var after := ShowAll(core, map[], run.events + FinishInOrder(core, run.state, order, outcome).events);
      && id in after
      && after[id] == if id in run.state.openCalls
                      then WithHeld(core, run.state, before, id).(outcome := Some(outcome)) else before[id]
  {
    var before := ShowAll(core, map[], run.events);
    Bracketing.OpeningOrderIsDistinct(run.state.openCalls, order);
    ClosingOfCallsShows(core, run.state, before, order, outcome);
    FinishShows(core, run, order, outcome);
    var closed := ShowAll(core, before, ClosingOfCalls(run.state.openCalls, order, outcome));
    OthersShowNothing(core, closed, Bracketing.PlanClosing(run.state), id);
    assert id in order <==> id in run.state.openCalls;
  }

  // The plan.

  /** The entries of the last plan sent. */
  function LastPlan(inputs: seq<Input>): Option<seq<PlanEntry>> {
    if inputs == [] then None
    else
      var frame := inputs[|inputs| - 1].frame;
      if frame.PlanFrame? then Some(frame.entries) else LastPlan(inputs[..|inputs| - 1])
  }

  function Done(entries: seq<PlanEntry>): set<nat> {
    set i | 0 <= i < |entries| && entries[i].status.StepCompleted?
  }

  /** The entry a plan's detail line is taken from: the first one in progress, else the first. */
  predicate CurrentAt(entries: seq<PlanEntry>, i: nat) {
    && i < |entries|
    && (if entries[i].status.StepInProgress?
        then forall j :: 0 <= j < i ==> !entries[j].status.StepInProgress?
        else i == 0 && forall j :: 0 <= j < |entries| ==> !entries[j].status.StepInProgress?)
  }

  /** The row of a plan: how many of its entries are done, the current one, and every entry in order. */
  ghost predicate PlanReads(core: Core, entries: seq<PlanEntry>, row: Row) {
    && row.title == core.title("Plan: " + Decimal(|Done(entries)|) + "/" + Decimal(|entries|) + " done").value
    && (if entries == [] then row.detail == Some(core.detail("").value)
        else exists i: nat :: CurrentAt(entries, i) && row.detail == Some(core.detail(entries[i].content).value))
    && (exists steps: seq<PlanStep> :: StepsOf(entries, steps) && row.content == Some(core.content(Plan(steps)).value))
    && row.outcome.None?
  }

  predicate StepsOf(entries: seq<PlanEntry>, steps: seq<PlanStep>) {
    && |steps| == |entries|
    && forall i :: 0 <= i < |entries| ==>
         && steps[i].title == entries[i].content
         && steps[i].status == entries[i].status
         && steps[i].priority == entries[i].priority
  }

  lemma {:induction false} DoneAreCounted(entries: seq<PlanEntry>)
    ensures CompletedEntries(entries) == |Done(entries)|
  {
    if entries != [] {
      DoneAreCounted(entries[1..]);
      var later := Done(entries[1..]);
      var moved := set i | i in later :: i + 1;
      MovedAreAsMany(later, moved);
      if entries[0].status.StepCompleted? {
        assert Done(entries) == {0} + moved by {
          DoneBehind(entries, moved);
        }
      } else {
        DoneBehind(entries, moved);
        assert Done(entries) == moved;
      }
    }
  }

  lemma DoneBehind(entries: seq<PlanEntry>, moved: set<nat>)
    requires entries != [] && moved == set i | i in Done(entries[1..]) :: i + 1
    ensures forall i: nat :: i > 0 ==> (i in Done(entries) <==> i in moved)
  {
    forall i: nat | i > 0
      ensures i in Done(entries) <==> i in moved
    {
      assert i in Done(entries) ==> i - 1 in Done(entries[1..]);
    }
  }

  lemma {:induction false} MovedAreAsMany(places: set<nat>, moved: set<nat>)
    requires moved == set i | i in places :: i + 1
    ensures |moved| == |places|
  {
    if places != {} {
      var i :| i in places;
      var fewer := set j | j in places - {i} :: j + 1;
      assert forall j <- moved :: j - 1 in places;
      assert forall j <- moved :: j != i + 1 ==> j - 1 in places - {i};
      assert moved == fewer + {i + 1};
      MovedAreAsMany(places - {i}, fewer);
    }
  }

  lemma {:induction false} CurrentStands(entries: seq<PlanEntry>)
    ensures CurrentEntry(entries).None? <==> forall entry <- entries :: !entry.status.StepInProgress?
    ensures CurrentEntry(entries).Some? ==>
      exists i: nat :: i < |entries| && entries[i].status.StepInProgress? && CurrentAt(entries, i)
        && CurrentEntry(entries).value == entries[i].content
  {
    if entries != [] {
      if entries[0].status.StepInProgress? {
        assert CurrentAt(entries, 0);
      } else {
        CurrentStands(entries[1..]);
        if CurrentEntry(entries).Some? {
          var i: nat :| i < |entries[1..]| && entries[1..][i].status.StepInProgress? && CurrentAt(entries[1..], i)
            && CurrentEntry(entries[1..]).value == entries[1..][i].content;
          assert CurrentAt(entries, i + 1);
        }
      }
    }
  }

  lemma PlanIsRead(core: Core, entries: seq<PlanEntry>)
    ensures PlanReads(core, entries, PlanRow(core, entries))
  {
    DoneAreCounted(entries);
    CurrentStands(entries);
    assert StepsOf(entries, PlanContent(entries).steps);
    if entries != [] && CurrentEntry(entries).None? {
      assert CurrentAt(entries, 0);
    }
  }

  /** A frame that is no plan says nothing of the plan. */
  lemma OtherThanPlan(core: Core, policy: Policy, s: State, frame: Frame, now: nat)
    requires !frame.PlanFrame? && PLAN_CALL_ID !in s.openCalls
    ensures var r := Body(core, policy, s, frame, now);
      r.state.planStarted == s.planStarted && forall event <- r.events :: !About(event, PLAN_CALL_ID)
  {
    if frame.ToolCallFrame? || frame.ToolCallUpdateFrame? {
      AgentIdIsNeverThePlan(frame.id);
      var id := ClearOfPlan(frame.id);
      var fields := if frame.ToolCallFrame? then RepeatFields(frame.call) else frame.fields;
      var call := if frame.ToolCallFrame? then frame.call else FirstSighting(frame.fields);
      if id in s.openCalls {
        OtherRevision(core, policy, s, id, fields, now, PLAN_CALL_ID);
      } else {
        OtherAnnouncement(core, s, id, call, PLAN_CALL_ID);
      }
    }
  }

  ghost predicate PlanHeard(core: Core, s: State, shown: View, last: Option<seq<PlanEntry>>) {
    && (s.planStarted <==> last.Some?)
    && (PLAN_CALL_ID in shown <==> last.Some?)
    && (last.Some? ==> PLAN_CALL_ID in shown && PlanReads(core, last.value, shown[PLAN_CALL_ID]))
  }

  function PlanRow(core: Core, entries: seq<PlanEntry>): Row {
    WholeRow(core, PlanTitle(entries), PlanDetail(entries), PlanContent(entries))
  }

  /** Shown whole for the first time, and revised whole, a row is the same. */
  lemma WholeRowShows(core: Core, view: View, id: string, title: string, detail: string, content: Content, name: string)
    ensures Show(core, view, ActivityStarted(id, Activity(name, PlanKind, title, Some(detail), Some(content), None)))
      == view[id := WholeRow(core, title, detail, content)]
    ensures id in view && view[id].outcome.None? ==>
      Show(core, view, ActivityUpdated(id, Update(Some(title), Some(detail), Some(content), false)))
      == view[id := WholeRow(core, title, detail, content)]
  {
  }

  function WholeRow(core: Core, title: string, detail: string, content: Content): Row {
    Row(core.title(title).value, Some(core.detail(detail).value), Some(core.content(content).value), None)
  }

  /** The first plan and every later one show the same row. */
  lemma PlanShows(core: Core, s: State, shown: View, entries: seq<PlanEntry>)
    requires s.planStarted ==> PLAN_CALL_ID in shown && shown[PLAN_CALL_ID].outcome.None?
    ensures ShowAll(core, shown, PlanReduction(s, entries).events) == shown[PLAN_CALL_ID := PlanRow(core, entries)]
  {
    var event := PlanReduction(s, entries).events[0];
    assert PlanReduction(s, entries).events == [event];
    ShowOne(core, shown, event);
    WholeRowShows(
      core, shown, PLAN_CALL_ID, PlanTitle(entries), PlanDetail(entries), PlanContent(entries), "plan");
  }

  lemma PlanFrameIsHeard(core: Core, s: State, shown: View, last: Option<seq<PlanEntry>>, entries: seq<PlanEntry>)
    requires PlanHeard(core, s, shown, last)
    ensures var r := PlanReduction(s, entries);
      PlanHeard(core, r.state, ShowAll(core, shown, r.events), Some(entries))
  {
    PlanIsRead(core, entries);
    PlanShows(core, s, shown, entries);
  }

  lemma QuietIsPlanHeard(core: Core, s: State, quiet: State, shown: View, last: Option<seq<PlanEntry>>)
    requires PlanHeard(core, s, shown, last) && quiet.planStarted == s.planStarted
    ensures PlanHeard(core, quiet, shown, last)
  {
  }

  lemma BodyIsPlanHeard(
    core: Core, policy: Policy, s: State, shown: View, last: Option<seq<PlanEntry>>, frame: Frame, now: nat)
    requires PlanHeard(core, s, shown, last) && PLAN_CALL_ID !in s.openCalls
    ensures var r := Body(core, policy, s, frame, now);
      PlanHeard(core, r.state, ShowAll(core, shown, r.events), if frame.PlanFrame? then Some(frame.entries) else last)
  {
    if frame.PlanFrame? {
      PlanFrameIsHeard(core, s, shown, last, frame.entries);
    } else {
      var r := Body(core, policy, s, frame, now);
      OtherThanPlan(core, policy, s, frame, now);
      OthersShowNothing(core, shown, r.events, PLAN_CALL_ID);
    }
  }

  lemma ReduceIsPlanHeard(
    core: Core, policy: Policy, s: State, shown: View, last: Option<seq<PlanEntry>>, frame: Frame, now: nat)
    requires PlanHeard(core, s, shown, last) && PLAN_CALL_ID !in s.openCalls
    ensures var r := Reduce(core, policy, s, frame, now);
      PlanHeard(core, r.state, ShowAll(core, shown, r.events), if frame.PlanFrame? then Some(frame.entries) else last)
  {
    var first := if Transcript(frame) then CloseReasoning(s) else Reduction(s, []);
    QuietIsPlanHeard(core, s, first.state, shown, last);
    BodyIsPlanHeard(core, policy, first.state, shown, last, frame, now);
    SilentShows(core, shown, first.events);
    ShowAllConcat(core, shown, first.events, Body(core, policy, first.state, frame, now).events);
  }

  /** After every run the plan's row is that of the last plan sent, and there is one exactly when there was one. */
  lemma {:induction false} ThePlanSaysTheLastPlan(core: Core, policy: Policy, inputs: seq<Input>)
    ensures var run := Run(core, policy, inputs);
      PlanHeard(core, run.state, ShowAll(core, map[], run.events), LastPlan(inputs))
  {
    if inputs != [] {
      var n := |inputs| - 1;
      ThePlanSaysTheLastPlan(core, policy, inputs[..n]);
      Bracketing.RunFollows(core, policy, inputs[..n]);
      var run := Run(core, policy, inputs[..n]);
      var step := Reduce(core, policy, run.state, inputs[n].frame, inputs[n].now);
      ReduceIsPlanHeard(core, policy, run.state, ShowAll(core, map[], run.events), LastPlan(inputs[..n]),
        inputs[n].frame, inputs[n].now);
      ShowAllConcat(core, map[], run.events, step.events);
    }
  }

  /** When the turn is finished the plan has succeeded, and its row still says the last plan sent. */
  lemma FinishedPlansSayTheLastPlan(
    core: Core, policy: Policy, inputs: seq<Input>, order: seq<string>, outcome: Outcome)
    requires IsOpeningOrder(Run(core, policy, inputs).state.openCalls, order)
    ensures var shown := ShowAll(core, map[], Bracketing.Turn(core, policy, inputs, order, outcome));
      && (PLAN_CALL_ID in shown <==> LastPlan(inputs).Some?)
      && (LastPlan(inputs).Some? ==>
            && shown[PLAN_CALL_ID].outcome == Some(Succeeded)
            && PlanReads(core, LastPlan(inputs).value, shown[PLAN_CALL_ID].(outcome := None)))
  {
    ThePlanSaysTheLastPlan(core, policy, inputs);
    Bracketing.RunFollows(core, policy, inputs);
    PlanCloses(core, Run(core, policy, inputs), LastPlan(inputs), order, outcome);
  }

  lemma PlanCloses(
    core: Core, run: Reduction, last: Option<seq<PlanEntry>>, order: seq<string>, outcome: Outcome)
    requires PLAN_CALL_ID !in run.state.openCalls && forall id <- order :: id in run.state.openCalls
    requires PlanHeard(core, run.state, ShowAll(core, map[], run.events), last)
    ensures var shown := ShowAll(core, map[], run.events + FinishInOrder(core, run.state, order, outcome).events);
      && (PLAN_CALL_ID in shown <==> last.Some?)
      && (last.Some? ==>
            && shown[PLAN_CALL_ID].outcome == Some(Succeeded)
            && PlanReads(core, last.value, shown[PLAN_CALL_ID].(outcome := None)))
  {
    var before := ShowAll(core, map[], run.events);
    var closing := ClosingOfCalls(run.state.openCalls, order, outcome);
    FinishShows(core, run, order, outcome);
    ClosingIsOfCalls(run.state.openCalls, order, outcome);
    OthersShowNothing(core, before, closing, PLAN_CALL_ID);
    if last.Some? {
      var completed := ActivityCompleted(PLAN_CALL_ID, Result(Succeeded, None, None));
      assert Bracketing.PlanClosing(run.state) == [completed];
      ShowOne(core, ShowAll(core, before, closing), completed);
      assert before[PLAN_CALL_ID].(outcome := Some(Succeeded)).(outcome := None) == before[PLAN_CALL_ID];
    } else {
      assert Bracketing.PlanClosing(run.state) == [];
    }
  }

  lemma {:induction false} ClosingIsOfCalls(open: map<string, OpenCall>, order: seq<string>, outcome: Outcome)
    requires (forall id <- order :: id in open) && PLAN_CALL_ID !in open
    ensures forall event <- ClosingOfCalls(open, order, outcome) :: !About(event, PLAN_CALL_ID)
  {
    if order != [] {
      ClosingIsOfCalls(open, order[..|order| - 1], outcome);
    }
  }

  // The texts, and the usage.

  /** What is told in words, each kind joined in order, and the usage as it was reported. */
  datatype Words = Words(message: string, reasoning: string, usage: seq<(nat, nat)>) {
    function Then(later: Words): Words {
      Words(message + later.message, reasoning + later.reasoning, usage + later.usage)
    }
  }

  const SILENCE := Words("", "", [])

  function EventWords(event: Event): Words {
    match event
    case TextDelta(text) => Words(text, "", [])
    case ReasoningDelta(text) => Words("", text, [])
    case ThreadUsage(used, size) => Words("", "", [(used, size)])
    case _ => SILENCE
  }

  function Told(events: seq<Event>): Words {
    if events == [] then SILENCE else Told(events[..|events| - 1]).Then(EventWords(events[|events| - 1]))
  }

  function FrameWords(frame: Frame): Words {
    match frame
    case AgentMessage(Some(text)) => Words(text, "", [])
    case AgentThought(Some(text)) => Words("", text, [])
    case UsageFrame(used, size) => Words("", "", [(used, size)])
    case _ => SILENCE
  }

  function Sent(inputs: seq<Input>): Words {
    if inputs == [] then SILENCE else Sent(inputs[..|inputs| - 1]).Then(FrameWords(inputs[|inputs| - 1].frame))
  }

  lemma {:induction false} ToldConcat(a: seq<Event>, b: seq<Event>)
    ensures Told(a + b) == Told(a).Then(Told(b))
  {
    if b == [] {
      assert a + b == a;
    } else {
      var n := |b| - 1;
      ToldConcat(a, b[..n]);
      assert (a + b)[..|a + b| - 1] == a + b[..n] && (a + b)[|a + b| - 1] == b[n];
      ThenAssociates(Told(a), Told(b[..n]), EventWords(b[n]));
    }
  }

  lemma ThenAssociates(a: Words, b: Words, c: Words)
    ensures a.Then(b).Then(c) == a.Then(b.Then(c))
  {
    assert a.message + b.message + c.message == a.message + (b.message + c.message);
    assert a.reasoning + b.reasoning + c.reasoning == a.reasoning + (b.reasoning + c.reasoning);
    assert a.usage + b.usage + c.usage == a.usage + (b.usage + c.usage);
  }

  /** Events about activities, and the bounds of reasoning, have no words. */
  lemma {:induction false} Wordless(events: seq<Event>)
    requires forall event <- events :: EventWords(event) == SILENCE
    ensures Told(events) == SILENCE
  {
    if events != [] {
      Wordless(events[..|events| - 1]);
    }
  }

  lemma ToldOne(event: Event)
    ensures Told([event]) == EventWords(event)
  {
    assert [event][..0] == [];
  }

  lemma BodyWords(core: Core, policy: Policy, s: State, frame: Frame, now: nat)
    ensures Told(Body(core, policy, s, frame, now).events) == FrameWords(frame)
  {
    match frame {
      case AgentMessage(Some(text)) => ToldOne(TextDelta(text));
      case AgentThought(Some(text)) => ThoughtWords(s, text);
      case UsageFrame(used, size) => ToldOne(ThreadUsage(used, size));
      case ToolCallFrame(id, call) => CallWords(core, policy, s, ClearOfPlan(id), RepeatFields(call), call, now);
      case ToolCallUpdateFrame(id, fields) =>
        CallWords(core, policy, s, ClearOfPlan(id), fields, FirstSighting(fields), now);
      case PlanFrame(entries) => Wordless(PlanReduction(s, entries).events);
      case _ =>
    }
  }

  lemma ThoughtWords(s: State, text: string)
    ensures Told(ReasoningStep(s, Some(text)).events) == Words("", text, [])
  {
    var before := if s.reasoningOpen then [] else [ReasoningStarted];
    ToldConcat(before, [ReasoningDelta(text)]);
    Wordless(before);
    ToldOne(ReasoningDelta(text));
  }

  lemma CallWords(
    core: Core, policy: Policy, s: State, id: string, fields: ToolCallFields, call: ToolCall, now: nat)
    ensures Told(Announce(core, s, id, call).events) == SILENCE
    ensures id in s.openCalls ==> Told(ReviseOpen(core, policy, s, id, fields, now).events) == SILENCE
  {
    Wordless(Announce(core, s, id, call).events);
    if id in s.openCalls {
      Wordless(ReviseOpen(core, policy, s, id, fields, now).events);
    }
  }

  lemma {:induction false} RunWords(core: Core, policy: Policy, inputs: seq<Input>)
    ensures Told(Run(core, policy, inputs).events) == Sent(inputs)
  {
    if inputs != [] {
      var n := |inputs| - 1;
      var frame := inputs[n].frame;
      RunWords(core, policy, inputs[..n]);
      var run := Run(core, policy, inputs[..n]);
      var first := if Transcript(frame) then CloseReasoning(run.state) else Reduction(run.state, []);
      var next := Body(core, policy, first.state, frame, inputs[n].now);
      BodyWords(core, policy, first.state, frame, inputs[n].now);
      Wordless(first.events);
      ToldConcat(first.events, next.events);
      ToldConcat(run.events, first.events + next.events);
    }
  }

  lemma {:induction false} ClosingIsWordless(open: map<string, OpenCall>, order: seq<string>, outcome: Outcome)
    requires forall id <- order :: id in open
    ensures forall event <- ClosingOfCalls(open, order, outcome) :: EventWords(event) == SILENCE
  {
    if order != [] {
      ClosingIsWordless(open, order[..|order| - 1], outcome);
    }
  }

  /**
    Over a whole turn the texts of the message deltas, joined, are the texts of the message frames, those of the
    reasoning deltas the texts of the thoughts, and every usage report is told once, in order.
  */
  lemma TurnsTellWhatWasSent(
    core: Core, policy: Policy, inputs: seq<Input>, order: seq<string>, outcome: Outcome)
    requires IsOpeningOrder(Run(core, policy, inputs).state.openCalls, order)
    ensures Told(Run(core, policy, inputs).events) == Sent(inputs)
    ensures Told(Bracketing.Turn(core, policy, inputs, order, outcome)) == Sent(inputs)
  {
    RunWords(core, policy, inputs);
    TurnWords(core, Run(core, policy, inputs), order, outcome);
  }

  lemma TurnWords(core: Core, run: Reduction, order: seq<string>, outcome: Outcome)
    requires forall id <- order :: id in run.state.openCalls
    ensures Told(run.events + FinishInOrder(core, run.state, order, outcome).events) == Told(run.events)
  {
    EndingIsWordless(core, run.state, order, outcome);
    ToldConcat(run.events, FinishInOrder(core, run.state, order, outcome).events);
  }

  lemma EndingIsWordless(core: Core, s: State, order: seq<string>, outcome: Outcome)
    requires forall id <- order :: id in s.openCalls
    ensures Told(FinishInOrder(core, s, order, outcome).events) == SILENCE
  {
    ClosingIsWordless(s.openCalls, order, outcome);
    Wordless(FinishInOrder(core, s, order, outcome).events);
  }

  // The start of a call.

  /** The bucket of a tool's kind: reads, searches and the rest have none of their own. */
  predicate Buckets(kind: Option<ToolKind>, shown: Kind) {
    && (shown.CommandKind? <==> kind == Some(Execute))
    && (shown.FileChangeKind? <==> kind in {Some(Edit), Some(Delete), Some(Move)})
    && (shown.WebSearchKind? <==> kind == Some(Fetch))
    && !shown.PlanKind?
  }

  function SentName(frame: Frame): Option<string>
    requires frame.ToolCallFrame? || frame.ToolCallUpdateFrame?
  {
    match frame
    case ToolCallFrame(_, call) => call.name
    case ToolCallUpdateFrame(_, fields) => fields.name
  }

  function SentKind(frame: Frame): Option<ToolKind>
    requires frame.ToolCallFrame? || frame.ToolCallUpdateFrame?
  {
    match frame
    case ToolCallFrame(_, call) => Some(call.kind)
    case ToolCallUpdateFrame(_, fields) => fields.kind
  }

  function SentLocations(frame: Frame): Option<nat>
    requires frame.ToolCallFrame? || frame.ToolCallUpdateFrame?
  {
    match frame
    case ToolCallFrame(_, call) => Some(call.locations)
    case ToolCallUpdateFrame(_, fields) => fields.locations
  }

  /** An activity says what the frame that announced it said, under the tool's name when that leaves something. */
  predicate Announces(core: Core, frame: Frame, activity: Activity)
    requires frame.ToolCallFrame? || frame.ToolCallUpdateFrame?
  {
    && activity.title == Announcement(frame).title.value
    && activity.name == (match SentName(frame)
                         case Some(name) => if core.namesATool(name) then name else activity.title
                         case None => activity.title)
    && Buckets(SentKind(frame), activity.kind)
    && (match activity.locationCount
        case Some(n) => n > 0 && SentLocations(frame) == Some(n)
        case None => SentLocations(frame) in {None, Some(0)})
  }

  lemma AnnouncedActivity(core: Core, frame: Frame, call: ToolCall)
    requires frame.ToolCallFrame? || frame.ToolCallUpdateFrame?
    requires call == if frame.ToolCallFrame? then frame.call else FirstSighting(frame.fields)
    ensures Announces(core, frame, StartedActivity(core, call))
  {
    AnnouncementSays(frame, call);
    assert call.kind == SentKind(frame).GetOr(OtherTool);
  }

  /** Where a start comes from: a frame on the call, or the plan. */
  ghost predicate StartedBy(core: Core, frame: Frame, event: Event)
    requires event.ActivityStarted?
  {
    if event.id == PLAN_CALL_ID
    then frame.PlanFrame? && event.activity.name == "plan" && event.activity.kind.PlanKind?
    else IsOn(frame, event.id) && Announces(core, frame, event.activity)
  }

  lemma BodyStarts(core: Core, policy: Policy, s: State, frame: Frame, now: nat)
    ensures forall event <- Body(core, policy, s, frame, now).events ::
      event.ActivityStarted? ==> StartedBy(core, frame, event)
  {
    if frame.ToolCallFrame? || frame.ToolCallUpdateFrame? {
      AgentIdIsNeverThePlan(frame.id);
      var call := if frame.ToolCallFrame? then frame.call else FirstSighting(frame.fields);
      AnnouncedActivity(core, frame, call);
      var id := ClearOfPlan(frame.id);
      if id in s.openCalls {
        var fields := if frame.ToolCallFrame? then RepeatFields(frame.call) else frame.fields;
        assert forall event <- ReviseOpen(core, policy, s, id, fields, now).events :: !event.ActivityStarted?;
      } else {
        assert forall event <- Announce(core, s, id, call).events :: event.ActivityStarted? ==>
          event.id == id && event.activity == StartedActivity(core, call);
      }
    }
  }

  /** Every start in a run is that of a frame of the run, and says what the frame said. */
  lemma {:induction false} StartsSayTheirFrame(core: Core, policy: Policy, inputs: seq<Input>, event: Event)
    requires event in Run(core, policy, inputs).events && event.ActivityStarted?
    ensures exists input <- inputs :: StartedBy(core, input.frame, event)
  {
    var n := |inputs| - 1;
    var before := Run(core, policy, inputs[..n]);
    if event in before.events {
      StartsSayTheirFrame(core, policy, inputs[..n], event);
    } else {
      var frame := inputs[n].frame;
      var first := if Transcript(frame) then CloseReasoning(before.state) else Reduction(before.state, []);
      BodyStarts(core, policy, first.state, frame, inputs[n].now);
      assert event in Body(core, policy, first.state, frame, inputs[n].now).events;
      assert inputs[n] in inputs;
    }
  }
}
