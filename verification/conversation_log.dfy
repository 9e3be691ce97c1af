/** The conversation log that `ResearchTeam.run_chat` builds while it consumes the team's
    event stream: a fold of a finite sequence of events into a list of entries. */
module ConversationLog {
  import opened Optional

  /** Source of the first entry, which carries the task. */
  const UserSource: string := "User"
  /** Source assumed for an event that has none. */
  const DefaultSource: string := "system"

  /** One requested tool call; `arguments` is the call's argument text as the library gives it. */
  datatype ToolCall = ToolCall(name: string, arguments: string)

  /** The events the fold distinguishes. An attribute the event may lack is an `Option`:
      `calls` and `chunk` are the event's `content`. `Other` is every event whose type is none
      of the three recognised ones (including an event with no type at all). */
  datatype Event =
    | ToolCallRequest(source: Option<string>, calls: Option<seq<ToolCall>>)
    | ToolCallExecution(source: Option<string>)
    | StreamingChunk(source: Option<string>, chunk: Option<string>)
    | Other(source: Option<string>)

  /** The source an event is attributed to: its own, or "system" when it has none. */
  function SourceOf(e: Event): string {
    e.source.ValueOr(DefaultSource)
  }

  /** The three entry kinds ("text", "tool_request", "tool_execution"). */
  datatype Entry =
    | Text(source: string, content: string)
    | ToolRequest(source: string, toolName: string, arguments: string)
    | ToolExecution(source: string)

  type Log = seq<Entry>

  predicate IsTextOf(e: Entry, s: string) {
    e.Text? && e.source == s
  }

  /** The index of the most recent text entry with source `s`, if any. */
  function LastText(log: Log, s: string): (r: Option<nat>)
    ensures r.Some? ==> r.value < |log| && IsTextOf(log[r.value], s)
    ensures r.Some? ==> forall j :: r.value < j < |log| ==> !IsTextOf(log[j], s)
    ensures r.None? <==> forall j :: 0 <= j < |log| ==> !IsTextOf(log[j], s)
    decreases |log|
  {
    if |log| == 0 then None
    else if IsTextOf(log[|log| - 1], s) then Some(|log| - 1)
    else LastText(log[..|log| - 1], s)
  }

  /** Any index that is a text entry of `s` with no later one is the one `LastText` finds. */
  lemma LastTextIsUnique(log: Log, s: string, i: nat)
    requires i < |log| && IsTextOf(log[i], s)
    requires forall j :: i < j < |log| ==> !IsTextOf(log[j], s)
    ensures LastText(log, s) == Some(i)
  {
  }

  /** The backward scan of `run_chat`: from the last entry down to the first, stopping at the
      first text entry whose source is `s`. */
  method ScanForText(log: Log, s: string) returns (found: bool, index: nat)
    ensures found ==> index < |log| && IsTextOf(log[index], s)
    ensures found ==> forall j :: index < j < |log| ==> !IsTextOf(log[j], s)
    ensures !found ==> forall j :: 0 <= j < |log| ==> !IsTextOf(log[j], s)
    ensures found <==> LastText(log, s).Some?
    ensures found ==> LastText(log, s) == Some(index)
  {
    found, index := false, 0;
    var i := |log|;
    while i > 0
      invariant 0 <= i <= |log|
      invariant forall j :: i <= j < |log| ==> !IsTextOf(log[j], s)
      decreases i
    {
      i := i - 1;
      if IsTextOf(log[i], s) {
        found, index := true, i;
        LastTextIsUnique(log, s, i);
        return;
      }
    }
  }

  /** The content of the most recent text entry of `s`. */
  function TextOf(log: Log, s: string): Option<string> {
    match LastText(log, s)
    case Some(i) => Some(log[i].content)
    case None => None
  }

  // ---------------------------------------------------------------------------
  // Growth of the log: entries are never removed or reordered; text may only grow.

  /** `b` is `a`, possibly with more text appended to its content. */
  predicate EntryGrows(a: Entry, b: Entry) {
    match a
    case Text(s, c) => b.Text? && b.source == s && c <= b.content
    case _ => b == a
  }

  /** `after` keeps every entry of `before`, at the same position, and may add more at the end. */
  predicate Extends(before: Log, after: Log) {
    && |before| <= |after|
    && forall i :: 0 <= i < |before| ==> EntryGrows(before[i], after[i])
  }

  lemma ExtendsTransitive(a: Log, b: Log, c: Log)
    requires Extends(a, b) && Extends(b, c)
    ensures Extends(a, c)
  {
  }

  // ---------------------------------------------------------------------------
  // One event

  /** The tool_request entries for one request event, one per call, in call order. */
  function RequestEntries(src: string, calls: seq<ToolCall>): (r: Log)
    ensures |r| == |calls|
    ensures forall j :: 0 <= j < |calls| ==> r[j] == ToolRequest(src, calls[j].name, calls[j].arguments)
    decreases |calls|
  {
    if |calls| == 0 then [] else [ToolRequest(src, calls[0].name, calls[0].arguments)] + RequestEntries(src, calls[1..])
  }

  /** A streamed chunk from `s`: appended to the most recent text entry of `s`, or, when there
      is none, starting a new text entry at the end. */
  function MergeChunk(log: Log, s: string, chunk: string): (r: Log)
    ensures Extends(log, r)
    ensures LastText(log, s).Some? ==> |r| == |log|
    ensures LastText(log, s).None? ==> r == log + [Text(s, chunk)]
  {
    match LastText(log, s)
    case Some(i) => log[i := Text(s, log[i].content + chunk)]
    case None => log + [Text(s, chunk)]
  }

  /** The effect of one event on the log. */
  function Step(log: Log, e: Event): (r: Log)
    ensures Extends(log, r)
  {
    var src := SourceOf(e);
    match e
    case ToolCallRequest(_, calls) => log + RequestEntries(src, calls.ValueOr([]))
    case ToolCallExecution(_) => log + [ToolExecution(src)]
    case StreamingChunk(_, chunk) => MergeChunk(log, src, chunk.ValueOr(""))
    case Other(_) => log
  }

  /** The `async for` loop: every event of the stream, in order. */
  function Fold(log: Log, events: seq<Event>): Log
    decreases |events|
  {
    if |events| == 0 then log else Fold(Step(log, events[0]), events[1..])
  }

  /** The log `run_chat` builds for `task` from the stream `events`. */
  function BuildLog(task: string, events: seq<Event>): Log {
    Fold([Text(UserSource, task)], events)
  }

  // ---------------------------------------------------------------------------
  // Properties of one step

  lemma ToolCallRequestAppends(log: Log, src: Option<string>, calls: Option<seq<ToolCall>>)
    ensures var r := Step(log, ToolCallRequest(src, calls));
            var cs := calls.ValueOr([]);
            && |r| == |log| + |cs|
            && r[..|log|] == log
            && forall j :: 0 <= j < |cs| ==>
                 r[|log| + j] == ToolRequest(src.ValueOr(DefaultSource), cs[j].name, cs[j].arguments)
  {
  }

  lemma ToolCallExecutionAppends(log: Log, src: Option<string>)
    ensures Step(log, ToolCallExecution(src)) == log + [ToolExecution(src.ValueOr(DefaultSource))]
  {
  }

  lemma OtherEventIgnored(log: Log, src: Option<string>)
    ensures Step(log, Other(src)) == log
  {
  }

  /** A chunk goes into the most recent text entry of its source, even when tool entries
      follow that entry; nothing else changes. */
  lemma ChunkMergesIntoLatest(log: Log, src: Option<string>, chunk: Option<string>, i: nat)
    requires i < |log| && IsTextOf(log[i], src.ValueOr(DefaultSource))
    requires forall j :: i < j < |log| ==> !IsTextOf(log[j], src.ValueOr(DefaultSource))
    ensures var r := Step(log, StreamingChunk(src, chunk));
            && |r| == |log|
            && r[i] == Text(src.ValueOr(DefaultSource), log[i].content + chunk.ValueOr(""))
            && forall j :: 0 <= j < |log| && j != i ==> r[j] == log[j]
  {
    LastTextIsUnique(log, src.ValueOr(DefaultSource), i);
  }

  /** A chunk from a source with no text entry yet starts one at the end. */
  lemma ChunkStartsNewText(log: Log, src: Option<string>, chunk: Option<string>)
    requires forall j :: 0 <= j < |log| ==> !IsTextOf(log[j], src.ValueOr(DefaultSource))
    ensures Step(log, StreamingChunk(src, chunk)) == log + [Text(src.ValueOr(DefaultSource), chunk.ValueOr(""))]
  {
  }

  // ---------------------------------------------------------------------------
  // Invariants of the fold

  /** No two text entries share a source. */
  predicate UniqueTextSources(log: Log) {
    forall i, j :: 0 <= i < j < |log| && log[i].Text? && log[j].Text? ==> log[i].source != log[j].source
  }

  lemma StepPreservesUnique(log: Log, e: Event)
    requires UniqueTextSources(log)
    ensures UniqueTextSources(Step(log, e))
  {
  }

  lemma {:induction false} FoldPreservesUnique(log: Log, events: seq<Event>)
    requires UniqueTextSources(log)
    ensures UniqueTextSources(Fold(log, events))
    decreases |events|
  {
    if |events| > 0 {
      StepPreservesUnique(log, events[0]);
      FoldPreservesUnique(Step(log, events[0]), events[1..]);
    }
  }

  /** Entries are never removed or reordered, and text entries only ever grow at the end. */
  lemma {:induction false} FoldExtends(log: Log, events: seq<Event>)
    ensures Extends(log, Fold(log, events))
    decreases |events|
  {
    if |events| > 0 {
      var next := Step(log, events[0]);
      FoldExtends(next, events[1..]);
      ExtendsTransitive(log, next, Fold(next, events[1..]));
    }
  }

  // ---------------------------------------------------------------------------
  // Text content as the concatenation of chunks

  /** Does the stream hold a chunk from `s`? */
  predicate HasChunk(events: seq<Event>, s: string) {
    exists k :: 0 <= k < |events| && events[k].StreamingChunk? && SourceOf(events[k]) == s
  }

  /** All chunks from `s`, concatenated in stream order. */
  function Chunks(events: seq<Event>, s: string): string
    decreases |events|
  {
    if |events| == 0 then ""
    else
      var e := events[0];
      (if e.StreamingChunk? && SourceOf(e) == s then e.chunk.ValueOr("") else "") + Chunks(events[1..], s)
  }

  /** What the text of `s` becomes after `events`, given what it was before. */
  function Extended(before: Option<string>, events: seq<Event>, s: string): Option<string> {
    match before
    case Some(c) => Some(c + Chunks(events, s))
    case None => if HasChunk(events, s) then Some(Chunks(events, s)) else None
  }

  /** Extending by one event: only a chunk from `t` changes the text of `t`. */
  lemma ExtendedByOne(before: Option<string>, e: Event, t: string)
    ensures Extended(before, [e], t) ==
            if e.StreamingChunk? && SourceOf(e) == t then Some(before.ValueOr("") + e.chunk.ValueOr("")) else before
  {
    var hit := e.StreamingChunk? && SourceOf(e) == t;
    assert [e][0] == e && [e][1..] == [];
    assert HasChunk([e], t) <==> hit;
    var own := if hit then e.chunk.ValueOr("") else "";
    assert own + "" == own;
    assert Chunks([e], t) == own;
    match before {
      case Some(c) => assert c + "" == c;
      case None => assert "" + own == own;
    }
  }

  /** Appending entries that are not text leaves every source's text as it was. */
  lemma TextOfAppendNoText(log: Log, tail: Log, t: string)
    requires forall j :: 0 <= j < |tail| ==> !tail[j].Text?
    ensures TextOf(log + tail, t) == TextOf(log, t)
  {
    var r := log + tail;
    match LastText(log, t) {
      case Some(i) =>
        assert forall j :: i < j < |r| ==> !IsTextOf(r[j], t) by {
          forall j | i < j < |r| ensures !IsTextOf(r[j], t) {
            if j >= |log| { assert r[j] == tail[j - |log|]; }
          }
        }
        LastTextIsUnique(r, t, i);
      case None =>
        assert forall j :: 0 <= j < |r| ==> !IsTextOf(r[j], t) by {
          forall j | 0 <= j < |r| ensures !IsTextOf(r[j], t) {
            if j >= |log| { assert r[j] == tail[j - |log|]; }
          }
        }
    }
  }

  /** A chunk from `s` changes the text of `s` only, by appending the chunk. */
  lemma MergeChunkText(log: Log, s: string, c: string, t: string)
    ensures TextOf(MergeChunk(log, s, c), t) == if t == s then Some(TextOf(log, s).ValueOr("") + c) else TextOf(log, t)
  {
    var r := MergeChunk(log, s, c);
    match LastText(log, s) {
      case Some(i) =>
        assert r == log[i := Text(s, log[i].content + c)];
        if t == s {
          LastTextIsUnique(r, t, i);
        } else {
          match LastText(log, t) {
            case Some(k) =>
              LastTextIsUnique(r, t, k);
              assert r[k] == log[k];
            case None =>
              assert forall j :: 0 <= j < |r| ==> !IsTextOf(r[j], t);
          }
        }
      case None =>
        TextOfAppendNoText(log, [], t);
        if t == s {
          LastTextIsUnique(r, t, |log|);
          assert "" + c == c;
        } else {
          match LastText(log, t) {
            case Some(k) =>
              LastTextIsUnique(r, t, k);
              assert r[k] == log[k];
            case None =>
              assert forall j :: 0 <= j < |r| ==> !IsTextOf(r[j], t);
          }
        }
    }
  }

  lemma StepText(log: Log, e: Event, t: string)
    ensures TextOf(Step(log, e), t) == Extended(TextOf(log, t), [e], t)
  {
    ExtendedByOne(TextOf(log, t), e, t);
    var s := SourceOf(e);
    match e {
      case ToolCallRequest(_, calls) =>
        TextOfAppendNoText(log, RequestEntries(s, calls.ValueOr([])), t);
      case ToolCallExecution(_) =>
        TextOfAppendNoText(log, [ToolExecution(s)], t);
      case StreamingChunk(_, chunk) =>
        MergeChunkText(log, s, chunk.ValueOr(""), t);
      case Other(_) =>
    }
  }

  lemma {:induction false} ExtendedCompose(before: Option<string>, e: Event, rest: seq<Event>, t: string)
    ensures Extended(Extended(before, [e], t), rest, t) == Extended(before, [e] + rest, t)
  {
    var all := [e] + rest;
    assert all[0] == e && all[1..] == rest;
    assert [e][1..] == [];
    var hit := e.StreamingChunk? && SourceOf(e) == t;
    assert HasChunk([e], t) <==> hit by {
      if hit { assert [e][0] == e; }
    }
    assert HasChunk(all, t) <==> hit || HasChunk(rest, t) by {
      if HasChunk(rest, t) {
        var k :| 0 <= k < |rest| && rest[k].StreamingChunk? && SourceOf(rest[k]) == t;
        assert all[k + 1] == rest[k];
      }
      if hit { assert all[0] == e; }
      if HasChunk(all, t) && !hit {
        var k :| 0 <= k < |all| && all[k].StreamingChunk? && SourceOf(all[k]) == t;
        assert k > 0 && rest[k - 1] == all[k];
      }
    }
    var own := if hit then e.chunk.ValueOr("") else "";
    assert Chunks([e], t) == own + "" == own;
    assert Chunks(all, t) == own + Chunks(rest, t);
    match before {
      case Some(c) =>
        assert (c + own) + Chunks(rest, t) == c + (own + Chunks(rest, t));
      case None =>
        if !hit {
          assert Chunks(all, t) == Chunks(rest, t);
        }
    }
  }

  /** The text entry of `t` after a stream is its text before, followed by every chunk from
      `t` in stream order; a source without text gets one exactly when it sent a chunk. */
  lemma {:induction false} FoldText(log: Log, events: seq<Event>, t: string)
    ensures TextOf(Fold(log, events), t) == Extended(TextOf(log, t), events, t)
    decreases |events|
  {
    if |events| == 0 {
      assert !HasChunk(events, t);
      match TextOf(log, t) {
        case Some(c) => assert c + "" == c;
        case None =>
      }
    } else {
      var e := events[0];
      var next := Step(log, e);
      StepText(log, e, t);
      FoldText(next, events[1..], t);
      ExtendedCompose(TextOf(log, t), e, events[1..], t);
      assert [e] + events[1..] == events;
    }
  }

  /** For `run_chat`: the "User" text is the task followed by every chunk the stream
      attributes to "User"; any other source has text exactly when it sent a chunk, and that
      text is all its chunks in order. Text sources stay pairwise distinct. */
  lemma BuildLogText(task: string, events: seq<Event>, t: string)
    ensures UniqueTextSources(BuildLog(task, events))
    ensures t == UserSource ==> TextOf(BuildLog(task, events), t) == Some(task + Chunks(events, t))
    ensures t != UserSource && HasChunk(events, t) ==> TextOf(BuildLog(task, events), t) == Some(Chunks(events, t))
    ensures t != UserSource && !HasChunk(events, t) ==> TextOf(BuildLog(task, events), t) == None
  {
    var start := [Text(UserSource, task)];
    FoldPreservesUnique(start, events);
    FoldText(start, events, t);
    if t == UserSource {
      LastTextIsUnique(start, t, 0);
    }
  }

  /** The log always opens with the "User" entry, holding the task and whatever chunks were
      attributed to "User". */
  lemma LogStartsWithTask(task: string, events: seq<Event>)
    ensures var r := BuildLog(task, events);
            |r| >= 1 && r[0] == Text(UserSource, task + Chunks(events, UserSource))
  {
    var start := [Text(UserSource, task)];
    var r := BuildLog(task, events);
    FoldExtends(start, events);
    assert EntryGrows(start[0], r[0]);
    BuildLogText(task, events, UserSource);
    var i := LastText(r, UserSource).value;
    assert i == 0;
  }

  // ---------------------------------------------------------------------------
  // Tool entries, in event order

  /** The entries of `log` that are not text. */
  function ToolEntries(log: Log): Log
    decreases |log|
  {
    if |log| == 0 then [] else (if log[0].Text? then [] else [log[0]]) + ToolEntries(log[1..])
  }

  /** The tool entries one event produces. */
  function OwnToolEntries(e: Event): Log {
    match e
    case ToolCallRequest(_, calls) => RequestEntries(SourceOf(e), calls.ValueOr([]))
    case ToolCallExecution(_) => [ToolExecution(SourceOf(e))]
    case _ => []
  }

  /** The tool entries the events of a stream produce, in stream order. */
  function EventToolEntries(events: seq<Event>): Log
    decreases |events|
  {
    if |events| == 0 then [] else OwnToolEntries(events[0]) + EventToolEntries(events[1..])
  }

  lemma {:induction false} ToolEntriesConcat(a: Log, b: Log)
    ensures ToolEntries(a + b) == ToolEntries(a) + ToolEntries(b)
    decreases |a|
  {
    if |a| == 0 {
      assert a + b == b;
    } else {
      assert (a + b)[0] == a[0] && (a + b)[1..] == a[1..] + b;
      ToolEntriesConcat(a[1..], b);
    }
  }

  lemma {:induction false} ToolEntriesOfRequests(src: string, calls: seq<ToolCall>)
    ensures ToolEntries(RequestEntries(src, calls)) == RequestEntries(src, calls)
    decreases |calls|
  {
    if |calls| > 0 {
      var r := RequestEntries(src, calls);
      assert r[1..] == RequestEntries(src, calls[1..]);
      ToolEntriesOfRequests(src, calls[1..]);
    }
  }

  lemma {:induction false} ToolEntriesIgnoreTextEdit(log: Log, i: nat, x: Entry)
    requires i < |log| && log[i].Text? && x.Text?
    ensures ToolEntries(log[i := x]) == ToolEntries(log)
    decreases |log|
  {
    var r := log[i := x];
    if i > 0 {
      assert r[1..] == log[1..][i - 1 := x];
      ToolEntriesIgnoreTextEdit(log[1..], i - 1, x);
    } else {
      assert r[1..] == log[1..];
    }
  }

  lemma StepToolEntries(log: Log, e: Event)
    ensures ToolEntries(Step(log, e)) == ToolEntries(log) + OwnToolEntries(e)
  {
    var s := SourceOf(e);
    match e
    case ToolCallRequest(_, calls) =>
      var tail := RequestEntries(s, calls.ValueOr([]));
      ToolEntriesConcat(log, tail);
      ToolEntriesOfRequests(s, calls.ValueOr([]));
    case ToolCallExecution(_) =>
      ToolEntriesConcat(log, [ToolExecution(s)]);
      assert ToolEntries([ToolExecution(s)]) == [ToolExecution(s)] + ToolEntries([]);
    case StreamingChunk(_, chunk) =>
      var c := chunk.ValueOr("");
      match LastText(log, s) {
        case Some(i) =>
          ToolEntriesIgnoreTextEdit(log, i, Text(s, log[i].content + c));
        case None =>
          ToolEntriesConcat(log, [Text(s, c)]);
          assert ToolEntries([Text(s, c)]) == [] + ToolEntries([]);
      }
    case Other(_) =>
      assert ToolEntries(log) + [] == ToolEntries(log);
  }

  /** The non-text entries of the log are exactly the tool entries of the stream, in stream
      order, after those already present: chunk merging never disturbs them. */
  lemma {:induction false} ToolEntriesInEventOrder(log: Log, events: seq<Event>)
    ensures ToolEntries(Fold(log, events)) == ToolEntries(log) + EventToolEntries(events)
    decreases |events|
  {
    if |events| == 0 {
      assert ToolEntries(log) + [] == ToolEntries(log);
    } else {
      var e, rest := events[0], events[1..];
      var next := Step(log, e);
      assert Fold(log, events) == Fold(next, rest);
      assert EventToolEntries(events) == OwnToolEntries(e) + EventToolEntries(rest);
      StepToolEntries(log, e);
      ToolEntriesInEventOrder(next, rest);
    }
  }
}
