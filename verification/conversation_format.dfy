/** `ResearchTeam._format_conversation`: the conversation log rendered as Markdown, and
    `run_chat` as a whole (fold, then render). */
module ConversationFormat {
  import opened Optional
  import Strings
  import opened ConversationLog

  /** The banner a tool call opens with. These are the characters the source file holds: the
      UTF-8 bytes of the hammer-and-wrench emoji read back in the Mac OS Roman encoding. */
  const ToolCallBanner: string := "\U{F8FF}\U{FC}\U{F5}\U{2020}\U{D4}\U{220F}\U{E8}"

  /** What every tool_execution entry renders as. */
  const ToolResultNote: string := " **Tool Result**: Data received successfully."

  /** Separator between rendered pieces. */
  const PieceSeparator: string := "\n\n"

  /** A text entry is blank when its content is whitespace only. */
  predicate IsBlankText(e: Entry) {
    e.Text? && Strings.AllSpace(e.content)
  }

  /** The Markdown piece one entry renders as; a blank text entry renders as nothing. */
  function Piece(e: Entry): (r: Option<string>)
    ensures r.None? <==> IsBlankText(e)
    ensures e.Text? && r.Some? ==> "**" <= r.value && Strings.EndsWith(r.value, Strings.Strip(e.content))
    ensures e.ToolExecution? ==> r == Some(ToolResultNote)
    ensures e.ToolRequest? ==> r.Some? && ToolCallBanner <= r.value
  {
    match e
    case Text(source, content) =>
      var body := Strings.Strip(content);
      if |body| == 0 then None
      else
        var head := "**" + Strings.Title(source) + "**:\n\n";
        assert (head + body)[..2] == "**";
        assert (head + body)[|head|..] == body;
        Some(head + body)
    case ToolRequest(source, toolName, arguments) =>
      var head := ToolCallBanner + " **Tool Call**: `" + source + "` is calling `" + toolName + "` ";
      var r := head + "with arguments:\n```json\n" + arguments + "\n```";
      assert r[..|ToolCallBanner|] == ToolCallBanner;
      Some(r)
    case ToolExecution(_) =>
      Some(ToolResultNote)
  }

  /** The piece of one entry as a list of zero or one pieces. */
  function OwnPiece(e: Entry): seq<string> {
    if Piece(e).Some? then [Piece(e).value] else []
  }

  /** The pieces of a log, in entry order. */
  function Pieces(log: Log): seq<string>
    decreases |log|
  {
    if |log| == 0 then [] else OwnPiece(log[0]) + Pieces(log[1..])
  }

  /** Number of blank text entries. */
  function BlankCount(log: Log): nat
    decreases |log|
  {
    if |log| == 0 then 0 else (if IsBlankText(log[0]) then 1 else 0) + BlankCount(log[1..])
  }

  /** `_format_conversation`: the pieces joined by a blank line. */
  function FormatConversation(log: Log): string {
    Strings.Join(Pieces(log), PieceSeparator)
  }

  /** `run_chat`: the rendered log the stream builds. */
  function RunChat(task: string, events: seq<Event>): string {
    FormatConversation(BuildLog(task, events))
  }

  /** Rendering is compositional: the pieces of `a + b` are those of `a` followed by those of
      `b`, so pieces appear in entry order. */
  lemma {:induction false} PiecesConcat(a: Log, b: Log)
    ensures Pieces(a + b) == Pieces(a) + Pieces(b)
    decreases |a|
  {
    if |a| == 0 {
      assert a + b == b;
    } else {
      assert (a + b)[0] == a[0] && (a + b)[1..] == a[1..] + b;
      assert Pieces(a + b) == OwnPiece(a[0]) + Pieces(a[1..] + b);
      PiecesConcat(a[1..], b);
    }
  }

  /** Every entry yields one piece except blank text entries, which yield none; so there are
      never more pieces than entries. */
  lemma {:induction false} PiecesCount(log: Log)
    ensures |Pieces(log)| == |log| - BlankCount(log)
    ensures |Pieces(log)| <= |log|
    decreases |log|
  {
    if |log| > 0 {
      PiecesCount(log[1..]);
    }
  }

  lemma PiecesSingle(e: Entry)
    ensures Pieces([e]) == if Piece(e).Some? then [Piece(e).value] else []
  {
  }

  /** Rendering one more entry: a blank text adds nothing; any other entry adds its piece,
      after a blank line when something was rendered before. */
  lemma FormatSnoc(log: Log, e: Entry)
    ensures Piece(e).None? ==> FormatConversation(log + [e]) == FormatConversation(log)
    ensures Piece(e).Some? && |Pieces(log)| == 0 ==> FormatConversation(log + [e]) == Piece(e).value
    ensures Piece(e).Some? && |Pieces(log)| > 0 ==>
              FormatConversation(log + [e]) == FormatConversation(log) + PieceSeparator + Piece(e).value
  {
    var ps := Pieces(log);
    PiecesConcat(log, [e]);
    PiecesSingle(e);
    if Piece(e).Some? {
      var p := Piece(e).value;
      assert Pieces(log + [e]) == ps + [p];
      if |ps| > 0 {
        Strings.JoinSnoc(ps, p, PieceSeparator);
      } else {
        assert ps + [p] == [p];
      }
    } else {
      assert Pieces(log + [e]) == ps + [];
      assert ps + [] == ps;
    }
  }

  /** An empty chunk does change the log when its source has no text entry yet (an empty text
      entry is appended), but it never changes the rendered conversation. */
  lemma EmptyChunkRendersNothing(log: Log, src: Option<string>)
    ensures var s := SourceOf(StreamingChunk(src, Some("")));
            LastText(log, s).None? ==> Step(log, StreamingChunk(src, Some(""))) == log + [Text(s, "")]
    ensures LastText(log, SourceOf(StreamingChunk(src, Some("")))).Some? ==> Step(log, StreamingChunk(src, Some(""))) == log
    ensures FormatConversation(Step(log, StreamingChunk(src, Some("")))) == FormatConversation(log)
  {
    var e := StreamingChunk(src, Some(""));
    var s := SourceOf(e);
    match LastText(log, s) {
      case Some(i) =>
        assert log[i].content + "" == log[i].content;
        assert log[i := Text(s, log[i].content)] == log;
      case None =>
        FormatSnoc(log, Text(s, ""));
    }
  }

  /** A log of tool_execution entries only renders as the fixed note, repeated once per
      entry and separated by blank lines. */
  lemma {:induction false} ExecutionsRenderAsNotes(log: Log)
    requires forall i :: 0 <= i < |log| ==> log[i].ToolExecution?
    ensures Pieces(log) == seq(|log|, _ => ToolResultNote)
    decreases |log|
  {
    if |log| > 0 {
      ExecutionsRenderAsNotes(log[1..]);
      assert Piece(log[0]) == Some(ToolResultNote);
    }
  }

  /** The piece of a non-blank "User" text entry. */
  lemma UserPiece(content: string)
    requires !Strings.AllSpace(content)
    ensures Piece(Text(UserSource, content)) == Some("**User**:\n\n" + Strings.Strip(content))
  {
    assert Strings.Title(UserSource) == UserSource;
    assert "**" + UserSource + "**:\n\n" == "**User**:\n\n";
  }

  /** A rendered first entry opens the rendered log. */
  lemma FormatOpensWithFirstPiece(log: Log)
    requires |log| > 0 && Piece(log[0]).Some?
    ensures Piece(log[0]).value <= FormatConversation(log)
  {
  }

  /** End to end: unless the task and the chunks attributed to "User" are whitespace only, the
      rendered conversation opens with the "User" heading followed by that text, stripped. */
  lemma RunChatOpensWithTask(task: string, events: seq<Event>)
    requires !Strings.AllSpace(task + Chunks(events, UserSource))
    ensures ("**User**:\n\n" + Strings.Strip(task + Chunks(events, UserSource))) <= RunChat(task, events)
  {
    var log := BuildLog(task, events);
    LogStartsWithTask(task, events);
    UserPiece(task + Chunks(events, UserSource));
    FormatOpensWithFirstPiece(log);
  }
}
