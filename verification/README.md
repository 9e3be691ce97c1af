# Conversation log and arXiv search tool, in Dafny

This project models the two pieces of sequential logic in the literature-review team of the
AutoGen tutorials repository. The rest of that code only drives libraries.

1. **`ResearchTeam.run_chat` and `ResearchTeam._format_conversation`**
   (`implementations/literature-review-01/src/team.py`). The team's event stream becomes a
   finite `seq<Event>` (`ConversationLog.Event`). An event is one of:
   - a tool-call request carrying its calls;
   - a tool execution;
   - a streamed text chunk;
   - anything else.

   An attribute the event may lack is an `Option`. A missing source defaults to "system". Missing
   content defaults to the empty list or the empty string. The stream is folded
   (`ConversationLog.Fold`) into a log of `Text`, `ToolRequest` and `ToolExecution` entries,
   starting from the "User" entry that holds the task. A chunk from source `s` is appended to the
   most recent text entry of `s`, found by the same backward scan (`ConversationLog.ScanForText`,
   `ConversationLog.LastText`). When `s` has no text entry, the chunk starts a new one.
   `ConversationFormat.FormatConversation` renders the log as Markdown pieces joined by a blank
   line. `ConversationFormat.RunChat` is the whole of `run_chat`.

2. **`Search_arXiv`** (`implementations/literature-review-01/src/tools.py`, copied verbatim in
   `tutorials/01_basic_flow.py:41-95`). `ArxivSearch.SearchArxiv` models these steps:
   - the query check;
   - the `max_results` check, exactly as Python parses it;
   - the empty-result `ValueError`;
   - the re-raise of an `ArxivError` with the prefix "arXiv API error: ";
   - the text layout of the results.

   The network search is not modelled. Its answer is an input (`SearchResponse`): either the
   list of papers or an API failure with its message. The result (`ToolRun`) records the
   searches sent to the backend, so "a rejected call makes no search" can be stated. The result
   also records how the call ends: `ValueError`, `ArxivError`, `TypeError` or the returned text.

Modules: `Optional` (Option), `Strings` (join, `str()` of integers, `strip`, `title`,
`replace('\n', ' ')`), `ConversationLog`, `ConversationFormat`, `ArxivSearch`.

Points where the model pins down what the code does:
- The `max_results` guard `not isinstance(m, int) and m > 1000 or m <= 1` (tools.py:26) parses
  as `(not isinstance(m, int) and m > 1000) or m <= 1`. For an integer it rejects exactly
  `m <= 1`. So 1 is refused and 1001 or more is accepted, although the program's own error
  message says "must be a integer between 1 and 1000" (tools.py:27). `True` and `False` are
  integers in Python and are always refused. A non-integer number is held to both bounds. A value
  that does not compare with an integer raises `TypeError`.
- A search that succeeds with zero results raises
  `ValueError("No papers found related to the search query")` (tools.py:39-40). The
  `except arxiv.ArxivError` clause does not catch it, so it propagates unchanged.
- A chunk always merges into the most recent text entry of its source (team.py:82-88), even when
  tool entries or other speakers' entries follow that entry. So every source has at most one text
  entry.
- An empty chunk from a source with no text entry yet appends an empty text entry
  (team.py:90-95). Only the rendered output is unchanged, because blank text renders as nothing.
  `ConversationFormat.EmptyChunkRendersNothing` states both.
- The tool-call banner in `team.py:125` holds the characters U+F8FF U+00FC U+00F5 U+2020 U+00D4
  U+220F U+00E8. These are the UTF-8 bytes of the hammer-and-wrench emoji read as Mac OS Roman.
  The model uses those characters as written.

## Model

| member | source | states |
|---|---|---|
| Strings.Join | implementations/literature-review-01/src/team.py:132 | `sep.join(parts)` is empty for no parts, is the part itself for one, starts with the first part, and has length = sum of the parts + (n-1)·separator |
| Strings.JoinSnoc | implementations/literature-review-01/src/tools.py:56 | joining one more part appends the separator and that part |
| Strings.Strip | implementations/literature-review-01/src/team.py:117 | `strip()` returns a contiguous slice that neither starts nor ends with whitespace; every character outside it is whitespace; the result is empty iff the input is all whitespace |
| Strings.Title | implementations/literature-review-01/src/team.py:119 | `title()` keeps the length; a letter is upper-cased iff it is not preceded by a letter, otherwise lower-cased; other characters are unchanged |
| Strings.FlattenNewlines | implementations/literature-review-01/src/tools.py:45 | `replace('\n', ' ')` keeps the length, turns each newline into a space, keeps every other character, and leaves no newline |
| Strings.ParseNatToString | implementations/literature-review-01/src/tools.py:48 | the decimal numeral printed for a block number reads back as that number |
| ConversationLog.LastText | implementations/literature-review-01/src/team.py:82-88 | finds the most recent text entry of the source: it is a text entry of that source, no later entry is, and there is none exactly when no entry matches |
| ConversationLog.ScanForText | implementations/literature-review-01/src/team.py:82-88 | the backward scan with early exit stops at the most recent matching text entry, or reports none when no entry matches |
| ConversationLog.MergeChunk | implementations/literature-review-01/src/team.py:78-95 | a chunk keeps the log length when its source has a text entry; otherwise it appends exactly one new text entry with the chunk; existing entries only grow |
| ConversationLog.Step | implementations/literature-review-01/src/team.py:55-95 | one event never removes, reorders or replaces an entry; text content can only be extended at its end |
| ConversationLog.ToolCallRequestAppends | implementations/literature-review-01/src/team.py:60-68 | a request with k calls appends exactly k tool_request entries in call order, each with the event's source (or "system"); the earlier log is unchanged |
| ConversationLog.ToolCallExecutionAppends | implementations/literature-review-01/src/team.py:71-75 | an execution event appends exactly one tool_execution entry with the event's source and changes nothing else |
| ConversationLog.OtherEventIgnored | implementations/literature-review-01/src/team.py:56-78 | an event of any other type leaves the log unchanged |
| ConversationLog.ChunkMergesIntoLatest | implementations/literature-review-01/src/team.py:78-88 | a chunk goes into the most recent text entry of its source, even when tool entries follow; the length is unchanged and no other entry changes |
| ConversationLog.ChunkStartsNewText | implementations/literature-review-01/src/team.py:90-95 | with no text entry for the source, a chunk appends one text entry {source, chunk} at the end |
| ConversationLog.StepPreservesUnique | implementations/literature-review-01/src/team.py:82-95 | one event keeps text entries' sources pairwise distinct |
| ConversationLog.FoldPreservesUnique | implementations/literature-review-01/src/team.py:55-95 | the whole stream keeps text entries' sources pairwise distinct |
| ConversationLog.FoldExtends | implementations/literature-review-01/src/team.py:55-95 | after any stream, every earlier entry is still at its position with the same kind and source, and text content only grew at its end |
| ConversationLog.FoldText | implementations/literature-review-01/src/team.py:78-95 | a source's text after a stream is its text before followed by all its chunks in stream order; a source without text gets text exactly when it sent a chunk |
| ConversationLog.BuildLogText | implementations/literature-review-01/src/team.py:48-95 | in the log `run_chat` builds, text sources are distinct; the "User" text is the task followed by the "User" chunks; any other source's text is the concatenation of its chunks, present iff it sent one |
| ConversationLog.LogStartsWithTask | implementations/literature-review-01/src/team.py:48-52 | the log always opens with the "User" text entry: the task followed by the chunks attributed to "User" |
| ConversationLog.ToolEntriesInEventOrder | implementations/literature-review-01/src/team.py:60-95 | the log's non-text entries are exactly the tool entries the events produce, in stream order, after those already present |
| ConversationFormat.Piece | implementations/literature-review-01/src/team.py:112-130 | an entry renders as nothing iff it is a whitespace-only text entry; a rendered text entry starts with "**" and ends with the stripped content; a tool request starts with the banner; a tool execution renders as the fixed " **Tool Result**: Data received successfully." |
| ConversationFormat.PiecesConcat | implementations/literature-review-01/src/team.py:110-131 | the pieces of a concatenated log are the pieces of each part in order, so pieces follow entry order |
| ConversationFormat.PiecesCount | implementations/literature-review-01/src/team.py:116-130 | the number of pieces is the number of entries minus the blank text entries, so never more than the entries |
| ConversationFormat.FormatSnoc | implementations/literature-review-01/src/team.py:110-132 | rendering one more entry adds nothing for blank text; otherwise it adds a blank line and the entry's piece, or only the piece when nothing was rendered before |
| ConversationFormat.EmptyChunkRendersNothing | implementations/literature-review-01/src/team.py:78-119 | an empty chunk leaves the log unchanged when its source has text, and otherwise appends an empty text entry; either way the rendered conversation is unchanged |
| ConversationFormat.ExecutionsRenderAsNotes | implementations/literature-review-01/src/team.py:129-130 | a log of tool executions renders as the fixed note once per entry |
| ConversationFormat.UserPiece | implementations/literature-review-01/src/team.py:116-119 | a non-blank "User" entry renders as "**User**:" and a blank line, then its stripped content |
| ConversationFormat.RunChatOpensWithTask | implementations/literature-review-01/src/team.py:45-132 | unless the task and the "User" chunks are whitespace only, `run_chat`'s output opens with the "User" heading and that text, stripped |
| ArxivSearch.PaperBlock | implementations/literature-review-01/src/tools.py:44-54 | block i starts "Paper {i+1}:" and a newline, and ends with "...\n" |
| ArxivSearch.FormatPapers | implementations/literature-review-01/src/tools.py:42-56 | with at least one result, the text opens with the header of paper 1 |
| ArxivSearch.Answer | implementations/literature-review-01/src/tools.py:37-59 | `ArxivError` iff the backend failed, with its message behind "arXiv API error: "; `ValueError` iff the search found nothing; returned text opens with "Paper 1:" |
| ArxivSearch.SearchArxiv | implementations/literature-review-01/src/tools.py:5-59 | at most one search is sent; none iff the query or `max_results` check fails; an accepted call searches for exactly that query and count; success implies a non-empty result list; an `ArxivError` carries the backend message behind the prefix |
| ArxivSearch.QueryValidation | tutorials/01_basic_flow.py:59-60 | the query is rejected iff it is not a non-empty string; then the call raises `ValueError` with the value shown, and sends no search whatever `max_results` is |
| ArxivSearch.MaxResultsPrecedence | implementations/literature-review-01/src/tools.py:26-27 | an integer is rejected iff it is at most 1 (1 rejected, 1001 accepted); booleans are always rejected; another number is rejected iff above 1000 or at most 1; a non-number raises `TypeError` |
| ArxivSearch.RejectedCountMakesNoRequest | tutorials/01_basic_flow.py:62-67 | a rejected `max_results` sends no search and raises `ValueError` naming the value, or `TypeError` when the value cannot be compared |
| ArxivSearch.AcceptedCallSearchesOnce | implementations/literature-review-01/src/tools.py:23-37 | a non-empty query with an integer count above 1 sends exactly one search with those arguments |
| ArxivSearch.EmptyResultIsValueError | tutorials/01_basic_flow.py:75-95 | zero results raise `ValueError("No papers found related to the search query")`, which is not re-wrapped |
| ArxivSearch.ApiFailureRewrapped | tutorials/01_basic_flow.py:94-95 | a backend error becomes an `ArxivError` with "arXiv API error: " followed by the original message |
| ArxivSearch.ResultsFormatted | tutorials/01_basic_flow.py:78-92 | with n ≥ 1 results, the call returns the n blocks joined by "\n" in result order, block i opening "Paper {i+1}:" |
| ArxivSearch.HeaderNumbersFromOne | implementations/literature-review-01/src/tools.py:48 | the number in block i's header reads back as i+1 |
| ArxivSearch.BlockHasFiveLines | implementations/literature-review-01/src/tools.py:45-54 | when the title, author names and URL have no newline, a block is exactly five lines whatever the summary holds, and it ends with "  Abstract: ", the summary with newlines flattened, and "...\n" |
| ArxivSearch.BlockEndsWithAbstract | implementations/literature-review-01/src/tools.py:45-53 | a block's last line is "  Abstract: " followed by the summary with each newline replaced by a space, then "...\n" |
| ArxivSearch.PaperListLines | tutorials/01_basic_flow.py:78-92 | under the same condition, n results give 6n−1 newlines: n five-line blocks and n−1 separators |

## Left out

- Asynchrony: the `async for` over `run_stream` is iteration over a finite sequence of events.
  The team's turn rotation and `max_turns` belong to `RoundRobinGroupChat`, which is not part of
  this model.
- The lazy `pip install` of `arxiv` (a subprocess side effect) and the network search, whose
  answer is an input. The model assumes `arxiv` is importable. After a fresh install the
  source's `arxiv` name would be unbound.
- The signature of `arxiv.ArxivError`'s constructor (a library class) is not part of this
  model. The re-raise is modelled as the source writes it, as an `ArxivError` with the new message.
- The exact text of `str()` for a non-string query or a non-integer `max_results`, and of
  `str(e)` for a backend error: these are inputs (`shown`, `message`).
- A tool call's `arguments` are modelled as the text the f-string prints.
- Strings.Title: only ASCII letters are cased. Python also cases non-ASCII letters.
  `str.strip()` uses Python's full whitespace set, so it is exact.
- ConversationFormat.Piece: its contract states the frame of a rendered text entry: it opens
  with "**" and ends with the stripped content. The full f-string layout, with the title-cased
  source in the heading, is the definition itself.
- ArxivSearch.PaperBlock: its contract states the block's first and last lines. The Title,
  Authors, URL and Abstract lines are the definition (`ArxivSearch.BlockParts`).
  `ArxivSearch.BlockHasFiveLines` states their number.
- Float NaN or infinite `max_results` values are not modelled. Numbers are finite reals.
- Agent and model-client construction, prompts, configuration constants, the Streamlit app,
  the memory tutorial and the orchestration tutorial are library wiring without logic of their own.
