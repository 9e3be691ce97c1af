/** The `Search_arXiv` tool: argument validation, the outcome of the search, and the text
    layout of the papers found. The search itself is not modelled: its answer is an input. */
module ArxivSearch {
  import opened Optional
  import Strings

  // ---------------------------------------------------------------------------
  // Arguments, backend answer and outcome

  /** The `query` argument: a string, or some other value (shown as `str(value)`). */
  datatype QueryArg = QueryText(text: string) | QueryNonText(shown: string)

  /** The `max_results` argument. `CountBool` is Python's `True`/`False` (an `int` subclass with
      value 1/0); `CountReal` is any other number that compares with an `int` (a float, say),
      with its `str()`; `CountOther` is a value that does not compare with an `int` at all. */
  datatype CountArg =
    | CountInt(n: int)
    | CountBool(b: bool)
    | CountReal(x: real, shown: string)
    | CountOther

  /** The part of an arXiv result the tool reads; `authors` are the authors' names. */
  datatype Paper = Paper(title: string, authors: seq<string>, entryId: string, summary: string)

  /** What the backend search answers: all its results, or an `ArxivError` with its message. */
  datatype SearchResponse = Papers(results: seq<Paper>) | ApiFailure(message: string)

  /** One search sent to the backend. */
  datatype Request = Request(query: string, maxResults: CountArg)

  /** How a call ends: the exception it raises, or the text it returns. */
  datatype Outcome =
    | ValueError(message: string)
    | ArxivError(message: string)
    | TypeError
    | Success(text: string)

  /** A call's outcome together with the searches it sent to the backend. */
  datatype ToolRun = ToolRun(requests: seq<Request>, outcome: Outcome)

  const QueryErrorPrefix: string := "Query must be a nom-empty string. Found value: "
  const CountErrorPrefix: string := "must be a integer between 1 and 1000. Found value: "
  const NoPapersMessage: string := "No papers found related to the search query"
  const ApiErrorPrefix: string := "arXiv API error: "
  const UpperLimit: int := 1000
  const LowerLimit: int := 1

  // ---------------------------------------------------------------------------
  // Validation

  /** `not query or not isinstance(query, str)`: anything but a non-empty string. */
  predicate QueryRejected(q: QueryArg) {
    match q
    case QueryText(t) => |t| == 0
    case QueryNonText(_) => true
  }

  function ShownQuery(q: QueryArg): string {
    match q
    case QueryText(t) => t
    case QueryNonText(shown) => shown
  }

  predicate IsInt(c: CountArg) {
    c.CountInt? || c.CountBool?
  }

  /** The numeric value of `max_results`, when it has one. */
  function NumericValue(c: CountArg): Option<real> {
    match c
    case CountInt(n) => Some(n as real)
    case CountBool(b) => Some(if b then 1.0 else 0.0)
    case CountReal(x, _) => Some(x)
    case CountOther => None
  }

  /** The `max_results` guard as Python parses it,
      `((not isinstance(m, int)) and m > 1000) or m <= 1`: `Some(true)` when it rejects,
      `Some(false)` when it accepts, `None` when comparing `m` with 1000 raises `TypeError`. */
  function MaxResultsRejected(c: CountArg): Option<bool> {
    match NumericValue(c)
    case None => None
    case Some(v) => Some((!IsInt(c) && v > UpperLimit as real) || v <= LowerLimit as real)
  }

  function ShownCount(c: CountArg): string {
    match c
    case CountInt(n) => Strings.IntToString(n)
    case CountBool(b) => if b then "True" else "False"
    case CountReal(_, shown) => shown
    case CountOther => ""
  }

  // ---------------------------------------------------------------------------
  // Result layout

  /** First line of a block: `Paper <i+1>:`. */
  function Header(i: nat): string {
    "Paper " + Strings.NatToString(i + 1) + ":\n"
  }

  /** The pieces of the `i`-th result's block, in order: its number, title, authors joined by
      ", ", URL, and summary with every newline turned into a space. */
  function BlockParts(i: nat, p: Paper): seq<string> {
    [ Header(i),
      "  Title: ", p.title, "\n",
      "  Authors: ", Strings.Join(p.authors, ", "), "\n",
      "  URL: ", p.entryId, "\n",
      "  Abstract: ", Strings.FlattenNewlines(p.summary), "...\n" ]
  }

  /** The text block of the `i`-th result (numbered from 1 in the text). */
  function PaperBlock(i: nat, p: Paper): (r: string)
    ensures Header(i) <= r
    ensures Strings.EndsWith(r, "...\n")
  {
    var parts := BlockParts(i, p);
    Strings.ConcatEndsWithLast(parts);
    var r := Strings.Concat(parts);
    assert r == Header(i) + Strings.Concat(parts[1..]);
    assert r[..|Header(i)|] == Header(i);
    r
  }

  /** The blocks of all results, in result order. */
  function Blocks(papers: seq<Paper>): (r: seq<string>)
    ensures |r| == |papers|
  {
    seq(|papers|, i requires 0 <= i < |papers| => PaperBlock(i, papers[i]))
  }

  /** The returned text: the blocks joined by a newline. */
  function FormatPapers(papers: seq<Paper>): (r: string)
    ensures |papers| > 0 ==> Header(0) <= r
  {
    var blocks := Blocks(papers);
    var r := Strings.Join(blocks, "\n");
    assert |papers| > 0 ==> blocks[0] <= r && Header(0) <= blocks[0] && r[..|Header(0)|] == blocks[0][..|Header(0)|];
    r
  }

  /** What the tool makes of the backend's answer: an API error re-raised with a prefix, no
      results as a `ValueError` (which the `except arxiv.ArxivError` clause does not catch),
      otherwise the formatted papers. */
  function Answer(response: SearchResponse): (r: Outcome)
    ensures r.ArxivError? <==> response.ApiFailure?
    ensures response.ApiFailure? ==> r.message == ApiErrorPrefix + response.message
    ensures r.ValueError? <==> response.Papers? && |response.results| == 0
    ensures r.Success? ==> Header(0) <= r.text
  {
    match response
    case ApiFailure(m) => ArxivError(ApiErrorPrefix + m)
    case Papers(ps) => if |ps| == 0 then ValueError(NoPapersMessage) else Success(FormatPapers(ps))
  }

  /** `Search_arXiv(query, max_results)`, the backend answering `response` if asked. Both
      argument checks happen before the search is built, so a rejected call sends nothing. */
  function SearchArxiv(query: QueryArg, maxResults: CountArg, response: SearchResponse): (r: ToolRun)
    ensures |r.requests| <= 1
    ensures r.requests == [] <==> QueryRejected(query) || MaxResultsRejected(maxResults) != Some(false)
    ensures r.requests != [] ==> r.requests == [Request(query.text, maxResults)] && r.outcome == Answer(response)
    ensures r.outcome.Success? ==> response.Papers? && |response.results| > 0
    ensures r.outcome.ArxivError? ==> response.ApiFailure? && r.outcome.message == ApiErrorPrefix + response.message
  {
    if QueryRejected(query) then
      ToolRun([], ValueError(QueryErrorPrefix + ShownQuery(query)))
    else
      match MaxResultsRejected(maxResults)
      case None => ToolRun([], TypeError)
      case Some(true) => ToolRun([], ValueError(CountErrorPrefix + ShownCount(maxResults)))
      case Some(false) => ToolRun([Request(query.text, maxResults)], Answer(response))
  }

  // ---------------------------------------------------------------------------
  // Properties

  /** An empty or non-string query raises `ValueError` and never reaches the backend, whatever
      `max_results` is; a non-empty string query passes this check. */
  lemma QueryValidation(query: QueryArg, maxResults: CountArg, response: SearchResponse)
    ensures QueryRejected(query) <==> !(query.QueryText? && |query.text| > 0)
    ensures QueryRejected(query) ==>
              SearchArxiv(query, maxResults, response) == ToolRun([], ValueError(QueryErrorPrefix + ShownQuery(query)))
  {
  }

  /** For an integer `max_results` the guard rejects exactly the values up to 1: the
      `isinstance` test binds only to the upper bound, so 1 is refused although the message
      admits it and values above 1000 pass. A non-integer number is held to both bounds. */
  lemma MaxResultsPrecedence(n: int, x: real, shown: string)
    ensures MaxResultsRejected(CountInt(n)) == Some(n <= 1)
    ensures MaxResultsRejected(CountInt(1)) == Some(true)
    ensures MaxResultsRejected(CountInt(1001)) == Some(false)
    ensures MaxResultsRejected(CountBool(true)) == Some(true) && MaxResultsRejected(CountBool(false)) == Some(true)
    ensures MaxResultsRejected(CountReal(x, shown)) == Some(x > 1000.0 || x <= 1.0)
    ensures MaxResultsRejected(CountOther).None?
  {
  }

  /** A valid query with an integer count above 1 always sends exactly one search, and the
      outcome is whatever the backend's answer makes of it. */
  lemma AcceptedCallSearchesOnce(q: string, n: int, response: SearchResponse)
    requires |q| > 0 && n > 1
    ensures SearchArxiv(QueryText(q), CountInt(n), response) ==
            ToolRun([Request(q, CountInt(n))], Answer(response))
  {
  }

  /** A rejected count raises before any search: `ValueError` naming the value, or
      `TypeError` when the value cannot be compared. */
  lemma RejectedCountMakesNoRequest(query: QueryArg, maxResults: CountArg, response: SearchResponse)
    requires !QueryRejected(query)
    requires MaxResultsRejected(maxResults) != Some(false)
    ensures var r := SearchArxiv(query, maxResults, response);
            && r.requests == []
            && (maxResults.CountOther? ==> r.outcome == TypeError)
            && (!maxResults.CountOther? ==> r.outcome == ValueError(CountErrorPrefix + ShownCount(maxResults)))
  {
  }

  /** Zero results raise the `ValueError` unchanged; it is not turned into an `ArxivError`. */
  lemma EmptyResultIsValueError(query: QueryArg, maxResults: CountArg)
    requires !QueryRejected(query) && MaxResultsRejected(maxResults) == Some(false)
    ensures SearchArxiv(query, maxResults, Papers([])).outcome == ValueError(NoPapersMessage)
  {
  }

  /** A backend error comes back as an `ArxivError` whose message is the original one behind
      the prefix "arXiv API error: ". */
  lemma ApiFailureRewrapped(query: QueryArg, maxResults: CountArg, message: string)
    requires !QueryRejected(query) && MaxResultsRejected(maxResults) == Some(false)
    ensures var r := SearchArxiv(query, maxResults, ApiFailure(message));
            r.outcome == ArxivError(ApiErrorPrefix + message) && Strings.EndsWith(r.outcome.message, message)
  {
  }

  /** With n >= 1 results, the text is the n blocks joined by newlines, in result order,
      block i opening with `Paper <i+1>:`. */
  lemma ResultsFormatted(query: QueryArg, maxResults: CountArg, papers: seq<Paper>)
    requires !QueryRejected(query) && MaxResultsRejected(maxResults) == Some(false)
    requires |papers| > 0
    ensures var r := SearchArxiv(query, maxResults, Papers(papers));
            && r.outcome.Success?
            && r.outcome.text == Strings.Join(Blocks(papers), "\n")
            && forall i :: 0 <= i < |papers| ==> Header(i) <= Blocks(papers)[i]
  {
  }

  /** The block header can be read back: the digits after "Paper " parse to `i + 1`. */
  lemma HeaderNumbersFromOne(i: nat)
    ensures var d := Strings.NatToString(i + 1);
            && Header(i) == "Paper " + d + ":\n"
            && Strings.ParseDecimal(Header(i)[6..6 + |d|]) == i + 1
  {
    var d := Strings.NatToString(i + 1);
    assert Header(i)[6..6 + |d|] == d;
    Strings.ParseNatToString(i + 1);
  }

  lemma HeaderHasOneLine(i: nat)
    ensures Strings.Count(Header(i), '\n') == 1
  {
    var d := Strings.NatToString(i + 1);
    assert '\n' !in d by {
      forall k | 0 <= k < |d| ensures d[k] != '\n' {
        assert Strings.IsDigit(d[k]);
      }
    }
    Strings.CountAbsent(d, '\n');
    Strings.CountAbsent("Paper ", '\n');
    Strings.CountConcat("Paper " + d, ":\n", '\n');
    Strings.CountConcat("Paper ", d, '\n');
    assert Strings.Count(":\n", '\n') == 1;
  }

  lemma NewlineCount()
    ensures Strings.Count("\n", '\n') == 1 && Strings.Count("...\n", '\n') == 1
  {
  }

  /** Newlines in each part of a block, when the fields themselves hold none. */
  const BlockLineCounts: seq<nat> := [1, 0, 0, 1, 0, 0, 1, 0, 0, 1, 0, 0, 1]

  lemma BlockLineCountsSum()
    ensures Strings.SumOf(BlockLineCounts) == 5
  {
    var c := BlockLineCounts;
    assert c[12..] == [1] && c[12..][1..] == [];
    assert c[11..][1..] == c[12..];
    assert c[10..][1..] == c[11..];
    assert c[9..][1..] == c[10..];
    assert c[8..][1..] == c[9..];
    assert c[7..][1..] == c[8..];
    assert c[6..][1..] == c[7..];
    assert c[5..][1..] == c[6..];
    assert c[4..][1..] == c[5..];
    assert c[3..][1..] == c[4..];
    assert c[2..][1..] == c[3..];
    assert c[1..][1..] == c[2..];
    assert c[0..][1..] == c[1..];
    assert c[0..] == c;
  }

  lemma BlockPartCounts(i: nat, p: Paper)
    requires '\n' !in p.title && '\n' !in p.entryId
    requires forall k :: 0 <= k < |p.authors| ==> '\n' !in p.authors[k]
    ensures |BlockParts(i, p)| == |BlockLineCounts|
    ensures forall k :: 0 <= k < |BlockParts(i, p)| ==> Strings.Count(BlockParts(i, p)[k], '\n') == BlockLineCounts[k]
  {
    var parts := BlockParts(i, p);
    var counts := BlockLineCounts;
    Strings.JoinAvoids(p.authors, ", ", '\n');
    HeaderHasOneLine(i);
    NewlineCount();
    forall k | 0 <= k < |parts|
      ensures Strings.Count(parts[k], '\n') == counts[k]
    {
      if k == 0 || k == 3 || k == 6 || k == 9 || k == 12 {
      } else {
        assert '\n' !in parts[k] by {
          if k == 1 { assert parts[k] == "  Title: "; }
          else if k == 4 { assert parts[k] == "  Authors: "; }
          else if k == 7 { assert parts[k] == "  URL: "; }
          else if k == 10 { assert parts[k] == "  Abstract: "; }
        }
        Strings.CountAbsent(parts[k], '\n');
      }
    }
  }

  /** In a block, newlines of the summary become spaces and the authors are joined by ", ":
      when title, author names and URL hold no newline, a block is exactly five lines. */
  lemma BlockHasFiveLines(i: nat, p: Paper)
    requires '\n' !in p.title && '\n' !in p.entryId
    requires forall k :: 0 <= k < |p.authors| ==> '\n' !in p.authors[k]
    ensures Strings.Count(PaperBlock(i, p), '\n') == 5
    ensures Strings.EndsWith(PaperBlock(i, p), "  Abstract: " + Strings.FlattenNewlines(p.summary) + "...\n")
  {
    BlockPartCounts(i, p);
    Strings.CountOfConcat(BlockParts(i, p), '\n', BlockLineCounts);
    BlockLineCountsSum();
    BlockEndsWithAbstract(i, p);
  }

  /** The last line of a block is the summary, newlines flattened, behind "  Abstract: ". */
  lemma BlockEndsWithAbstract(i: nat, p: Paper)
    ensures Strings.EndsWith(PaperBlock(i, p), "  Abstract: " + Strings.FlattenNewlines(p.summary) + "...\n")
  {
    var parts := BlockParts(i, p);
    var summary := Strings.FlattenNewlines(p.summary);
    Strings.ConcatEndsWithTail(parts, 10);
    assert parts[10..] == ["  Abstract: ", summary, "...\n"];
    Strings.ConcatOfThree("  Abstract: ", summary, "...\n");
  }

  /** With n >= 1 results whose title, author names and URL hold no newline, the returned text
      has 6n - 1 newlines: n blocks of five lines and n - 1 separators between them. */
  lemma PaperListLines(papers: seq<Paper>)
    requires |papers| > 0
    requires forall i :: 0 <= i < |papers| ==> '\n' !in papers[i].title && '\n' !in papers[i].entryId
    requires forall i, k :: 0 <= i < |papers| && 0 <= k < |papers[i].authors| ==> '\n' !in papers[i].authors[k]
    ensures Strings.Count(FormatPapers(papers), '\n') == 6 * |papers| - 1
  {
    var blocks := Blocks(papers);
    forall i | 0 <= i < |blocks|
      ensures Strings.Count(blocks[i], '\n') == 5
    {
      BlockHasFiveLines(i, papers[i]);
    }
    assert Strings.Count("\n", '\n') == 1;
    Strings.JoinCount(blocks, "\n", '\n', 5);
  }
}
