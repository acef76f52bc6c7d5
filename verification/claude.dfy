/** The pure parts of the model-provider client: building a request body for a
    single chat turn or a batch entry, projecting the reply to its text, and
    reading a JSON-lines batch result body. HTTP itself is a function
    parameter `send`, and `JSON.parse` is a partial function parameter
    `parse`; neither is interpreted. */
module Claude {
  import opened Wrappers
  import opened Text
  import opened Domain

  /** `max_tokens` when the caller supplies none. */
  const DefaultMaxTokens := 1024

  /** A constructed client. Construction fails without an API key; callers
      see that as an absent client (`Option<Client>`). The key only reaches
      request headers and is not modelled. */
  datatype Client = Client(model: string)

  /** The optional `{system, maxTokens, history}` argument of `chat` and
      `makeRequest`; every field may be missing. */
  datatype ChatOptions = ChatOptions(
    system: Option<string>,
    maxTokens: Option<int>,
    history: Option<seq<MessageParam>>
  )

  /** `{model, max_tokens, system?, messages}`. */
  datatype RequestParams = RequestParams(
    model: string,
    maxTokens: int,
    system: Option<string>,
    messages: seq<MessageParam>
  )

  datatype BatchRequest = BatchRequest(customId: string, params: RequestParams)

  /** A content block of a provider reply; `text` may be missing. */
  datatype ContentBlock = ContentBlock(kind: string, text: Option<string>)

  /** What one HTTP exchange produced: no response at all, or a status and
      the decoded content blocks. */
  datatype HttpResult =
    | NetworkFailure
    | HttpResponse(status: int, content: seq<ContentBlock>)

  /** Why a client call rejected. */
  datatype ClientError = NetworkError | HttpError(status: int) | MalformedJson(line: string)

  /** `res.ok`. */
  predicate IsOk(status: int) {
    200 <= status <= 299
  }

  /** The request body both `chat` and `makeRequest` build: the history (empty
      when missing) followed by the new user turn, the default token budget,
      and a `system` key only for a non-empty system string. */
  function BuildParams(model: string, userMessage: string, options: ChatOptions): (p: RequestParams)
    ensures p.model == model
    ensures |p.messages| >= 1
    ensures p.messages[|p.messages| - 1] == MessageParam(User, userMessage)
    ensures p.messages[..|p.messages| - 1] == options.history.GetOr([])
    ensures options.maxTokens.None? ==> p.maxTokens == DefaultMaxTokens
    ensures options.maxTokens.Some? ==> p.maxTokens == options.maxTokens.value
    ensures p.system.Some? <==> options.system.Some? && options.system.value != ""
    ensures p.system.Some? ==> p.system == options.system
  {
    var history := options.history.GetOr([]);
    var messages := history + [MessageParam(User, userMessage)];
    assert messages[..|messages| - 1] == history;
    RequestParams(
      model,
      options.maxTokens.GetOr(DefaultMaxTokens),
      if options.system.Some? && options.system.value != "" then options.system else None,
      messages)
  }

  /** The conversation part of the request body depends only on the history
      option and the user message. */
  lemma BuildParamsMessages(model: string, userMessage: string, options: ChatOptions)
    ensures BuildParams(model, userMessage, options).messages
         == options.history.GetOr([]) + [MessageParam(User, userMessage)]
  {
    var p := BuildParams(model, userMessage, options);
    assert p.messages == p.messages[..|p.messages| - 1] + [p.messages[|p.messages| - 1]];
  }

  /** `makeRequest`: a batch entry whose id and model are copied unchanged. */
  function MakeRequest(client: Client, customId: string, userMessage: string, options: ChatOptions): (b: BatchRequest)
    ensures b.customId == customId && b.params.model == client.model
    ensures b.params == BuildParams(client.model, userMessage, options)
  {
    BatchRequest(customId, BuildParams(client.model, userMessage, options))
  }

  /** `data.content[0]?.text ?? ""`. */
  function FirstText(content: seq<ContentBlock>): string {
    if |content| == 0 then "" else content[0].text.GetOr("")
  }

  /** `chat`: posts the request body once; a missing response or a non-2xx
      status rejects, otherwise the reply is the first content block's text. */
  function Chat(client: Client, userMessage: string, options: ChatOptions, send: RequestParams -> HttpResult): (r: Result<string, ClientError>)
    ensures var res := send(BuildParams(client.model, userMessage, options));
      && (r.Success? <==> res.HttpResponse? && IsOk(res.status))
      && (res.NetworkFailure? ==> r == Failure(NetworkError))
      && (res.HttpResponse? && !IsOk(res.status) ==> r == Failure(HttpError(res.status)))
      && (r.Success? && |res.content| == 0 ==> r.value == "")
      && (r.Success? && |res.content| > 0 && res.content[0].text.Some? ==> r.value == res.content[0].text.value)
      && (r.Success? && |res.content| > 0 && res.content[0].text.None? ==> r.value == "")
  {
    var res := send(BuildParams(client.model, userMessage, options));
    match res
    case NetworkFailure => Failure(NetworkError)
    case HttpResponse(status, content) =>
      if !IsOk(status) then Failure(HttpError(status)) else Success(FirstText(content))
  }

  // ---------------------------------------------------------------------------
  // Batch results: one JSON document per non-empty line
  // ---------------------------------------------------------------------------

  /** `text.split("\n").filter(Boolean)`. */
  function BatchLines(body: string): (lines: seq<string>)
    ensures forall i :: 0 <= i < |lines| ==> lines[i] != "" && '\n' !in lines[i]
  {
    NonEmpty(Split(body, '\n'))
  }

  /** Parses each line in order; the first line `parse` rejects rejects the
      whole call. */
  function ParseLines(lines: seq<string>, parse: string -> Option<Json>): (r: Result<seq<Json>, ClientError>)
    ensures r.Success? <==> forall i :: 0 <= i < |lines| ==> parse(lines[i]).Some?
    ensures r.Success? ==> |r.value| == |lines|
    ensures r.Success? ==> forall i :: 0 <= i < |lines| ==> r.value[i] == parse(lines[i]).value
    ensures r.Failure? ==> exists i :: 0 <= i < |lines| && r.error == MalformedJson(lines[i]) && parse(lines[i]).None?
                                  && (forall j :: 0 <= j < i ==> parse(lines[j]).Some?)
  {
    if |lines| == 0 then Success([])
    else
      match parse(lines[0])
      case None => Failure(MalformedJson(lines[0]))
      case Some(j) =>
        match ParseLines(lines[1..], parse)
        case Failure(e) =>
          assert forall k :: 0 <= k < |lines| - 1 ==> lines[1..][k] == lines[k + 1];
          Failure(e)
        case Success(rest) => Success([j] + rest)
  }

  /** `getBatchResults` after the download: a non-2xx status rejects, otherwise
      one result per non-empty line of the body, in line order. */
  function GetBatchResults(status: int, body: string, parse: string -> Option<Json>): (r: Result<seq<Json>, ClientError>)
    ensures !IsOk(status) ==> r == Failure(HttpError(status))
    ensures r.Success? ==> |r.value| == |BatchLines(body)|
    ensures r.Success? ==> forall i :: 0 <= i < |r.value| ==> parse(BatchLines(body)[i]) == Some(r.value[i])
    ensures IsOk(status) ==> (r.Success? <==> forall i :: 0 <= i < |BatchLines(body)| ==> parse(BatchLines(body)[i]).Some?)
    ensures IsOk(status) && r.Failure? ==>
      exists i :: 0 <= i < |BatchLines(body)| && r.error == MalformedJson(BatchLines(body)[i])
        && parse(BatchLines(body)[i]).None?
        && (forall j :: 0 <= j < i ==> parse(BatchLines(body)[j]).Some?)
  {
    if !IsOk(status) then Failure(HttpError(status)) else ParseLines(BatchLines(body), parse)
  }

  /** A JSON-lines body written as non-empty, newline-free lines joined by
      newlines, with or without a final newline, reads back as exactly those
      lines. */
  lemma BatchLinesOfJsonLines(lines: seq<string>)
    requires |lines| >= 1
    requires forall i :: 0 <= i < |lines| ==> lines[i] != "" && '\n' !in lines[i]
    ensures BatchLines(Join(lines, "\n")) == lines
    ensures BatchLines(Join(lines, "\n") + "\n") == lines
  {
    JoinedLinesSplitBack(lines);
    TerminatedLinesSplitBack(lines);
    NonEmptyKeepsAll(lines);
    NonEmptyDropsFinalEmpty(lines);
  }

  lemma NonEmptyDropsFinalEmpty(lines: seq<string>)
    ensures NonEmpty(lines + [""]) == NonEmpty(lines)
  {
    NonEmptyAppend(lines, [""]);
    assert NonEmpty([""]) == [];
  }

  /** Blank lines anywhere in a JSON-lines body are skipped: the lines read
      back are exactly the non-empty pieces, in order. */
  lemma BatchLinesSkipBlankLines(pieces: seq<string>)
    requires |pieces| >= 1
    requires forall i :: 0 <= i < |pieces| ==> '\n' !in pieces[i]
    ensures BatchLines(Join(pieces, "\n")) == NonEmpty(pieces)
  {
    JoinedLinesSplitBack(pieces);
  }

  /** Every body is the newline-join of its pieces, so the lines of any body
      are the non-empty pieces between its newlines. */
  lemma BatchLinesOfAnyBody(body: string)
    ensures var pieces := Split(body, '\n');
      && Join(pieces, "\n") == body
      && BatchLines(body) == NonEmpty(pieces)
  {
    JoinSplit(body, '\n');
    assert "\n" == ['\n'];
  }

  lemma JoinedLinesSplitBack(lines: seq<string>)
    requires |lines| >= 1
    requires forall i :: 0 <= i < |lines| ==> '\n' !in lines[i]
    ensures Split(Join(lines, "\n"), '\n') == lines
  {
    assert "\n" == ['\n'];
    SplitJoin(lines, '\n');
  }

  /** With a final newline the split ends in one extra empty piece. */
  lemma TerminatedLinesSplitBack(lines: seq<string>)
    requires |lines| >= 1
    requires forall i :: 0 <= i < |lines| ==> '\n' !in lines[i]
    ensures Split(Join(lines, "\n") + "\n", '\n') == lines + [""]
  {
    var withEnd := lines + [""];
    JoinAppend(lines, "", "\n");
    assert Join(withEnd, "\n") == Join(lines, "\n") + "\n";
    forall i | 0 <= i < |withEnd|
      ensures '\n' !in withEnd[i]
    {
      if i < |lines| {
        assert withEnd[i] == lines[i];
      }
    }
    JoinedLinesSplitBack(withEnd);
  }

  lemma {:induction false} JoinAppend(parts: seq<string>, last: string, sep: string)
    requires |parts| >= 1
    ensures Join(parts + [last], sep) == Join(parts, sep) + sep + last
    decreases |parts|
  {
    if |parts| == 1 {
      assert (parts + [last])[1..] == [last];
    } else {
      assert (parts + [last])[1..] == parts[1..] + [last];
      JoinAppend(parts[1..], last, sep);
    }
  }
}
