/** The `/api/chat` route: compose the system prompt from the base prompt and
    the recent car interactions, ask the model gateway once, and turn its raw
    text into the reply body, falling back to `{message: text}` when no JSON
    can be read from it. */
module Server {
  import opened Wrappers
  import opened Text
  import opened Domain
  import opened Claude

  /** How many of the most recent interactions reach the prompt. */
  const InteractionWindow := 10

  /** The token budget the route asks for. */
  const ReplyMaxTokens := 1024

  const InteractionsHeader := "\n\nUser's recent on-page interactions (interest signals):\n"

  const InteractionLinePrefix := "- Viewed/clicked: "

  const NotConfiguredMessage := "API key not configured."

  const ConnectionErrorMessage := "I'm having trouble connecting. Please try again."

  /** An HTTP reply of the route: status and JSON body. */
  datatype Response = Response(status: int, body: Json)

  // ---------------------------------------------------------------------------
  // Prompt composition
  // ---------------------------------------------------------------------------

  /** The text fields of a car that reach an interaction line hold no newline. */
  predicate SingleLineCar(c: Car) {
    '\n' !in c.make && '\n' !in c.model && '\n' !in c.category && '\n' !in c.location
  }

  /** The pieces of the template literal
      `- Viewed/clicked: <year> <make> <model> ($<price>/day, <type>, <location>)`. */
  function LineParts(c: Car): seq<string> {
    [InteractionLinePrefix, IntToDecimal(c.year), " ", c.make, " ", c.model,
     " ($", IntToDecimal(c.pricePerDay), "/day, ", c.category, ", ", c.location, ")"]
  }

  /** The prompt line for one interaction. */
  function InteractionLine(i: Interaction): string {
    Join(LineParts(i.car), "")
  }

  /** Every interaction line starts with the fixed prefix, and it is a single
      line when the car's text fields are. */
  lemma InteractionLineShape(i: Interaction)
    ensures InteractionLinePrefix <= InteractionLine(i)
    ensures SingleLineCar(i.car) ==> '\n' !in InteractionLine(i)
  {
    var parts := LineParts(i.car);
    JoinStartsWithFirst(parts, "");
    if SingleLineCar(i.car) {
      JoinAvoids(parts, "", '\n');
    }
  }

  /** Two interactions whose cars agree on year, make, model, price, type and
      location give the same line: nothing else about the car, and neither the
      timestamp, reaches the prompt. */
  lemma InteractionLineReadsSummaryOnly(a: Interaction, b: Interaction)
    requires a.car.year == b.car.year && a.car.make == b.car.make && a.car.model == b.car.model
    requires a.car.pricePerDay == b.car.pricePerDay && a.car.category == b.car.category
    requires a.car.location == b.car.location
    ensures InteractionLine(a) == InteractionLine(b)
  {
  }

  /** One line per interaction among the last ten, oldest first. */
  function InteractionLines(interactions: seq<Interaction>): (lines: seq<string>)
    ensures |lines| == Min(InteractionWindow, |interactions|)
    ensures forall k {:trigger lines[k]} :: 0 <= k < |lines| ==>
      lines[k] == InteractionLine(interactions[|interactions| - |lines| + k])
  {
    var recent := TakeLast(interactions, InteractionWindow);
    LinesOfSuffix(interactions, recent);
    LinesOf(recent)
  }

  function LinesOf(recent: seq<Interaction>): (lines: seq<string>)
    ensures |lines| == |recent|
    ensures forall k {:trigger lines[k]} :: 0 <= k < |lines| ==> lines[k] == InteractionLine(recent[k])
  {
    seq(|recent|, k requires 0 <= k < |recent| => InteractionLine(recent[k]))
  }

  /** The lines of a suffix, indexed from the end of the whole list. */
  lemma LinesOfSuffix(interactions: seq<Interaction>, recent: seq<Interaction>)
    requires |recent| <= |interactions|
    requires recent == interactions[|interactions| - |recent|..]
    ensures var lines := LinesOf(recent);
      forall k {:trigger lines[k]} :: 0 <= k < |lines| ==>
        lines[k] == InteractionLine(interactions[|interactions| - |lines| + k])
  {
    var lines := LinesOf(recent);
    forall k | 0 <= k < |lines|
      ensures lines[k] == InteractionLine(interactions[|interactions| - |lines| + k])
    {
      assert recent[k] == interactions[|interactions| - |recent| + k];
    }
  }

  /** The system prompt: the base prompt, followed, only when there are
      interactions, by a header and the interaction lines joined by newlines. */
  function SystemPrompt(basePrompt: string, interactions: seq<Interaction>): (p: string)
    ensures basePrompt <= p
    ensures |interactions| > 0 ==> |p| > |basePrompt| + |InteractionsHeader|
    ensures p == basePrompt <==> |interactions| == 0
    ensures |interactions| > 0 ==> p[|basePrompt|..|basePrompt| + |InteractionsHeader|] == InteractionsHeader
  {
    var lines := InteractionLines(interactions);
    if |lines| > 0 then
      var p := basePrompt + InteractionsHeader + Join(lines, "\n");
      assert p[|basePrompt|..|basePrompt| + |InteractionsHeader|] == InteractionsHeader;
      p
    else basePrompt
  }

  /** Reading the prompt back: after the base prompt and the header, the text
      splits on newlines into exactly the lines of the last ten interactions,
      one per interaction and in order, provided the text fields of the cars
      among the last ten are single-line; older cars never reach the prompt. */
  lemma PromptListsRecentInteractions(basePrompt: string, interactions: seq<Interaction>)
    requires |interactions| > 0
    requires forall i :: |interactions| - Min(InteractionWindow, |interactions|) <= i < |interactions| ==>
      SingleLineCar(interactions[i].car)
    ensures var p := SystemPrompt(basePrompt, interactions);
      Split(p[|basePrompt| + |InteractionsHeader|..], '\n') == InteractionLines(interactions)
  {
    var lines := InteractionLines(interactions);
    var p := SystemPrompt(basePrompt, interactions);
    assert p[|basePrompt| + |InteractionsHeader|..] == Join(lines, "\n");
    forall k | 0 <= k < |lines|
      ensures '\n' !in lines[k]
    {
      InteractionLineShape(interactions[|interactions| - |lines| + k]);
    }
    assert "\n" == ['\n'];
    SplitJoin(lines, '\n');
  }

  // ---------------------------------------------------------------------------
  // JSON candidate extraction: the greedy match of /\{[\s\S]*\}/
  // ---------------------------------------------------------------------------

  /** `text[i..j]` is a match of the pattern `\{[\s\S]*\}`: it opens with `{`,
      closes with `}` and has at least those two characters. */
  predicate BraceSpan(text: string, i: int, j: int) {
    0 <= i && i + 2 <= j <= |text| && text[i] == '{' && text[j - 1] == '}'
  }

  /** The span `String.prototype.match` returns for the pattern: the leftmost
      start that admits a match, extended as far right as the pattern allows,
      which is from the first `{` through the last `}`. */
  function GreedyBraceMatch(text: string): (m: Option<(nat, nat)>)
    ensures m.Some? ==> BraceSpan(text, m.value.0, m.value.1)
    ensures m.Some? ==> forall i, j :: i < m.value.0 ==> !BraceSpan(text, i, j)
    ensures m.Some? ==> forall j :: BraceSpan(text, m.value.0, j) ==> j <= m.value.1
    ensures m.None? <==> forall i, j :: !BraceSpan(text, i, j)
  {
    BraceMatchBounds(text);
    match FirstIndex(text, '{')
    case None => None
    case Some(open) =>
      match LastIndex(text, '}')
      case None => None
      case Some(close) => if open < close then Some((open, close + 1)) else None
  }

  lemma BraceMatchBounds(text: string)
    ensures FirstIndex(text, '{').Some? && LastIndex(text, '}').Some? ==>
      var open, close := FirstIndex(text, '{').value, LastIndex(text, '}').value;
      && (forall i, j :: BraceSpan(text, i, j) ==> open <= i && j - 1 <= close)
      && (open < close ==> BraceSpan(text, open, close + 1))
    ensures FirstIndex(text, '{').None? || LastIndex(text, '}').None? ==>
      forall i, j :: !BraceSpan(text, i, j)
  {
  }

  /** `jsonMatch?.[0] ?? text`: the matched span, or the whole text when the
      pattern does not match. */
  function JsonCandidate(text: string): (c: string)
    ensures GreedyBraceMatch(text).None? ==> c == text
    ensures GreedyBraceMatch(text).Some? ==>
      c == text[GreedyBraceMatch(text).value.0..GreedyBraceMatch(text).value.1]
    ensures c != text ==> |c| >= 2 && c[0] == '{' && c[|c| - 1] == '}'
  {
    match GreedyBraceMatch(text)
    case None => text
    case Some((i, j)) => text[i..j]
  }

  /** JSON wrapped in prose or a code fence is recovered exactly: when the text
      before it has no `{` and the text after it has no `}`, the candidate is
      the JSON itself. */
  lemma CandidateSkipsSurroundingProse(prose: string, json: string, trailer: string)
    requires '{' !in prose && '}' !in trailer
    requires |json| >= 2 && json[0] == '{' && json[|json| - 1] == '}'
    ensures JsonCandidate(prose + json + trailer) == json
  {
    var text := prose + json + trailer;
    assert BraceSpan(text, |prose|, |prose| + |json|);
    var m := GreedyBraceMatch(text);
    assert m.Some?;
    assert text[|prose|..|prose| + |json|] == json;
  }

  /** The reply body for the model's raw text: the parsed candidate, unchanged
      and unchecked, or `{message: text}` with the full raw text when parsing
      fails. */
  function ExtractReply(text: string, parse: string -> Option<Json>): (r: Json)
    ensures parse(JsonCandidate(text)).Some? ==> r == parse(JsonCandidate(text)).value
    ensures parse(JsonCandidate(text)).None? ==> r == MessageObject(text)
  {
    match parse(JsonCandidate(text))
    case Some(parsed) => parsed
    case None => MessageObject(text)
  }

  // ---------------------------------------------------------------------------
  // The route
  // ---------------------------------------------------------------------------

  /** The options the route passes to `chat`: the composed system prompt, the
      fixed token budget and the request's history (empty when missing). */
  function GatewayOptions(basePrompt: string, req: ChatRequest): (o: ChatOptions)
    ensures o.maxTokens == Some(ReplyMaxTokens)
    ensures o.history == Some(req.history.GetOr([]))
    ensures o.system == Some(SystemPrompt(basePrompt, req.interactions.GetOr([])))
  {
    ChatOptions(
      Some(SystemPrompt(basePrompt, req.interactions.GetOr([]))),
      Some(ReplyMaxTokens),
      Some(req.history.GetOr([])))
  }

  /** `POST /api/chat`. Without a client the reply is a fixed 503; a gateway
      failure gives a fixed 500; otherwise the extracted reply with status 200. */
  function HandleChat(client: Option<Client>, basePrompt: string, req: ChatRequest,
                      send: RequestParams -> HttpResult, parse: string -> Option<Json>): (r: Response)
    ensures client.None? ==> r == Response(503, MessageObject(NotConfiguredMessage))
    ensures client.Some? ==>
      var outcome := Chat(client.value, req.message, GatewayOptions(basePrompt, req), send);
      && (outcome.Failure? ==> r == Response(500, MessageObject(ConnectionErrorMessage)))
      && (outcome.Success? ==> r == Response(200, ExtractReply(outcome.value, parse)))
  {
    match client
    case None => Response(503, MessageObject(NotConfiguredMessage))
    case Some(c) =>
      match Chat(c, req.message, GatewayOptions(basePrompt, req), send)
      case Failure(_) => Response(500, MessageObject(ConnectionErrorMessage))
      case Success(text) => Response(200, ExtractReply(text, parse))
  }

  /** The status tells the three outcomes apart, and the two error replies
      carry fixed text: they depend neither on the request, nor on what the
      gateway would return, nor on the parser. */
  lemma ErrorRepliesAreFixed(client: Option<Client>, basePrompt: string, req: ChatRequest,
                             send: RequestParams -> HttpResult, parse: string -> Option<Json>,
                             basePrompt': string, req': ChatRequest,
                             send': RequestParams -> HttpResult, parse': string -> Option<Json>)
    ensures var r := HandleChat(client, basePrompt, req, send, parse);
      var r' := HandleChat(client, basePrompt', req', send', parse');
      && (r.status == 200 || r.status == 500 || r.status == 503)
      && (r.status == 503 <==> client.None?)
      && (r.status != 200 && r.status == r'.status ==> r == r')
  {
  }

  /** On success the body is one of exactly two things, and the fallback keeps
      the model's full text, not the candidate span. */
  lemma SuccessReplyIsParsedOrWrapped(client: Client, basePrompt: string, req: ChatRequest,
                                       send: RequestParams -> HttpResult, parse: string -> Option<Json>)
    requires HandleChat(Some(client), basePrompt, req, send, parse).status == 200
    ensures var text := Chat(client, req.message, GatewayOptions(basePrompt, req), send).value;
      var body := HandleChat(Some(client), basePrompt, req, send, parse).body;
      && (body == MessageObject(text) || Some(body) == parse(JsonCandidate(text)))
      && (parse(JsonCandidate(text)).None? ==> body == MessageObject(text))
  {
  }

  /** What the model is asked: the request's history followed by the user's
      message, with a budget of 1024 tokens. */
  lemma GatewaySeesHistory(client: Client, basePrompt: string, req: ChatRequest)
    ensures var p := BuildParams(client.model, req.message, GatewayOptions(basePrompt, req));
      && p.messages == req.history.GetOr([]) + [MessageParam(User, req.message)]
      && p.maxTokens == ReplyMaxTokens
  {
    BuildParamsMessages(client.model, req.message, GatewayOptions(basePrompt, req));
  }

  /** The composed prompt goes out as `system` exactly when it is non-empty,
      so always when the base prompt is non-empty. */
  lemma GatewaySeesPrompt(client: Client, basePrompt: string, req: ChatRequest)
    ensures var p := BuildParams(client.model, req.message, GatewayOptions(basePrompt, req));
      var prompt := SystemPrompt(basePrompt, req.interactions.GetOr([]));
      && (p.system == Some(prompt) <==> prompt != "")
      && (p.system.None? <==> prompt == "")
      && (basePrompt != "" ==> p.system == Some(prompt))
  {
  }
}
