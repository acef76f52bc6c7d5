/** Properties that span the browser session, the chat bar and the server
    route: what the model gets to see of a session, and how the route's
    error replies surface in the transcript. */
module EndToEnd {
  import opened Wrappers
  import opened Domain
  import opened Claude
  import opened Server
  import opened Session
  import opened ChatBar

  /** The conversation the model receives is the session's transcript
      including the message just sent: the client sends the transcript from
      before the message, and the server appends the message itself. */
  lemma ModelSeesTranscriptWithNewMessage(s: State, content: string, id: string, at: int,
                                          client: Client, basePrompt: string)
    ensures var (mid, req) := BeginSend(s, content, id, at);
      BuildParams(client.model, req.message, GatewayOptions(basePrompt, req)).messages
        == ToParams(mid.messages)
  {
    var req := BeginSend(s, content, id, at).1;
    var options := GatewayOptions(basePrompt, req);
    assert options.history == Some(ToParams(s.messages));
    BuildParamsMessages(client.model, req.message, options);
    SentTranscript(s, content, id, at);
  }

  lemma SentTranscript(s: State, content: string, id: string, at: int)
    ensures ToParams(BeginSend(s, content, id, at).0.messages)
         == ToParams(s.messages) + [MessageParam(User, content)]
  {
    var sent := Message(id, User, content, at);
    ToParamsAppend(s.messages, [sent]);
    assert ToParams([sent]) == [MessageParam(User, content)];
  }

  /** The client's buffer never holds more than ten clicks, so the server's
      window drops none of them: the prompt gets one line per buffered click,
      in click order. */
  lemma PromptCoversWholeBuffer(s: State, car: Car, timestamp: string)
    ensures var buffer := HandleCarInteract(s, car, timestamp).interactions;
      var lines := InteractionLines(buffer);
      && |lines| == |buffer|
      && forall k :: 0 <= k < |lines| ==> lines[k] == InteractionLine(buffer[k])
  {
    var buffer := HandleCarInteract(s, car, timestamp).interactions;
    var lines := InteractionLines(buffer);
    assert |lines| == |buffer|;
    forall k | 0 <= k < |lines|
      ensures lines[k] == InteractionLine(buffer[k])
    {
      assert lines[k] == InteractionLine(buffer[|buffer| - |lines| + k]);
    }
  }

  /** While a reply is pending the chat bar cannot send another message,
      whatever is typed, by button or by Enter. The empty view's suggested
      prompts call `sendMessage` without this guard and are not covered. */
  lemma ChatBarCannotSendWhileLoading(s: State, content: string, id: string, at: int,
                                      input: string, key: string, shiftKey: bool)
    ensures var mid := BeginSend(s, content, id, at).0;
      && HandleSubmit(input, mid.loading).sent.None?
      && HandleKeyDown(key, shiftKey, input, mid.loading).1.sent.None?
      && SendDisabled(input, mid.loading)
  {
  }

  /** A 503 or 500 from the route reaches the transcript as the client's own
      fixed error text, not the route's message, and leaves the view alone. */
  lemma RouteErrorsShowClientErrorText(s: State, client: Option<Client>, basePrompt: string,
                                       req: ChatRequest, send: RequestParams -> HttpResult,
                                       parse: string -> Option<Json>, data: ReplyData,
                                       id: string, at: int)
    requires HandleChat(client, basePrompt, req, send, parse).status != 200
    ensures var r := HandleChat(client, basePrompt, req, send, parse);
      var s' := CompleteSend(s, Responded(r.status, data), id, at);
      && s'.messages == s.messages + [Message(id, Assistant, ConnectionErrorText, at)]
      && s'.view == s.view
  {
    var r := HandleChat(client, basePrompt, req, send, parse);
    ErrorRepliesAreFixed(client, basePrompt, req, send, parse, basePrompt, req, send, parse);
    var s' := CompleteSend(s, Responded(r.status, data), id, at);
    assert s'.messages == s'.messages[..|s.messages|] + [s'.messages[|s.messages|]];
  }
}
