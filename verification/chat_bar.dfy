/** The chat bar's logic: the submit guard shared by the send button, the
    Enter key and the disabled state, and the flags derived from the
    transcript that decide what is shown above the input. */
module ChatBar {
  import opened Wrappers
  import opened Text
  import opened Domain
  import opened Session

  const FirstPromptPlaceholder := "Where would you like to go? Ask me anything about cars\U{2026}"

  const FollowUpPlaceholder := "Ask a follow-up\U{2026}"

  // ---------------------------------------------------------------------------
  // Submitting
  // ---------------------------------------------------------------------------

  /** What a submit attempt did: the text handed to `onSend`, if any, and the
      input box's contents afterwards. */
  datatype Submit = Submit(sent: Option<string>, input: string)

  /** `handleSubmit`: send the trimmed input and clear the box, unless the
      trimmed input is empty or a reply is loading, in which case nothing
      happens. */
  function HandleSubmit(input: string, isLoading: bool): (r: Submit)
    ensures r.sent.Some? <==> !AllWhitespace(input) && !isLoading
    ensures r.sent.Some? ==> r.sent.value == Trim(input) && r.input == ""
    ensures r.sent.Some? ==> |r.sent.value| > 0 && !IsJsWhitespace(r.sent.value[0])
    ensures r.sent.None? ==> r.input == input
  {
    var trimmed := Trim(input);
    if trimmed == "" || isLoading then Submit(None, input) else Submit(Some(trimmed), "")
  }

  /** `disabled={!input.trim() || isLoading}` on the send button. */
  function SendDisabled(input: string, isLoading: bool): bool {
    Trim(input) == "" || isLoading
  }

  /** The send button is disabled exactly when pressing it would do nothing. */
  lemma DisabledExactlyWhenSubmitIsNoOp(input: string, isLoading: bool)
    ensures SendDisabled(input, isLoading) <==> HandleSubmit(input, isLoading) == Submit(None, input)
  {
  }

  /** `handleKeyDown`: Enter without Shift submits (and suppresses the newline);
      any other key, Shift+Enter included, leaves everything to the textarea. */
  function HandleKeyDown(key: string, shiftKey: bool, input: string, isLoading: bool): (r: (bool, Submit))
    ensures r.0 <==> key == "Enter" && !shiftKey
    ensures r.0 ==> r.1 == HandleSubmit(input, isLoading)
    ensures !r.0 ==> r.1 == Submit(None, input)
  {
    if key == "Enter" && !shiftKey then (true, HandleSubmit(input, isLoading))
    else (false, Submit(None, input))
  }

  // ---------------------------------------------------------------------------
  // Derived flags
  // ---------------------------------------------------------------------------

  function IsExpanded(hasFocus: bool, isLoading: bool): bool {
    hasFocus || isLoading
  }

  /** `[...messages].reverse().find(m => m.role === "assistant")`. */
  function LastAssistantMessage(messages: seq<Message>): (r: Option<Message>)
    ensures r.None? <==> forall i :: 0 <= i < |messages| ==> messages[i].role != Assistant
    ensures r.Some? ==> r.value.role == Assistant
    ensures r.Some? ==> exists i :: 0 <= i < |messages| && messages[i] == r.value &&
                          forall j :: i < j < |messages| ==> messages[j].role != Assistant
  {
    if |messages| == 0 then None
    else if messages[|messages| - 1].role == Assistant then Some(messages[|messages| - 1])
    else
      var r := LastAssistantMessage(messages[..|messages| - 1]);
      assert forall i :: 0 <= i < |messages| - 1 ==> messages[..|messages| - 1][i] == messages[i];
      r
  }

  function Placeholder(messages: seq<Message>): (p: string)
    ensures p == FirstPromptPlaceholder <==> |messages| == 0
  {
    if |messages| == 0 then FirstPromptPlaceholder else FollowUpPlaceholder
  }

  /** The full history panel is rendered. */
  function ShowsHistory(messages: seq<Message>, hasFocus: bool, isLoading: bool): bool {
    IsExpanded(hasFocus, isLoading) && (|messages| > 0 || isLoading)
  }

  /** The collapsed preview of the last assistant reply is rendered. */
  function ShowsPreview(messages: seq<Message>, hasFocus: bool, isLoading: bool): bool {
    !IsExpanded(hasFocus, isLoading) && LastAssistantMessage(messages).Some?
  }

  /** `hasAboveContent`, which decides the divider above the input. */
  function HasAboveContent(messages: seq<Message>, hasFocus: bool, isLoading: bool): (b: bool)
    ensures IsExpanded(hasFocus, isLoading) ==> (b <==> |messages| > 0 || isLoading)
    ensures !IsExpanded(hasFocus, isLoading) ==>
      (b <==> exists i :: 0 <= i < |messages| && messages[i].role == Assistant)
  {
    if IsExpanded(hasFocus, isLoading) then |messages| > 0 || isLoading
    else LastAssistantMessage(messages).Some?
  }

  /** The divider is drawn exactly when the history panel or the preview is. */
  lemma DividerSeparatesShownContent(messages: seq<Message>, hasFocus: bool, isLoading: bool)
    ensures HasAboveContent(messages, hasFocus, isLoading)
        <==> ShowsHistory(messages, hasFocus, isLoading) || ShowsPreview(messages, hasFocus, isLoading)
  {
  }
}
