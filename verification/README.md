# churro — a verified model of the chat core

churro is a car-rental web app with a conversational front end. The user
chats with an assistant. The browser sends each message to the server's
`/api/chat` route together with the transcript so far and the user's recent
clicks on car cards. The route composes a system prompt and asks the model
gateway once. It then turns the reply text into a JSON body. The browser
appends the body's `message` to the transcript and switches the panel to the
body's `view`, if it has one.

This project models that core in Dafny and proves properties of it:

| module | file | what it models |
|---|---|---|
| `Wrappers` | `wrappers.dfy` | `Option` and `Result` |
| `Text` | `text.dfy` | the JavaScript string and array primitives the core relies on: `slice` with a negative start, `split`, `join`, `filter(Boolean)`, `trim` with ECMAScript whitespace, decimal rendering of integers |
| `Domain` | `domain.dfy` | the car record, click interactions, chat turns, JSON values, the chat request body |
| `Claude` | `claude.dfy` | the model gateway client: request bodies (`chat`, `makeRequest`), the text projection of a reply, the JSON-lines splitting of batch results |
| `Server` | `server.dfy` | the `/api/chat` route: prompt composition, the greedy `{…}` candidate, the JSON fallback, the 503/500/200 replies |
| `Session` | `session.dfy` | the browser state: the ten-click buffer, `sendMessage` as two transitions, back and book |
| `Comparison` | `comparison.dfy` | the comparison table: best price, most seats, unique features, spec rows |
| `ChatBar` | `chat_bar.dfy` | the input bar: the submit guard, Enter handling, the disabled state, the preview and divider flags |
| `EndToEnd` | `end_to_end.dfy` | properties that span the browser, the route and the gateway |

The network, `JSON.parse`, the clock and `crypto.randomUUID` are not modelled.
They become parameters:
- the HTTP exchange with the gateway is a function `send` from request parameters to a response or a network failure;
- `JSON.parse` is a function `parse` from text to an optional JSON value;
- message ids and timestamps are plain arguments.

Every property holds for every choice of these parameters.

Points where the model follows the code closely:
- The route performs no inventory search or view resolution. It returns the parsed reply JSON unchanged and unchecked.
- The car record has the fields of `CarCard.tsx`: a free-text `type` (here `category`), `pricePerDay`, `range`. It does not have the richer record of `types.ts`.
- The book button opens the car's detail view, not a booking view.
- The comment above `isUnique` says a feature is unique if "at least one other car doesn't have it". The code marks a feature unique when no car with a different id lists it. The model follows the code.
- The comment above the collapsed preview in `ChatBar.tsx` says "Last user message preview". The code previews the last assistant message. `ChatBar.ShowsPreview` and `ChatBar.LastAssistantMessage` follow the code.

## Model

| member | source | states |
|---|---|---|
| Text.TakeLast | src/App.tsx:43 | `slice(-n)` yields the last min(n, length) elements, in order, including the whole list when it is shorter than n |
| Text.Split | src/claude.ts:139 | splitting always yields at least one piece, and no piece contains the separator |
| Text.SplitJoin | src/claude.ts:138-139 | splitting the newline-join of separator-free lines gives back exactly those lines |
| Text.JoinSplit | src/claude.ts:138-139 | joining the pieces of a split with the separator gives back the original text |
| Text.NonEmpty | src/claude.ts:140 | `filter(Boolean)` keeps only non-empty strings taken from the list, and never more of them than the list has |
| Text.NonEmptyKeepsAll | src/claude.ts:140 | a list with no empty string passes the filter unchanged |
| Text.NonEmptyAppend | src/claude.ts:140 | filtering a concatenation is the concatenation of the filtered parts |
| Text.Trim | src/components/ChatBar.tsx:39 | `trim()` removes exactly the leading and trailing ECMAScript whitespace; it is empty iff the input is all whitespace |
| Text.IntToDecimal | src/index.ts:99 | a template literal renders an integer as one or more characters without a newline, all digits iff it is non-negative |
| Text.IntToDecimalValue | src/index.ts:99 | the rendering denotes the number in canonical form: its digits read back as `n`, after a leading minus sign when `n` is negative, and there is no leading zero |
| Text.DecimalRoundTrip | src/index.ts:99 | reading back the decimal rendering of a natural number gives the number |
| Claude.BuildParams | src/claude.ts:99-104 | the request carries the client's model; its messages are the history (empty when missing) followed by the user message; the token budget defaults to 1024; `system` is sent iff given and non-empty |
| Claude.MakeRequest | src/claude.ts:179-197 | a batch request carries the custom id, and its parameters are exactly those `chat` would send |
| Claude.Chat | src/claude.ts:88-109 | it succeeds iff the gateway answers with a 2xx status; a non-2xx status or a network failure is an error that names it; on success the result is the first content block's text, or "" when there is no first block or it has no text |
| Claude.BuildParamsMessages | src/claude.ts:103 | the messages sent are the history option (empty when missing) followed by the user message, whatever the other options |
| Claude.BatchLines | src/claude.ts:138-140 | every line taken from a JSON-lines body is non-empty and holds no newline |
| Claude.ParseLines | src/claude.ts:141 | parsing succeeds iff every line parses; the results are the lines' parses, one per line, in order; a failure names the first line that does not parse, every earlier line parsing |
| Claude.GetBatchResults | src/claude.ts:132-142 | a non-2xx status is an HTTP error; otherwise every non-empty line parses to one result, in order, or the call fails with the parse error of the first line that does not parse |
| Claude.BatchLinesSkipBlankLines | src/claude.ts:138-140 | when the body is newline-separated pieces, blank ones included, the lines read back are exactly the non-empty pieces, in order |
| Claude.BatchLinesOfAnyBody | src/claude.ts:138-140 | every body is the newline-join of its split pieces; the second half only unfolds the definition of `BatchLines`, so that `BatchLinesSkipBlankLines` applies to every body |
| Claude.BatchLinesOfJsonLines | src/claude.ts:137-141 | a body of non-empty single-line records joined by newlines splits back into exactly those records, with or without a trailing newline |
| Server.InteractionLineShape | src/index.ts:99 | each interaction line starts with `- Viewed/clicked: ` and holds no newline when the car's text fields hold none |
| Server.InteractionLineReadsSummaryOnly | src/index.ts:99 | the line depends only on the car's year, make, model, price, type and location |
| Server.InteractionLines | src/index.ts:97-99 | there is one line per interaction among the last ten, and line k describes the k-th of them, oldest first |
| Server.SystemPrompt | src/index.ts:101-103 | the prompt extends the base prompt; it equals it iff there are no interactions; otherwise the header follows the base prompt |
| Server.PromptListsRecentInteractions | src/index.ts:97-103 | the text after the base prompt and header splits on newlines into exactly the interaction lines of the last ten interactions, when the cars among the last ten have single-line text fields; older cars may hold anything |
| Server.GreedyBraceMatch | src/index.ts:114 | the match of `\{[\s\S]*\}` starts at the leftmost position any match can start and ends at the rightmost position any match from there can end; it is absent iff no `{…}` span exists |
| Server.JsonCandidate | src/index.ts:114-115 | the parser receives the matched span, or the whole text when nothing matches; a candidate other than the text starts with `{` and ends with `}` |
| Server.CandidateSkipsSurroundingProse | src/index.ts:113-115 | JSON wrapped in prose or a code fence without braces of its own is recovered exactly |
| Server.ExtractReply | src/index.ts:112-119 | the reply is the parsed candidate when it parses, and `{message: text}` with the full text otherwise |
| Server.GatewayOptions | src/index.ts:105-110 | the route passes the composed prompt, a budget of 1024 and the request's history, empty when missing |
| Server.HandleChat | src/index.ts:85-123 | no client gives a fixed 503; a gateway error gives a fixed 500; otherwise 200 with the extracted reply |
| Server.ErrorRepliesAreFixed | src/index.ts:86-122 | the status is 200, 500 or 503; 503 iff no client; two error replies with the same status are identical whatever the request, gateway or parser |
| Server.SuccessReplyIsParsedOrWrapped | src/index.ts:112-119 | a 200 body is either the parse of the candidate or `{message: text}`, and it is the latter whenever the candidate does not parse |
| Server.GatewaySeesHistory | src/index.ts:105-110 | the gateway receives the request's history followed by the user message, with a budget of 1024 tokens |
| Server.GatewaySeesPrompt | src/index.ts:101-110 | the composed prompt goes out as `system` exactly when it is non-empty |
| Session.Initial | src/App.tsx:26-29 | the session starts with no messages, no clicks, no loading and the empty view |
| Session.PushInteraction | src/App.tsx:41-44 | a click appends the new interaction after at most nine of the newest ones, so the buffer never exceeds ten |
| Session.PushDropsOldestOnlyWhenFull | src/App.tsx:43 | on a full buffer a click drops exactly the oldest entry; below capacity nothing is dropped |
| Session.ReplayKeepsLastTen | src/App.tsx:40-44 | after any sequence of clicks the buffer is exactly the last ten clicks in click order |
| Session.HandleCarInteract | src/App.tsx:40-46 | a click records the interaction and opens that car's detail view, leaving the transcript alone |
| Session.OnBack | src/App.tsx:154 | back returns to the empty view and changes nothing else |
| Session.OnBook | src/App.tsx:155 | book opens the car's detail view, not a booking view, and changes nothing else |
| Session.ToParams | src/App.tsx:66 | the history sent is the transcript's role and content, one entry per message, in order |
| Session.BeginSend | src/App.tsx:50-68 | sending appends the user's message and sets loading; the request carries the transcript from before the message and the current clicks |
| Session.CompleteSend | src/App.tsx:71-97 | a 2xx reply appends its message and replaces the view only when the reply names one; any other outcome appends the fixed error text and keeps the view; loading ends either way |
| Session.SendMessage | src/App.tsx:48-100 | a full send grows the transcript by the user's message then one assistant message, and keeps the clicks |
| Session.ViewChangesOnlyOnReplyWithView | src/App.tsx:84-86 | the view changes only when a 2xx reply carries a view, and then becomes that view |
| Comparison.LowestPrice | src/components/CarComparison.tsx:11 | the lowest price is at most every car's price and is some car's price; it is absent iff there are no cars |
| Comparison.HighestSeats | src/components/CarComparison.tsx:12 | the highest seat count is at least every car's and is some car's; it is absent iff there are no cars |
| Comparison.ShowsBestPrice | src/components/CarComparison.tsx:80-85 | a car shows the badge iff more than one car is compared and no car is cheaper |
| Comparison.SeatsHighlighted | src/components/CarComparison.tsx:25 | a seats cell is highlighted iff no car has more seats |
| Comparison.BestPriceBadgeCoverage | src/components/CarComparison.tsx:80-85 | with two or more cars some car shows the badge, equal prices agree on it, and a lone car never shows it |
| Comparison.SeatsHighlightCoverage | src/components/CarComparison.tsx:12-28 | some car is always highlighted when any is compared, and equal seat counts agree on it |
| Comparison.OtherCars | src/components/CarComparison.tsx:17 | the other cars are exactly the cars with a different id |
| Comparison.SomeListsFeature | src/components/CarComparison.tsx:17 | true iff some car lists the feature |
| Comparison.IsUnique | src/components/CarComparison.tsx:15-17 | a feature is unique to a car iff no car with a different id lists it |
| Comparison.UniquenessIsKeyedOnId | src/components/CarComparison.tsx:16-17 | adding a car with the same id never changes uniqueness; adding one with another id that lists the feature cancels it |
| Comparison.SpecRows | src/components/CarComparison.tsx:19-31 | the table has the five spec rows with one cell per car, in order, each showing that car's own field, and the seats cell highlighted iff no car has more seats |
| Comparison.FeatureTags | src/components/CarComparison.tsx:105-119 | each car gets one tag per listed feature, in order, marked iff no car with a different id lists it |
| ChatBar.HandleSubmit | src/components/ChatBar.tsx:38-46 | a submit sends the trimmed input and clears the box iff the input is not all whitespace and no reply is loading; otherwise nothing changes |
| ChatBar.DisabledExactlyWhenSubmitIsNoOp | src/components/ChatBar.tsx:132 | the send button is disabled exactly when pressing it would do nothing |
| ChatBar.HandleKeyDown | src/components/ChatBar.tsx:48-53 | Enter without Shift submits; any other key leaves the input to the textarea |
| ChatBar.LastAssistantMessage | src/components/ChatBar.tsx:18 | the preview shows the last assistant message; it is absent iff the transcript has none |
| ChatBar.Placeholder | src/components/ChatBar.tsx:63-66 | the first-prompt placeholder shows iff the transcript is empty |
| ChatBar.HasAboveContent | src/components/ChatBar.tsx:68-70 | expanded (focused or loading), there is content above iff there are messages or a pending reply; collapsed, iff some message is from the assistant |
| ChatBar.DividerSeparatesShownContent | src/components/ChatBar.tsx:68-109 | the divider is drawn exactly when the history panel or the collapsed preview is |
| EndToEnd.ModelSeesTranscriptWithNewMessage | src/App.tsx:57-67 | the conversation the model receives is the session's transcript including the message just sent |
| EndToEnd.PromptCoversWholeBuffer | src/App.tsx:40-44 | the route's ten-interaction window drops none of the buffered clicks: one prompt line per click, in click order |
| EndToEnd.ChatBarCannotSendWhileLoading | src/components/ChatBar.tsx:38-53 | while a reply is pending neither the chat bar's button nor Enter can send, and the button is disabled; the empty view's suggested prompts are not guarded and not covered |
| EndToEnd.RouteErrorsShowClientErrorText | src/App.tsx:71-94 | a 503 or 500 from the route shows the client's own fixed error text and leaves the view alone |

## Left out

- The `fetch` calls and their headers, including the API key and the version headers, are not modelled. The gateway's answer is the `send` parameter.
- The client constructor's environment lookup (`src/claude.ts:64-68`) and the route's client creation (`src/index.ts:72-77`) are not modelled. A missing key appears as `client == None`.
- `createBatch`, `getBatchStatus`, `pollBatch` and `submitAndWait` are left out. They are plain HTTP calls, and a polling loop whose waiting is wall-clock time.
- Decoding of the gateway's response body is not modelled: `res.json()` in `chat` is assumed to yield the content blocks. Decoding of the route's reply in the browser is not modelled either: the reply is assumed to carry a string `message` and an optional `view`.
- The inventory and the base system prompt (`src/index.ts:7-69`) are not modelled. The prompt is the parameter `basePrompt`.
- Text.IntToDecimal: renders every integer in plain decimal. JavaScript writes numbers of magnitude 1e21 or more in exponent form (`${1e21}` is `"1e+21"`) and rounds integers beyond 2^53. Prices and years of that size are not modelled.
- Ratings are left out because they are floating point: `highestRating`, the rating row, `toFixed(2)`. Prices, years and seat counts are integers here, and a fractional price would render differently in `${…}`.
- The car fields are assumed to be present. A missing field would render as `undefined` in an interaction line; the model does not cover that.
- Logging is left out: the `console.warn`, `console.error` and `console.log` calls (`src/index.ts:76`, `src/index.ts:121`, `src/index.ts:134`, `src/claude.ts:151-154`, `src/claude.ts:168`) have no effect on the values computed.
- React rendering is left out: markup, CSS classes, row alternation, the hint text, textarea auto-resize, the theme toggle, `RenderSpace` and `CarCard`.
- The chat bar's focus is a parameter `hasFocus`. The effects that change it or depend on the DOM are left out: `onFocus` setting it (`src/components/ChatBar.tsx:120`), the document `mousedown` listener clearing it on a click outside the bar (`src/components/ChatBar.tsx:21-29`), and the scroll-to-bottom effect (`src/components/ChatBar.tsx:32-36`).
- JSON numbers are integers in `Domain.Json`, and strings are sequences of Unicode scalar values rather than UTF-16 code units, so a lone surrogate (from a `\uD800` escape in a reply) has no counterpart. No stated property depends on either.
- Session.SendMessage: models one send with nothing in between. Interleaved concurrent sends and the stale `messages` closure are left out, because they depend on React's scheduling.
- Server.HandleChat: the route can throw before its `try`. That happens when the body is not valid JSON (`src/index.ts:90`). It also happens while building the interaction lines (`src/index.ts:97-99`), when `interactions` is `null` or not an array, or an element has no `car`. The server's default error handling then answers, not the fixed 500. The model takes the request as already decoded and well-formed, so these paths are not modelled.
- Comparison with an empty car list is modelled with absent minimum and maximum values. They stand in for `Math.min()`/`Math.max()` of nothing, ±Infinity, which also equal no car's value.
