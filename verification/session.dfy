/** The browser session state of the app: the chat transcript, the current
    view, the loading flag and the bounded buffer of recent car clicks, with
    the transitions the UI performs on them. Identifiers and timestamps come
    from `crypto.randomUUID` and the clock and are opaque parameters here. */
module Session {
  import opened Wrappers
  import opened Text
  import opened Domain
  import Claude

  /** The click buffer holds at most this many interactions. */
  const BufferCapacity := 10

  /** The assistant text appended when a request fails. */
  const ConnectionErrorText := "I'm having trouble connecting right now. Please try again."

  /** A transcript entry. */
  datatype Message = Message(id: string, role: Role, content: string, timestamp: int)

  datatype ViewKind = EmptyView | CarsView | MapView | BookingView | CarDetailView | ComparisonView

  /** The payload of a view: none, the one car a detail view shows, or
      whatever JSON the server's reply carried. */
  datatype ViewData = NoData | CarData(car: Car) | Payload(json: Json)

  datatype View = View(kind: ViewKind, data: ViewData)

  datatype State = State(
    messages: seq<Message>,
    view: View,
    loading: bool,
    interactions: seq<Interaction>
  )

  /** The state on first render. */
  function Initial(): (s: State)
    ensures s.messages == [] && s.interactions == [] && !s.loading
    ensures s.view.kind == EmptyView
  {
    State([], View(EmptyView, NoData), false, [])
  }

  // ---------------------------------------------------------------------------
  // Car clicks
  // ---------------------------------------------------------------------------

  /** `[...prev.slice(-9), next]`: keep the nine newest, append the new one. */
  function PushInteraction(buffer: seq<Interaction>, next: Interaction): (r: seq<Interaction>)
    ensures |r| == Min(|buffer|, BufferCapacity - 1) + 1
    ensures |r| <= BufferCapacity
    ensures r[|r| - 1] == next
    ensures r[..|r| - 1] == buffer[|buffer| - (|r| - 1)..]
  {
    var r := TakeLast(buffer, BufferCapacity - 1) + [next];
    assert r[..|r| - 1] == TakeLast(buffer, BufferCapacity - 1);
    r
  }

  /** On a full buffer a click drops exactly the oldest entry; below capacity
      nothing is dropped. */
  lemma PushDropsOldestOnlyWhenFull(buffer: seq<Interaction>, next: Interaction)
    ensures |buffer| == BufferCapacity ==> PushInteraction(buffer, next) == buffer[1..] + [next]
    ensures |buffer| < BufferCapacity ==> PushInteraction(buffer, next) == buffer + [next]
  {
    var r := PushInteraction(buffer, next);
    assert r == r[..|r| - 1] + [r[|r| - 1]];
  }

  /** The buffer after a sequence of clicks on an initially empty buffer. */
  function Replay(clicks: seq<Interaction>): seq<Interaction>
    decreases |clicks|
  {
    if |clicks| == 0 then [] else PushInteraction(Replay(clicks[..|clicks| - 1]), clicks[|clicks| - 1])
  }

  /** However many clicks happen, the buffer holds the last ten of them, in
      click order: a FIFO window that drops the oldest first. */
  lemma {:induction false} ReplayKeepsLastTen(clicks: seq<Interaction>)
    ensures Replay(clicks) == TakeLast(clicks, BufferCapacity)
    decreases |clicks|
  {
    if |clicks| > 0 {
      var prefix := clicks[..|clicks| - 1];
      var last := clicks[|clicks| - 1];
      assert clicks == prefix + [last];
      calc {
        Replay(clicks);
        PushInteraction(Replay(prefix), last);
        { ReplayKeepsLastTen(prefix); }
        PushInteraction(TakeLast(prefix, BufferCapacity), last);
        TakeLast(TakeLast(prefix, BufferCapacity), BufferCapacity - 1) + [last];
        { WindowStep(prefix, last); }
        TakeLast(prefix + [last], BufferCapacity);
      }
    }
  }

  /** Pushing onto the last ten of `xs` gives the last ten of `xs + [x]`. */
  lemma WindowStep<T>(xs: seq<T>, x: T)
    ensures TakeLast(TakeLast(xs, BufferCapacity), BufferCapacity - 1) + [x]
         == TakeLast(xs + [x], BufferCapacity)
  {
    var k := Min(BufferCapacity - 1, |xs|);
    WindowOfWindow(xs, k);
    WindowOfAppend(xs, x, k);
  }

  lemma WindowOfWindow<T>(xs: seq<T>, k: int)
    requires k == Min(BufferCapacity - 1, |xs|)
    ensures TakeLast(TakeLast(xs, BufferCapacity), BufferCapacity - 1) == xs[|xs| - k..]
  {
    var b := TakeLast(xs, BufferCapacity);
    assert b == xs[|xs| - |b|..];
    assert TakeLast(b, BufferCapacity - 1) == b[|b| - k..];
  }

  lemma WindowOfAppend<T>(xs: seq<T>, x: T, k: int)
    requires k == Min(BufferCapacity - 1, |xs|)
    ensures TakeLast(xs + [x], BufferCapacity) == xs[|xs| - k..] + [x]
  {
    var w := TakeLast(xs + [x], BufferCapacity);
    assert w == (xs + [x])[|xs| - k..];
  }

  /** `handleCarInteract`: record the click and open that car's detail view. */
  function HandleCarInteract(s: State, car: Car, timestamp: string): (s': State)
    ensures s'.interactions == PushInteraction(s.interactions, Interaction(car, timestamp))
    ensures s'.view == View(CarDetailView, CarData(car))
    ensures s'.messages == s.messages && s'.loading == s.loading
  {
    s.(interactions := PushInteraction(s.interactions, Interaction(car, timestamp)),
       view := View(CarDetailView, CarData(car)))
  }

  /** The comparison and detail panels' back button. */
  function OnBack(s: State): (s': State)
    ensures s'.view == View(EmptyView, NoData)
    ensures s'.messages == s.messages && s'.loading == s.loading && s'.interactions == s.interactions
  {
    s.(view := View(EmptyView, NoData))
  }

  /** The book button: it opens the car's detail view, not a booking view. */
  function OnBook(s: State, car: Car): (s': State)
    ensures s'.view.kind == CarDetailView && s'.view.kind != BookingView
    ensures s'.view.data == CarData(car)
    ensures s'.messages == s.messages && s'.loading == s.loading && s'.interactions == s.interactions
  {
    s.(view := View(CarDetailView, CarData(car)))
  }

  // ---------------------------------------------------------------------------
  // Sending a message
  // ---------------------------------------------------------------------------

  /** `messages.map(m => ({role, content}))`. */
  function ToParams(messages: seq<Message>): (ps: seq<MessageParam>)
    ensures |ps| == |messages|
    ensures forall i {:trigger ps[i]} :: 0 <= i < |ps| ==>
      ps[i] == MessageParam(messages[i].role, messages[i].content)
  {
    seq(|messages|, i requires 0 <= i < |messages| => MessageParam(messages[i].role, messages[i].content))
  }

  lemma ToParamsAppend(xs: seq<Message>, ys: seq<Message>)
    ensures ToParams(xs + ys) == ToParams(xs) + ToParams(ys)
  {
    var l, r := ToParams(xs + ys), ToParams(xs) + ToParams(ys);
    forall i | 0 <= i < |l|
      ensures l[i] == r[i]
    {
      if i < |xs| {
        assert r[i] == ToParams(xs)[i];
      } else {
        assert r[i] == ToParams(ys)[i - |xs|];
      }
    }
  }

  /** The reply body the client reads from a successful response. */
  datatype ReplyData = ReplyData(message: string, view: Option<View>)

  /** What `fetch` produced: a response with its status and decoded body, or
      a rejection (network failure or an unreadable body). */
  datatype FetchOutcome = Responded(status: int, data: ReplyData) | FetchFailed

  /** The first half of `sendMessage`: append the user's message, set the
      loading flag and build the request, whose history is the transcript as
      it was before this message. */
  function BeginSend(s: State, content: string, id: string, at: int): (out: (State, ChatRequest))
    ensures out.0.messages == s.messages + [Message(id, User, content, at)]
    ensures out.0.loading
    ensures out.0.view == s.view && out.0.interactions == s.interactions
    ensures out.1 == ChatRequest(content, Some(ToParams(s.messages)), Some(s.interactions))
  {
    (s.(messages := s.messages + [Message(id, User, content, at)], loading := true),
     ChatRequest(content, Some(ToParams(s.messages)), Some(s.interactions)))
  }

  /** The second half of `sendMessage`: a 2xx response appends the reply and
      replaces the view only when the reply carries one; a non-2xx status or a
      rejection appends the fixed error text. Loading ends either way. */
  function CompleteSend(s: State, outcome: FetchOutcome, id: string, at: int): (s': State)
    ensures !s'.loading
    ensures s'.interactions == s.interactions
    ensures |s'.messages| == |s.messages| + 1 && s'.messages[..|s.messages|] == s.messages
    ensures s'.messages[|s.messages|].role == Assistant
    ensures outcome.Responded? && Claude.IsOk(outcome.status) ==>
      && s'.messages[|s.messages|].content == outcome.data.message
      && s'.view == outcome.data.view.GetOr(s.view)
    ensures !(outcome.Responded? && Claude.IsOk(outcome.status)) ==>
      s'.messages[|s.messages|].content == ConnectionErrorText && s'.view == s.view
  {
    var ok := outcome.Responded? && Claude.IsOk(outcome.status);
    var text := if ok then outcome.data.message else ConnectionErrorText;
    var view := if ok && outcome.data.view.Some? then outcome.data.view.value else s.view;
    var messages := s.messages + [Message(id, Assistant, text, at)];
    assert messages[..|s.messages|] == s.messages;
    s.(messages := messages, view := view, loading := false)
  }

  /** `sendMessage` from start to finish, with no other update interleaved:
      the transcript grows by the user's message then one assistant message,
      and the request carried the transcript from before. */
  function SendMessage(s: State, content: string, outcome: FetchOutcome,
                       userId: string, userAt: int, replyId: string, replyAt: int): (out: (State, ChatRequest))
    ensures var s' := out.0;
      && |s'.messages| == |s.messages| + 2
      && s'.messages[..|s.messages|] == s.messages
      && s'.messages[|s.messages|] == Message(userId, User, content, userAt)
      && s'.messages[|s.messages| + 1].role == Assistant
      && !s'.loading
      && s'.interactions == s.interactions
    ensures out.1.history == Some(ToParams(s.messages))
    ensures out.1.message == content
  {
    var (mid, req) := BeginSend(s, content, userId, userAt);
    var s' := CompleteSend(mid, outcome, replyId, replyAt);
    assert s'.messages[..|mid.messages|] == mid.messages;
    assert s'.messages[..|s.messages|] == mid.messages[..|s.messages|];
    (s', req)
  }

  /** Only a successful reply that names a view changes the view; every
      failure leaves it as it was. */
  lemma ViewChangesOnlyOnReplyWithView(s: State, outcome: FetchOutcome, id: string, at: int)
    ensures CompleteSend(s, outcome, id, at).view != s.view ==>
      && outcome.Responded? && Claude.IsOk(outcome.status)
      && outcome.data.view == Some(CompleteSend(s, outcome, id, at).view)
  {
  }
}
