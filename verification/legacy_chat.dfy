/**
 * The older chat component: the same submit state machine as `useChat`
 * without persistence or history (the request carries only the query), and
 * its view, which shows an about card for an empty conversation.
 */
module LegacyChat {
  import opened Options
  import opened JsText
  import opened Messages
  import opened StreamDecode
  import QueryRoute
  import MessageList
  import UseChat

  /** The component's state and the queries it has sent. */
  datatype LegacyState = LegacyState(messages: seq<Message>, loading: bool, input: string, sent: seq<string>)

  /** `!input.trim() || isLoading`: the early return. */
  predicate Guarded(st: LegacyState) {
    Trim(st.input) == [] || st.loading
  }

  /** Everything before the `try`: loading on, the two new turns, the input cleared, the query sent. */
  function Begin(st: LegacyState): LegacyState {
    LegacyState(st.messages + [Message(User, st.input), Message(Assistant, "")], true, "", st.sent + [st.input])
  }

  /** The `try`/`catch`: read the answer into the placeholder, or fall back; nothing more is sent. */
  function Settle(st: LegacyState, reply: Reply): (r: LegacyState)
    ensures r.sent == st.sent && r.input == st.input && r.loading == st.loading
  {
    match reply
    case Rejected => st.(messages := UseChat.WithFallback(st.messages))
    case NotOk => st.(messages := UseChat.WithFallback(st.messages))
    case NoBody => st
    case Body(received, broken) =>
      var p := ApplyReads(Progress(st.messages, ""), received);
      st.(messages := if broken then UseChat.WithFallback(p.messages) else p.messages)
  }

  /**
   * One call of `handleSubmit`; the `finally` clears the loading flag. The
   * state changes exactly when the guard lets the submit through, and then
   * exactly one query goes out.
   */
  function Submit(st: LegacyState, reply: Reply): (r: LegacyState)
    ensures r == st <==> Guarded(st)
    ensures |r.sent| == |st.sent| + (if Guarded(st) then 0 else 1)
  {
    if Guarded(st) then st else Settle(Begin(st), reply).(loading := false)
  }

  /** The body the query endpoint reads from a query this component sends: no history. */
  function RouteBody(query: string): QueryRoute.QueryBody {
    QueryRoute.QueryBody(query, None)
  }

  /** Input that is not blank, with nothing loading, passes the guard. */
  lemma SubmitPassesGuard(st: LegacyState, reply: Reply)
    requires !IsBlank(st.input) && !st.loading
    ensures Submit(st, reply) == Settle(Begin(st), reply).(loading := false)
  {
    TrimEmptyIffBlank(st.input);
  }

  /** Blank input or a request in flight: nothing changes and nothing is sent. */
  lemma GuardedSubmitChangesNothing(st: LegacyState, reply: Reply)
    requires IsBlank(st.input) || st.loading
    ensures Submit(st, reply) == st
  {
    TrimEmptyIffBlank(st.input);
  }

  /**
   * Settling rewrites only the placeholder turn, which stays the
   * assistant's, and sends nothing more.
   */
  lemma SettleKeepsEarlierTurns(b: LegacyState, reply: Reply)
    requires |b.messages| >= 1 && b.messages[|b.messages| - 1] == Message(Assistant, "")
    ensures var s := Settle(b, reply);
      && |s.messages| == |b.messages|
      && s.messages[..|b.messages| - 1] == b.messages[..|b.messages| - 1]
      && s.messages[|b.messages| - 1].role == Assistant
      && s.sent == b.sent && s.input == b.input
  {
    match reply
    case Body(received, broken) =>
      var p := ApplyReads(Progress(b.messages, ""), received);
      UseChat.ReadsKeepEarlier(b.messages, received, p.messages);
      if broken {
        UseChat.FallbackKeepsEarlier(p.messages, UseChat.WithFallback(p.messages));
      }
    case NoBody =>
    case _ =>
      UseChat.FallbackKeepsEarlier(b.messages, UseChat.WithFallback(b.messages));
  }

  /**
   * A started submit sends the query text alone, appends the user turn and
   * an assistant turn, leaves earlier messages alone, clears the input and
   * ends with loading off, whatever the reply.
   */
  lemma SubmitStartsExchange(st: LegacyState, reply: Reply)
    requires !IsBlank(st.input) && !st.loading
    ensures var r := Submit(st, reply);
      && r.sent == st.sent + [st.input]
      && |r.messages| == |st.messages| + 2
      && r.messages[..|st.messages|] == st.messages
      && r.messages[|st.messages|] == Message(User, st.input)
      && r.messages[|st.messages| + 1].role == Assistant
      && r.input == []
      && !r.loading
  {
    SubmitPassesGuard(st, reply);
    var b := Begin(st);
    var n := |st.messages|;
    SettleKeepsEarlierTurns(b, reply);
    var s := Settle(b, reply);
    UseChat.KeepsEarlier(s.messages, st.messages, Message(User, st.input), Message(Assistant, ""));
  }

  /** The pipeline behind a legacy query sees the text and no history. */
  lemma QueryReachesPipelineWithoutHistory(
    st: LegacyState, reply: Reply,
    pipeline: (string, Option<seq<Message>>) -> QueryRoute.PipelineRun)
    requires !IsBlank(st.input) && !st.loading
    ensures |Submit(st, reply).sent| == |st.sent| + 1
    ensures QueryRoute.Put(Some(RouteBody(Submit(st, reply).sent[|st.sent|])), pipeline).events
      == QueryRoute.Start(pipeline(st.input, None))
  {
    SubmitStartsExchange(st, reply);
  }

  /** A complete answer: the last turn is the concatenation of every non-empty `queryResult` read. */
  lemma SubmitShowsAnswer(st: LegacyState, received: seq<string>)
    requires !IsBlank(st.input) && !st.loading
    ensures var r := Submit(st, Body(received, false));
      && |r.messages| == |st.messages| + 2
      && r.messages[|st.messages| + 1] == Message(Assistant, Text(ReadLines(received)))
  {
    SubmitPassesGuard(st, Body(received, false));
    var b := Begin(st);
    ApplyReadsKeepsShowing(Progress(b.messages, ""), received);
    assert [] + Text(ReadLines(received)) == Text(ReadLines(received));
  }

  /** Any failure: the last turn is exactly the fallback text and partial text is discarded. */
  lemma SubmitFallsBack(st: LegacyState, reply: Reply)
    requires !IsBlank(st.input) && !st.loading
    requires UseChat.Fails(reply)
    ensures var r := Submit(st, reply);
      && |r.messages| == |st.messages| + 2
      && r.messages[|st.messages| + 1] == Message(Assistant, UseChat.Fallback)
  {
    SubmitPassesGuard(st, reply);
    var b := Begin(st);
    if reply.Body? {
      ApplyReadsKeepsShowing(Progress(b.messages, ""), reply.received);
    }
  }

  /** An OK response without a body leaves the placeholder empty. */
  lemma SubmitWithoutBody(st: LegacyState)
    requires !IsBlank(st.input) && !st.loading
    ensures Submit(st, NoBody).messages == st.messages + [Message(User, st.input), Message(Assistant, "")]
  {
    SubmitPassesGuard(st, NoBody);
  }

  /** What the component shows above the input. */
  datatype LegacyView = AboutCard | Conversation(bubbles: seq<MessageList.Bubble>)

  /**
   * An empty conversation shows the about card; any other shows one bubble
   * per message, decided as in `MessageList`.
   */
  function View(messages: seq<Message>, loading: bool): (v: LegacyView)
    ensures v.AboutCard? <==> |messages| == 0
    ensures v.Conversation? ==> |v.bubbles| == |messages|
    ensures v.Conversation? ==> forall i :: 0 <= i < |messages| ==>
      v.bubbles[i] == MessageList.RenderMessage(messages[i], loading)
  {
    if |messages| <= 0 then AboutCard else Conversation(MessageList.RenderAll(messages, loading))
  }

  /** The link to the generative UI page: only once there is more than one message. */
  predicate ShowsGenUiLink(messages: seq<Message>) {
    |messages| > 1
  }

  /** The send button: disabled for blank input only; an answer in flight does not disable it. */
  function SendDisabled(input: string): (d: bool)
    ensures d <==> IsBlank(input)
  {
    TrimEmptyIffBlank(input);
    Trim(input) == []
  }

  /**
   * After any started submit the about card is gone and the link is shown,
   * whatever the reply.
   */
  lemma StartedConversationShowsLink(st: LegacyState, reply: Reply)
    requires !IsBlank(st.input) && !st.loading
    ensures View(Submit(st, reply).messages, false).Conversation?
    ensures ShowsGenUiLink(Submit(st, reply).messages)
  {
    SubmitStartsExchange(st, reply);
  }

  /**
   * With the button enabled, a submit is rejected only while an answer is in
   * flight: the button itself does not look at the loading flag.
   */
  lemma EnabledSendStartsUnlessLoading(st: LegacyState, reply: Reply)
    requires !SendDisabled(st.input)
    ensures Submit(st, reply) == st <==> st.loading
  {
    if st.loading {
      GuardedSubmitChangesNothing(st, reply);
    } else {
      SubmitStartsExchange(st, reply);
    }
  }
}
