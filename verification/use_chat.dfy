/**
 * `handleSubmit` of the `useChat` hook as a state machine over the message
 * list, the loading flag, the input, and the two traces it leaves behind:
 * the `saveMessage` calls and the requests sent to the query endpoint.
 *
 * React state updates are applied one after another; the outcome of the
 * request (and of each `saveMessage`, which never throws) is an input.
 */
module UseChat {
  import opened Options
  import opened Seqs
  import opened JsText
  import opened Messages
  import opened StreamDecode
  import QueryRoute
  import Protocol

  /** What the last message becomes when the exchange fails. */
  const Fallback: string := "I couldn't find relevant information for your question."

  /** One `saveMessage(content, role, sessionId)` call. */
  datatype Save = Save(content: string, role: string, sessionId: string)

  /** The JSON body of the `PUT` to the query endpoint. */
  datatype QueryRequest = QueryRequest(query: string, sessionId: string, conversationHistory: seq<Message>)

  /** The hook's state and what it has done so far. */
  datatype ChatState = ChatState(
    messages: seq<Message>,
    loading: bool,
    input: string,
    saves: seq<Save>,
    sent: seq<QueryRequest>)

  /** `!inputValue.trim() || isLoadingResponse`: the early return. */
  predicate Guarded(st: ChatState) {
    Trim(st.input) == [] || st.loading
  }

  /**
   * `prev.slice(0, -1)` followed by the fallback turn: the fallback replaces
   * the last turn with the fixed text and keeps every earlier one; on an
   * empty list it adds the one turn.
   */
  function WithFallback(ms: seq<Message>): (r: seq<Message>)
    ensures |r| == if |ms| == 0 then 1 else |ms|
    ensures r[|r| - 1] == Message(Assistant, Fallback)
    ensures |ms| > 0 ==> r[..|ms| - 1] == ms[..|ms| - 1]
  {
    (if |ms| == 0 then [] else ms[..|ms| - 1]) + [Message(Assistant, Fallback)]
  }

  /** The replies after which the `catch` runs: no answer is saved. */
  predicate Fails(reply: Reply) {
    reply.Rejected? || reply.NotOk? || (reply.Body? && reply.broken)
  }

  /**
   * Everything before the `try`: set loading, append the user turn and an
   * empty assistant placeholder, save the user turn, clear the input, and
   * send the query with the history as it was before the append.
   */
  function Begin(st: ChatState, sessionId: string): ChatState {
    ChatState(
      st.messages + [Message(User, st.input), Message(Assistant, "")],
      true,
      "",
      st.saves + [Save(st.input, User, sessionId)],
      st.sent + [QueryRequest(st.input, sessionId, st.messages)])
  }

  /**
   * The `try`/`catch`: read the answer into the placeholder, or fall back.
   * It sends nothing, leaves the input and the loading flag alone, and
   * saves one answer exactly when the reply does not fail.
   */
  function Settle(st: ChatState, sessionId: string, reply: Reply): (r: ChatState)
    ensures r.sent == st.sent && r.input == st.input && r.loading == st.loading
    ensures |r.saves| == |st.saves| + (if Fails(reply) then 0 else 1)
    ensures r.saves[..|st.saves|] == st.saves
  {
    match reply
    case Rejected => st.(messages := WithFallback(st.messages))
    case NotOk => st.(messages := WithFallback(st.messages))
    case NoBody => st.(saves := st.saves + [Save("", Assistant, sessionId)])
    case Body(received, broken) =>
      var p := ApplyReads(Progress(st.messages, ""), received);
      if broken then st.(messages := WithFallback(p.messages))
      else st.(messages := p.messages, saves := st.saves + [Save(p.acc, Assistant, sessionId)])
  }

  /** The `finally`: loading ends and nothing else changes. */
  function Finish(st: ChatState): (r: ChatState)
    ensures !r.loading && r.(loading := st.loading) == st
  {
    st.(loading := false)
  }

  /**
   * One call of `handleSubmit`: the state changes exactly when the guard
   * lets the submit through, and then exactly one request goes out.
   */
  function Submit(st: ChatState, sessionId: string, reply: Reply): (r: ChatState)
    ensures r == st <==> Guarded(st)
    ensures |r.sent| == |st.sent| + (if Guarded(st) then 0 else 1)
  {
    if Guarded(st) then st else Finish(Settle(Begin(st, sessionId), sessionId, reply))
  }

  /** Right after the append, the placeholder shows the (empty) accumulated answer. */
  lemma BeginShows(st: ChatState, sessionId: string)
    ensures Shows(Progress(Begin(st, sessionId).messages, ""))
  {
  }

  /** Input that is not blank, with nothing loading, passes the guard. */
  lemma SubmitPassesGuard(st: ChatState, sessionId: string, reply: Reply)
    requires !IsBlank(st.input) && !st.loading
    ensures Submit(st, sessionId, reply) == Finish(Settle(Begin(st, sessionId), sessionId, reply))
  {
    TrimEmptyIffBlank(st.input);
  }

  /**
   * Blank input or a response already loading: nothing changes, no request
   * is sent and nothing is saved.
   */
  lemma GuardedSubmitChangesNothing(st: ChatState, sessionId: string, reply: Reply)
    requires IsBlank(st.input) || st.loading
    ensures Submit(st, sessionId, reply) == st
  {
    TrimEmptyIffBlank(st.input);
  }

  /**
   * Settling rewrites only the placeholder turn, which stays the assistant's,
   * and only appends to the saves.
   */
  lemma SettleKeepsEarlierTurns(b: ChatState, sessionId: string, reply: Reply)
    requires |b.messages| >= 1 && b.messages[|b.messages| - 1] == Message(Assistant, "")
    ensures var s := Settle(b, sessionId, reply);
      && |s.messages| == |b.messages|
      && s.messages[..|b.messages| - 1] == b.messages[..|b.messages| - 1]
      && s.messages[|b.messages| - 1].role == Assistant
      && s.sent == b.sent && s.input == b.input && s.loading == b.loading
      && |s.saves| >= |b.saves| && s.saves[..|b.saves|] == b.saves
  {
    match reply
    case Body(received, broken) =>
      var p := ApplyReads(Progress(b.messages, ""), received);
      ReadsKeepEarlier(b.messages, received, p.messages);
      if broken {
        FallbackKeepsEarlier(p.messages, WithFallback(p.messages));
      }
    case NoBody =>
    case _ =>
      FallbackKeepsEarlier(b.messages, WithFallback(b.messages));
  }

  /** The read loop rewrites only the placeholder, and leaves it the assistant's. */
  lemma ReadsKeepEarlier(ms: seq<Message>, received: seq<string>, rs: seq<Message>)
    requires |ms| >= 1 && ms[|ms| - 1] == Message(Assistant, "")
    requires rs == ApplyReads(Progress(ms, ""), received).messages
    ensures |rs| == |ms| && rs[..|ms| - 1] == ms[..|ms| - 1] && rs[|ms| - 1].role == Assistant
  {
    var p0 := Progress(ms, "");
    ApplyReadsKeepsShowing(p0, received);
    var p := ApplyReads(p0, received);
    assert |rs| == |ms|;
    assert rs[|ms| - 1] == Message(Assistant, p.acc);
  }

  /** The fallback rewrites only the last turn, and makes it the assistant's. */
  lemma FallbackKeepsEarlier(ms: seq<Message>, rs: seq<Message>)
    requires |ms| >= 1 && rs == WithFallback(ms)
    ensures |rs| == |ms| && rs[..|ms| - 1] == ms[..|ms| - 1] && rs[|ms| - 1].role == Assistant
  {
  }

  /** A list that agrees with `ms + [u, a]` except at the last place still begins with `ms` and `u`. */
  lemma KeepsEarlier(rs: seq<Message>, ms: seq<Message>, u: Message, a: Message)
    requires |rs| == |ms| + 2
    requires rs[..|ms| + 1] == (ms + [u, a])[..|ms| + 1]
    ensures rs[..|ms|] == ms && rs[|ms|] == u
  {
    assert rs[..|ms|] == rs[..|ms| + 1][..|ms|];
    assert rs[|ms|] == rs[..|ms| + 1][|ms|];
  }

  /**
   * A started submit sends exactly one request, carrying the input before it
   * was cleared and the history before the append, appends exactly two
   * turns (the first is the user's), leaves every earlier message alone,
   * clears the input and ends with loading off, whatever the reply.
   */
  lemma SubmitStartsExchange(st: ChatState, sessionId: string, reply: Reply)
    requires !IsBlank(st.input) && !st.loading
    ensures var r := Submit(st, sessionId, reply);
      && r.sent == st.sent + [QueryRequest(st.input, sessionId, st.messages)]
      && |r.messages| == |st.messages| + 2
      && r.messages[..|st.messages|] == st.messages
      && r.messages[|st.messages|] == Message(User, st.input)
      && r.messages[|st.messages| + 1].role == Assistant
      && r.input == []
      && !r.loading
      && |r.saves| >= |st.saves| + 1
      && r.saves[..|st.saves| + 1] == st.saves + [Save(st.input, User, sessionId)]
  {
    SubmitPassesGuard(st, sessionId, reply);
    var b := Begin(st, sessionId);
    var n := |st.messages|;
    SettleKeepsEarlierTurns(b, sessionId, reply);
    var s := Settle(b, sessionId, reply);
    KeepsEarlier(s.messages, st.messages, Message(User, st.input), Message(Assistant, ""));
  }

  /** The loading flag is on from the first step of a started submit until the `finally`. */
  lemma LoadingUntilFinally(st: ChatState, sessionId: string, reply: Reply)
    requires !IsBlank(st.input) && !st.loading
    ensures Begin(st, sessionId).loading
    ensures Settle(Begin(st, sessionId), sessionId, reply).loading
    ensures !Submit(st, sessionId, reply).loading
  {
    SubmitPassesGuard(st, sessionId, reply);
  }

  /**
   * A complete answer: the last turn is the assistant's with the in-order
   * concatenation of every non-empty `queryResult` read, and the saves are
   * the user turn then that answer.
   */
  lemma SubmitShowsAnswer(st: ChatState, sessionId: string, received: seq<string>)
    requires !IsBlank(st.input) && !st.loading
    ensures var r := Submit(st, sessionId, Body(received, false));
      && |r.messages| == |st.messages| + 2
      && r.messages[|st.messages| + 1] == Message(Assistant, Text(ReadLines(received)))
      && r.saves == st.saves + [Save(st.input, User, sessionId), Save(Text(ReadLines(received)), Assistant, sessionId)]
  {
    SubmitPassesGuard(st, sessionId, Body(received, false));
    BeginShows(st, sessionId);
    var b := Begin(st, sessionId);
    var p := ApplyReads(Progress(b.messages, ""), received);
    ApplyReadsKeepsShowing(Progress(b.messages, ""), received);
    assert p.acc == Text(ReadLines(received)) by {
      assert [] + Text(ReadLines(received)) == Text(ReadLines(received));
    }
    assert Submit(st, sessionId, Body(received, false))
      == b.(messages := p.messages, saves := b.saves + [Save(p.acc, Assistant, sessionId)], loading := false);
  }

  /**
   * Any failure (fetch throwing, a non-OK status, a read throwing midway):
   * the last turn is exactly the fallback text, partial text is discarded,
   * and only the user turn is saved.
   */
  lemma SubmitFallsBack(st: ChatState, sessionId: string, reply: Reply)
    requires !IsBlank(st.input) && !st.loading
    requires Fails(reply)
    ensures var r := Submit(st, sessionId, reply);
      && |r.messages| == |st.messages| + 2
      && r.messages[|st.messages| + 1] == Message(Assistant, Fallback)
      && r.saves == st.saves + [Save(st.input, User, sessionId)]
  {
    SubmitPassesGuard(st, sessionId, reply);
    var b := Begin(st, sessionId);
    if reply.Body? {
      BeginShows(st, sessionId);
      ApplyReadsKeepsShowing(Progress(b.messages, ""), reply.received);
    }
  }

  /** An OK response without a body leaves the placeholder empty and saves an empty answer. */
  lemma SubmitWithoutBody(st: ChatState, sessionId: string)
    requires !IsBlank(st.input) && !st.loading
    ensures var r := Submit(st, sessionId, NoBody);
      && r.messages == st.messages + [Message(User, st.input), Message(Assistant, "")]
      && r.saves == st.saves + [Save(st.input, User, sessionId), Save("", Assistant, sessionId)]
  {
    SubmitPassesGuard(st, sessionId, NoBody);
  }

  /** The body the query endpoint reads from a request this hook sends. */
  function RouteBody(req: QueryRequest): QueryRoute.QueryBody {
    QueryRoute.QueryBody(req.query, Some(req.conversationHistory))
  }

  /**
   * The request a started submit sends reaches the pipeline as the submitted
   * text and the history before the new turns, and its run is what the
   * endpoint streams back.
   */
  lemma RequestReachesPipeline(
    st: ChatState, sessionId: string, reply: Reply,
    pipeline: (string, Option<seq<Message>>) -> QueryRoute.PipelineRun)
    requires !IsBlank(st.input) && !st.loading
    ensures var req := Submit(st, sessionId, reply).sent[|st.sent|];
      QueryRoute.Put(Some(RouteBody(req)), pipeline).events
        == QueryRoute.Start(pipeline(st.input, Some(st.messages)))
  {
    SubmitStartsExchange(st, sessionId, reply);
  }

  /**
   * End to end: when the pipeline run on the submitted text finishes and the
   * transport delivers its lines whole, however the bytes are grouped into
   * reads, the new assistant turn is the concatenation of the non-empty
   * fragments it yielded.
   */
  lemma ExchangeShowsPipelineAnswer(
    st: ChatState, sessionId: string,
    pipeline: (string, Option<seq<Message>>) -> QueryRoute.PipelineRun,
    groups: seq<seq<string>>)
    requires !IsBlank(st.input) && !st.loading
    requires pipeline(st.input, Some(st.messages)).ending == QueryRoute.Finished
    requires Flatten(groups) == QueryRoute.Encode(pipeline(st.input, Some(st.messages)).chunks)
    ensures var r := Submit(st, sessionId, Body(Protocol.JoinedReads(groups), false));
      && |r.messages| == |st.messages| + 2
      && r.messages[|st.messages| + 1]
        == Message(Assistant, Concat(QueryRoute.Fragments(pipeline(st.input, Some(st.messages)).chunks)))
  {
    var run := pipeline(st.input, Some(st.messages));
    var received := Protocol.JoinedReads(groups);
    Protocol.RoundTrip(run.chunks, groups);
    SubmitShowsAnswer(st, sessionId, received);
  }
}
