/**
 * The render decision of `MessageList`: a spinner while the session's
 * messages are being fetched, otherwise one bubble per message whose body
 * depends on the role, the content and whether a response is loading.
 */
module MessageList {
  import opened Options
  import opened Messages
  import opened StreamDecode
  import JsText

  /** What one bubble holds. */
  datatype Body =
    | Markdown(text: string)   // an answer, rendered as markdown
    | Thinking                 // the loading indicator in an empty answer
    | Nothing                  // an empty answer with nothing loading
    | Plain(text: string)      // any other role, as plain text

  /** One bubble; `userStyle` is the extra class a user turn gets. */
  datatype Bubble = Bubble(userStyle: bool, body: Body)

  /** What the list renders. */
  datatype View = Spinner | Bubbles(bubbles: seq<Bubble>)

  /** The bubble of one message. */
  function RenderMessage(m: Message, loadingResponse: bool): (b: Bubble)
    ensures b.userStyle <==> m.role == User
    ensures b.body.Markdown? <==> m.role == Assistant && m.content != []
    ensures b.body.Thinking? <==> m.role == Assistant && m.content == [] && loadingResponse
    ensures b.body.Nothing? <==> m.role == Assistant && m.content == [] && !loadingResponse
    ensures b.body.Plain? <==> m.role != Assistant
    ensures (b.body.Markdown? || b.body.Plain?) ==> b.body.text == m.content
  {
    var body :=
      if m.role == Assistant then
        if JsText.Truthy(m.content) then Markdown(m.content)
        else if loadingResponse then Thinking
        else Nothing
      else Plain(m.content);
    Bubble(m.role == User, body)
  }

  /** The bubbles of a list, one per message in order. */
  function RenderAll(messages: seq<Message>, loadingResponse: bool): (bs: seq<Bubble>)
    ensures |bs| == |messages|
    ensures forall i :: 0 <= i < |bs| ==> bs[i] == RenderMessage(messages[i], loadingResponse)
  {
    seq(|messages|, i requires 0 <= i < |messages| => RenderMessage(messages[i], loadingResponse))
  }

  /**
   * `MessageList`: an absent list renders as an empty one; fetching
   * overrides everything else.
   */
  function Render(messages: Option<seq<Message>>, loadingResponse: bool, fetchingMessages: bool): (v: View)
    ensures v.Spinner? <==> fetchingMessages
    ensures !fetchingMessages ==> v == Bubbles(RenderAll(messages.GetOr([]), loadingResponse))
  {
    if fetchingMessages then Spinner else Bubbles(RenderAll(messages.GetOr([]), loadingResponse))
  }

  /** The two roles are told apart: an answer never gets the user style. */
  lemma RolesDiffer()
    ensures User != Assistant
  {
    assert User[0] != Assistant[0];
  }

  /**
   * While an answer streams in, its bubble shows the loading indicator until
   * the first fragment arrives and the accumulated text from then on; once
   * loading ends with nothing received, the bubble is empty.
   */
  lemma StreamingBubble(p: Progress, loadingResponse: bool)
    requires Shows(p)
    ensures RenderMessage(p.messages[|p.messages| - 1], loadingResponse)
      == Bubble(false, if p.acc != [] then Markdown(p.acc) else if loadingResponse then Thinking else Nothing)
  {
    RolesDiffer();
  }
}
