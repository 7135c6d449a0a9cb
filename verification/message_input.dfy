/**
 * `MessageInput`: the text area whose height follows its content up to a
 * cap, the submit handler that resets that height, and the rule that
 * disables the send button. The input value itself belongs to the parent;
 * the component only forwards changes to it.
 */
module MessageInput {
  import opened JsText
  import StreamDecode
  import UseChat

  /** The height the text area starts with and returns to after a submit, in pixels. */
  const InitialHeight: nat := 40
  /** The tallest the text area grows, in pixels. */
  const MaxHeight: nat := 200

  /** A call the component makes into its parent. */
  datatype Effect = SetInputValue(value: string) | CallSubmit

  /** What the user does: type (the browser reports the content's height) or submit the form. */
  datatype UiEvent = Typed(value: string, scrollHeight: nat) | Submitted

  /** The component's state after an event, and the calls it made. */
  datatype Outcome = Outcome(effects: seq<Effect>, height: nat)

  /** `Math.min(scrollHeight, 200)`. */
  function Clamp(scrollHeight: nat): (h: nat)
    ensures h <= MaxHeight && h <= scrollHeight
    ensures h == scrollHeight || h == MaxHeight
  {
    if scrollHeight < MaxHeight then scrollHeight else MaxHeight
  }

  /**
   * One event. Typing forwards the raw value and sizes the area to its
   * content, capped; submitting calls the parent's handler once, then resets
   * the height.
   */
  function Step(height: nat, e: UiEvent): (o: Outcome)
    ensures o.height <= MaxHeight
    ensures |o.effects| == 1 && (o.effects[0] == CallSubmit <==> e.Submitted?)
  {
    match e
    case Typed(value, scrollHeight) => Outcome([SetInputValue(value)], Clamp(scrollHeight))
    case Submitted => Outcome([CallSubmit], InitialHeight)
  }

  /** A sequence of events from a given height: the calls in order and the final height. */
  function Run(height: nat, events: seq<UiEvent>): Outcome
    decreases |events|
  {
    if |events| == 0 then Outcome([], height)
    else
      var o := Step(height, events[0]);
      var rest := Run(o.height, events[1..]);
      Outcome(o.effects + rest.effects, rest.height)
  }

  /**
   * From any height within the cap, the text area never grows past it,
   * whatever is typed or submitted; the parent gets exactly one call per
   * event, in event order, carrying the typed value unchanged; and the final
   * height is the capped content height after typing and the initial height
   * after a submit.
   */
  lemma {:induction false} HeightStaysCapped(height: nat, events: seq<UiEvent>)
    requires height <= MaxHeight
    ensures Run(height, events).height <= MaxHeight
    ensures |Run(height, events).effects| == |events|
    ensures forall i :: 0 <= i < |events| ==>
      Run(height, events).effects[i] == (if events[i].Submitted? then CallSubmit else SetInputValue(events[i].value))
    ensures |events| > 0 ==> Run(height, events).height == match events[|events| - 1]
      case Submitted => InitialHeight
      case Typed(_, scrollHeight) => Clamp(scrollHeight)
    decreases |events|
  {
    if |events| > 0 {
      var o := Step(height, events[0]);
      HeightStaysCapped(o.height, events[1..]);
      var rest := Run(o.height, events[1..]);
      forall i | 0 <= i < |events|
        ensures Run(height, events).effects[i] == (if events[i].Submitted? then CallSubmit else SetInputValue(events[i].value))
      {
        if i > 0 {
          assert Run(height, events).effects[i] == rest.effects[i - 1];
          assert events[1..][i - 1] == events[i];
        }
      }
      if |events| > 1 {
        assert events[1..][|events[1..]| - 1] == events[|events| - 1];
      }
    }
  }

  /**
   * The send button is disabled exactly when the input is blank, an answer
   * is loading, or the session's messages are being fetched.
   */
  function SendDisabled(input: string, loadingResponse: bool, fetchingMessages: bool): (d: bool)
    ensures d <==> IsBlank(input) || loadingResponse || fetchingMessages
  {
    TrimEmptyIffBlank(input);
    Trim(input) == [] || loadingResponse || fetchingMessages
  }

  /**
   * An enabled button never leads to a rejected submit: the hook's guard
   * passes, so exactly one request goes out.
   */
  lemma EnabledSendStartsExchange(st: UseChat.ChatState, fetchingMessages: bool, sessionId: string, reply: StreamDecode.Reply)
    requires !SendDisabled(st.input, st.loading, fetchingMessages)
    ensures UseChat.Submit(st, sessionId, reply).sent == st.sent + [UseChat.QueryRequest(st.input, sessionId, st.messages)]
  {
    UseChat.SubmitStartsExchange(st, sessionId, reply);
  }

  /**
   * Conversely, whenever the hook would ignore a submit, the button is
   * already disabled.
   */
  lemma IgnoredSubmitHasDisabledSend(st: UseChat.ChatState, fetchingMessages: bool)
    requires UseChat.Guarded(st)
    ensures SendDisabled(st.input, st.loading, fetchingMessages)
  {
    TrimEmptyIffBlank(st.input);
  }
}
