/**
 * Chat messages as the client holds them, and `formatMessages`, which turns
 * the records stored for a session back into that shape.
 */
module Messages {
  import opened Options
  import JsText

  /** The role strings of the two sides of a conversation. */
  const User: string := "user"
  const Assistant: string := "assistant"

  /** A message as the client keeps it: exactly a role and a content. */
  datatype Message = Message(role: string, content: string)

  /**
   * A message record as the messages endpoint returns it: `content` may be
   * missing or null, and the store adds fields of its own (ids, session,
   * timestamps) that the client has no use for.
   */
  datatype StoredMessage = StoredMessage(content: Option<string>, role: string, extra: map<string, string>)

  /** `msg.content || ""`: a missing or empty content reads as the empty string. */
  function ContentOf(msg: StoredMessage): (c: string)
    ensures msg.content.Some? && msg.content.value != [] ==> c == msg.content.value
    ensures msg.content.None? ==> c == []
    ensures msg.content == Some([]) ==> c == []
  {
    match msg.content
    case Some(text) => if JsText.Truthy(text) then text else ""
    case None => ""
  }

  /**
   * `formatMessages`: one message per record, in order, with the content
   * defaulted and the role copied as it is; every other field is dropped.
   */
  function FormatMessages(stored: seq<StoredMessage>): (r: seq<Message>)
    ensures |r| == |stored|
    ensures forall i :: 0 <= i < |r| ==> r[i].role == stored[i].role
    ensures forall i :: 0 <= i < |r| ==> r[i].content == ContentOf(stored[i])
  {
    if |stored| == 0 then []
    else [Message(stored[0].role, ContentOf(stored[0]))] + FormatMessages(stored[1..])
  }

  /** The record the store holds for a message, with whatever fields it adds. */
  function Stored(m: Message, extra: map<string, string>): StoredMessage {
    StoredMessage(Some(m.content), m.role, extra)
  }

  /**
   * Reading back what was stored gives the original messages, whatever extra
   * fields the store attached to each record.
   */
  lemma {:induction false} FormatStoredRoundTrip(ms: seq<Message>, stored: seq<StoredMessage>)
    requires |stored| == |ms|
    requires forall i :: 0 <= i < |ms| ==> stored[i] == Stored(ms[i], stored[i].extra)
    ensures FormatMessages(stored) == ms
  {
    if |ms| > 0 {
      FormatStoredRoundTrip(ms[1..], stored[1..]);
      assert ContentOf(stored[0]) == ms[0].content;
    }
  }
}
