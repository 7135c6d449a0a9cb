/**
 * The `PUT` handler of the query endpoint: it reads `{query,
 * conversationHistory}` from the request body, runs the answer pipeline and
 * frames every non-empty `queryResult` the pipeline yields as one line of
 * newline-delimited JSON on a streamed response.
 *
 * The pipeline itself (retrieval, prompt, model) is not modelled: a run is the
 * sequence of chunks it yielded and whether its iteration finished or threw.
 */
module QueryRoute {
  import opened Options
  import Json
  import JsText
  import opened Messages

  /** The body of the 500 response when the request cannot be handled. */
  const HighDemand: string :=
    "I apologize, but I am currently experiencing high demand. Please try again in a few moments or rephrase your question to be more specific."

  /** One item the pipeline yields; its `queryResult` may be missing. */
  datatype Chunk = Chunk(queryResult: Option<string>)

  /** How the pipeline's iteration ended. */
  datatype Ending = Finished | Threw

  /** What one run of the pipeline produced, in order, and how it ended. */
  datatype PipelineRun = PipelineRun(chunks: seq<Chunk>, ending: Ending)

  /** `if (chunk.queryResult)`: only a present, non-empty result is written. */
  predicate Writes(c: Chunk) {
    c.queryResult.Some? && JsText.Truthy(c.queryResult.value)
  }

  /** Reference: the non-empty results of a run, in the order they were yielded. */
  function Fragments(chunks: seq<Chunk>): (r: seq<string>)
    ensures forall i :: 0 <= i < |r| ==> r[i] != []
    ensures |r| <= |chunks|
  {
    if |chunks| == 0 then []
    else (if Writes(chunks[0]) then [chunks[0].queryResult.value] else []) + Fragments(chunks[1..])
  }

  /** One enqueued line: `JSON.stringify({ queryResult: r }) + "\n"`. */
  function Frame(r: string): string {
    Json.Record(r) + "\n"
  }

  /** The framing of each fragment, in order. */
  function Framed(frags: seq<string>): seq<string> {
    seq(|frags|, i requires 0 <= i < |frags| => Frame(frags[i]))
  }

  /** The record of each fragment, in order. */
  function Records(frags: seq<string>): seq<string> {
    seq(|frags|, i requires 0 <= i < |frags| => Json.Record(frags[i]))
  }

  /**
   * The `for await` loop of `start`: the strings passed to
   * `controller.enqueue`, one per written chunk, in chunk order.
   */
  function Encode(chunks: seq<Chunk>): seq<string> {
    if |chunks| == 0 then []
    else (if Writes(chunks[0]) then [Frame(chunks[0].queryResult.value)] else []) + Encode(chunks[1..])
  }

  /** Framing distributes over concatenation. */
  lemma FramedAppend(a: seq<string>, b: seq<string>)
    ensures Framed(a + b) == Framed(a) + Framed(b)
  {
    assert |Framed(a + b)| == |Framed(a) + Framed(b)|;
    forall i | 0 <= i < |a + b|
      ensures Framed(a + b)[i] == (Framed(a) + Framed(b))[i]
    {
      if i < |a| {
        assert (a + b)[i] == a[i];
      } else {
        assert (a + b)[i] == b[i - |a|];
      }
    }
  }

  /**
   * The lines enqueued are exactly the framed fragments of the run: one line
   * per chunk with a non-empty result, in chunk order, and no other.
   */
  lemma {:induction false} EncodeIsFramed(chunks: seq<Chunk>)
    ensures Encode(chunks) == Framed(Fragments(chunks))
  {
    if |chunks| > 0 {
      var front := if Writes(chunks[0]) then [chunks[0].queryResult.value] else [];
      EncodeIsFramed(chunks[1..]);
      FramedAppend(front, Fragments(chunks[1..]));
      assert Framed(front) == (if Writes(chunks[0]) then [Frame(chunks[0].queryResult.value)] else []);
    }
  }

  /**
   * One more chunk adds exactly one line when it carries a non-empty result
   * and nothing otherwise; the lines already written stay as they are.
   */
  lemma {:induction false} EncodeAppend(chunks: seq<Chunk>, c: Chunk)
    ensures Encode(chunks + [c]) == Encode(chunks) + (if Writes(c) then [Frame(c.queryResult.value)] else [])
  {
    var last := if Writes(c) then [Frame(c.queryResult.value)] else [];
    if |chunks| == 0 {
      assert chunks + [c] == [c];
      assert [c][1..] == [];
      assert Encode([c]) == last + Encode([]);
    } else {
      var cs := chunks + [c];
      var head := if Writes(chunks[0]) then [Frame(chunks[0].queryResult.value)] else [];
      assert cs[0] == chunks[0];
      assert cs[1..] == chunks[1..] + [c];
      assert Encode(cs) == head + Encode(chunks[1..] + [c]);
      EncodeAppend(chunks[1..], c);
      assert Encode(chunks) == head + Encode(chunks[1..]);
      assert head + (Encode(chunks[1..]) + last) == (head + Encode(chunks[1..])) + last;
    }
  }

  /** What happens to the response stream. */
  datatype StreamEvent = Enqueue(text: string) | Close | Error

  /** The enqueue calls of the loop, in order. */
  function Pump(chunks: seq<Chunk>): (events: seq<StreamEvent>)
    ensures |events| == |Encode(chunks)|
    ensures forall i :: 0 <= i < |events| ==> events[i] == Enqueue(Encode(chunks)[i])
  {
    if |chunks| == 0 then []
    else (if Writes(chunks[0]) then [Enqueue(Frame(chunks[0].queryResult.value))] else []) + Pump(chunks[1..])
  }

  /**
   * `start`: the lines in chunk order, then exactly one terminal event. The
   * stream closes only after the last line; a pipeline that throws ends it
   * with an error and never with an extra data line.
   */
  function Start(run: PipelineRun): (events: seq<StreamEvent>)
    ensures |events| == |Encode(run.chunks)| + 1
    ensures forall i :: 0 <= i < |events| - 1 ==> events[i] == Enqueue(Encode(run.chunks)[i])
    ensures events[|events| - 1] == (if run.ending == Finished then Close else Error)
  {
    Pump(run.chunks) + [if run.ending == Finished then Close else Error]
  }

  /**
   * Every enqueued line ends with its only line feed: escaping leaves no raw
   * line feed inside the record.
   */
  lemma FrameIsOneLine(r: string)
    ensures |Frame(r)| >= 2 && Frame(r)[|Frame(r)| - 1] == '\n'
    ensures '\n' !in Frame(r)[..|Frame(r)| - 1]
  {
    Json.RecordIsOneLine(r);
    assert Frame(r)[..|Frame(r)| - 1] == Json.Record(r);
  }

  /** The request body the handler reads: the history is missing when the client sends none. */
  datatype QueryBody = QueryBody(query: string, history: Option<seq<Message>>)

  /** The handler's answer. */
  datatype Response =
    | Streamed(contentType: string, events: seq<StreamEvent>)
    | JsonError(status: int, error: string)

  /**
   * `PUT`: a body that cannot be read gives a 500 with the high-demand text;
   * otherwise the pipeline runs on the query and history exactly as sent
   * and its run is streamed.
   */
  function Put(body: Option<QueryBody>, pipeline: (string, Option<seq<Message>>) -> PipelineRun): (resp: Response)
    ensures body.None? ==> resp == JsonError(500, HighDemand)
    ensures body.Some? ==> resp.Streamed? && resp.contentType == "text/event-stream"
    ensures body.Some? ==> resp.events == Start(pipeline(body.value.query, body.value.history))
  {
    match body
    case None => JsonError(500, HighDemand)
    case Some(b) => Streamed("text/event-stream", Start(pipeline(b.query, b.history)))
  }
}
