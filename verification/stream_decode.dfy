/**
 * The client half of the answer stream, shared by both chat hooks: each read
 * of the response body is split on line feeds, empty pieces are dropped,
 * every line is parsed as JSON, and each non-empty `queryResult` is appended
 * to an accumulator that replaces the last message of the conversation.
 */
module StreamDecode {
  import opened Options
  import Json
  import JsText
  import opened Messages

  /** How the request for an answer ended, seen from the client. */
  datatype Reply =
    | Rejected                                // `fetch` itself threw
    | NotOk                                   // a response with a non-2xx status
    | NoBody                                  // an OK response without a body
    | Body(received: seq<string>, broken: bool)  // the decoded reads; `broken`: a later read threw

  // ----------------------------------------------------------------------
  // Splitting a read into lines

  /** `s.split("\n")`: always at least one piece, none holding a line feed. */
  function Split(s: string): (pieces: seq<string>)
    ensures |pieces| >= 1
    ensures forall i :: 0 <= i < |pieces| ==> '\n' !in pieces[i]
  {
    if |s| == 0 then [[]]
    else
      var rest := Split(s[1..]);
      if s[0] == '\n' then [[]] + rest else [[s[0]] + rest[0]] + rest[1..]
  }

  /** Appending to a non-empty string keeps its first character in front. */
  lemma ConsAppend(a: string, x: string)
    requires |a| > 0
    ensures (a + x)[0] == a[0] && (a + x)[1..] == a[1..] + x
    ensures [a[0]] + (a[1..] + x) == a + x
  {
    assert a == [a[0]] + a[1..];
  }

  /** `pieces.join("\n")`. */
  function JoinLines(pieces: seq<string>): string
    requires |pieces| >= 1
  {
    if |pieces| == 1 then pieces[0] else pieces[0] + "\n" + JoinLines(pieces[1..])
  }

  /** Text without a line feed glues onto the first piece of what follows it. */
  lemma {:induction false} SplitPrefix(a: string, t: string)
    requires '\n' !in a
    ensures Split(a + t) == [a + Split(t)[0]] + Split(t)[1..]
  {
    if |a| > 0 {
      ConsAppend(a, t);
      ConsAppend(a, Split(t)[0]);
      SplitPrefix(a[1..], t);
      assert a[0] != '\n';
      var rest := Split(a[1..] + t);
      assert Split(a + t) == [[a[0]] + rest[0]] + rest[1..];
    } else {
      assert a + t == t;
      assert [] + Split(t)[0] == Split(t)[0];
      assert Split(t) == [Split(t)[0]] + Split(t)[1..];
    }
  }

  /** Splitting undoes joining: the pieces come back exactly. */
  lemma {:induction false} JoinThenSplit(pieces: seq<string>)
    requires |pieces| >= 1
    requires forall i :: 0 <= i < |pieces| ==> '\n' !in pieces[i]
    ensures Split(JoinLines(pieces)) == pieces
  {
    if |pieces| == 1 {
      SplitPrefix(pieces[0], []);
      assert Split([]) == [[]];
      assert pieces[0] + [] == pieces[0];
    } else {
      JoinThenSplit(pieces[1..]);
      var t := "\n" + JoinLines(pieces[1..]);
      assert JoinLines(pieces) == pieces[0] + t;
      SplitPrefix(pieces[0], t);
      assert t[1..] == JoinLines(pieces[1..]);
      assert Split(t) == [[]] + pieces[1..];
      assert Split(t)[0] == [] && Split(t)[1..] == pieces[1..];
      assert pieces[0] + [] == pieces[0];
      assert pieces == [pieces[0]] + pieces[1..];
    }
  }

  /** Joining undoes splitting: no character is lost or added. */
  lemma {:induction false} SplitThenJoin(s: string)
    ensures JoinLines(Split(s)) == s
  {
    if |s| > 0 {
      SplitThenJoin(s[1..]);
      var rest := Split(s[1..]);
      var p := Split(s);
      if s[0] == '\n' {
        assert p[1..] == rest;
        assert s == "\n" + s[1..];
      } else {
        assert p[0] == [s[0]] + rest[0];
        assert p[1..] == rest[1..];
        if |rest| > 1 {
          assert JoinLines(rest) == rest[0] + "\n" + JoinLines(rest[1..]);
        }
        assert s == [s[0]] + s[1..];
      }
    }
  }

  /** `.filter(Boolean)` on strings: keeps the non-empty pieces, in order. */
  function NonEmpty(pieces: seq<string>): (r: seq<string>)
    ensures |r| <= |pieces|
    ensures forall i :: 0 <= i < |r| ==> r[i] != [] && r[i] in pieces
    ensures forall i :: 0 <= i < |pieces| && pieces[i] != [] ==> pieces[i] in r
  {
    if |pieces| == 0 then []
    else (if pieces[0] == [] then [] else [pieces[0]]) + NonEmpty(pieces[1..])
  }

  /** Filtering a concatenation filters each part. */
  lemma {:induction false} NonEmptyAppend(a: seq<string>, b: seq<string>)
    ensures NonEmpty(a + b) == NonEmpty(a) + NonEmpty(b)
  {
    if |a| == 0 {
      assert a + b == b;
    } else {
      assert (a + b)[0] == a[0];
      assert (a + b)[1..] == a[1..] + b;
      NonEmptyAppend(a[1..], b);
    }
  }

  /**
   * A single piece is kept exactly when it is non-empty. With
   * `NonEmptyAppend` this pins the filter on every input, order and
   * repetitions included.
   */
  lemma NonEmptySingle(p: string)
    ensures NonEmpty([p]) == if p == [] then [] else [p]
  {
    assert [p][1..] == [];
  }

  /** The lines the client looks at in one read. */
  function Lines(read: string): seq<string> {
    NonEmpty(Split(read))
  }

  /** Every line the client looks at is non-empty and holds no line feed. */
  lemma LinesAreClean(read: string)
    ensures forall i :: 0 <= i < |Lines(read)| ==> Lines(read)[i] != [] && '\n' !in Lines(read)[i]
  {
  }

  /** Lines each followed by a line feed, as the server writes them. */
  function Terminated(lines: seq<string>): string {
    if |lines| == 0 then [] else lines[0] + "\n" + Terminated(lines[1..])
  }

  /** A read made of whole, non-empty lines yields exactly those lines. */
  lemma {:induction false} LinesOfTerminated(lines: seq<string>)
    requires forall i :: 0 <= i < |lines| ==> lines[i] != [] && '\n' !in lines[i]
    ensures Lines(Terminated(lines)) == lines
  {
    if |lines| > 0 {
      LinesOfTerminated(lines[1..]);
      var t := "\n" + Terminated(lines[1..]);
      assert Terminated(lines) == lines[0] + t;
      SplitPrefix(lines[0], t);
      assert t[1..] == Terminated(lines[1..]);
      var rest := Split(Terminated(lines[1..]));
      assert Split(t) == [[]] + rest;
      assert Split(t)[0] == [] && Split(t)[1..] == rest;
      assert lines[0] + [] == lines[0];
      var all := Split(Terminated(lines));
      assert all == [lines[0]] + rest;
      assert all[0] == lines[0] && all[1..] == rest;
      assert NonEmpty(all) == [lines[0]] + NonEmpty(rest);
      assert lines == [lines[0]] + lines[1..];
    }
  }

  // ----------------------------------------------------------------------
  // Decoding lines

  /**
   * The text one line contributes: its `queryResult` when the line parses and
   * that value is a non-empty string. Lines that fail to parse contribute
   * nothing.
   */
  function Fragment(line: string): (r: Option<string>)
    ensures r.Some? ==> r.value != []
    ensures Json.ParseLine(line).None? ==> r.None?
  {
    match Json.ParseLine(line)
    case None => None
    case Some(members) =>
      match Json.Lookup(members, Json.QueryResultKey)
      case Some(v) => if JsText.Truthy(v) then Some(v) else None
      case None => None
  }

  /**
   * What a line contributes, against the members `JSON.parse` reads: a line
   * contributes `v` exactly when it parses, `v` is the value of its last
   * `queryResult` member, and `v` is truthy.
   */
  lemma FragmentIsQueryResult(line: string, v: string)
    ensures Fragment(line) == Some(v) <==>
      Json.ParseLine(line).Some? && Json.IsLastValue(Json.ParseLine(line).value, Json.QueryResultKey, v) && JsText.Truthy(v)
  {
    if Json.ParseLine(line).Some? {
      Json.LookupIsLastValue(Json.ParseLine(line).value, Json.QueryResultKey, v);
    }
  }

  /** With the `queryResult` key written twice, the second value is the one appended. */
  lemma LastDuplicateWins(a: string, b: string)
    requires JsText.Truthy(b)
    ensures Fragment("{" + Json.QuotedKey + ":" + Json.Quote(a) + "," + Json.QuotedKey + ":" + Json.Quote(b) + "}")
      == Some(b)
  {
    Json.QuotedKeyIsQuote();
    Json.TwoMemberRoundTrip(Json.QueryResultKey, a, Json.QueryResultKey, b);
  }

  /** The pieces of the literal line below, put together. */
  lemma SpellDuplicate(k: string, qa: string, qb: string)
    requires k == "\"queryResult\"" && qa == "\"a\"" && qb == "\"b\""
    ensures "{" + k + ":" + qa + "," + k + ":" + qb + "}" == "{\"queryResult\":\"a\",\"queryResult\":\"b\"}"
  {
    var first := "{" + k + ":" + qa;
    assert first == "{\"queryResult\":\"a\"";
    var second := k + ":" + qb + "}";
    assert second == "\"queryResult\":\"b\"}";
    assert "{" + k + ":" + qa + "," + k + ":" + qb + "}" == first + "," + second;
    JoinDuplicateHalves(first, second);
  }

  /** The two members of the literal line below, joined by the comma. */
  lemma JoinDuplicateHalves(first: string, second: string)
    requires first == "{\"queryResult\":\"a\"" && second == "\"queryResult\":\"b\"}"
    ensures first + "," + second == "{\"queryResult\":\"a\",\"queryResult\":\"b\"}"
  {
  }

  /** The same, on a literal line. */
  lemma DuplicateKeyExample()
    ensures Fragment("{\"queryResult\":\"a\",\"queryResult\":\"b\"}") == Some("b")
  {
    var k, qa, qb := Json.QuotedKey, Json.Quote("a"), Json.Quote("b");
    Json.EscapePlain("a");
    Json.EscapePlain("b");
    assert qa == "\"a\"" && qb == "\"b\"";
    assert k == "\"queryResult\"";
    LastDuplicateWins("a", "b");
    SpellDuplicate(k, qa, qb);
  }

  /** Reference meaning of a run of lines: the in-order concatenation of their fragments. */
  function Text(lines: seq<string>): string {
    if |lines| == 0 then [] else Fragment(lines[0]).GetOr([]) + Text(lines[1..])
  }

  lemma {:induction false} TextAppend(a: seq<string>, b: seq<string>)
    ensures Text(a + b) == Text(a) + Text(b)
  {
    if |a| == 0 {
      assert a + b == b;
    } else {
      assert (a + b)[1..] == a[1..] + b;
      TextAppend(a[1..], b);
    }
  }

  /** Every line the client looks at, read by read. */
  function ReadLines(received: seq<string>): seq<string> {
    if |received| == 0 then [] else Lines(received[0]) + ReadLines(received[1..])
  }

  // ----------------------------------------------------------------------
  // Accumulating into the conversation

  /** The messages on screen and the accumulated answer. */
  datatype Progress = Progress(messages: seq<Message>, acc: string)

  /**
   * The invariant of the read loop: the last message is the assistant turn
   * showing exactly the accumulated answer.
   */
  predicate Shows(p: Progress) {
    |p.messages| >= 1 && p.messages[|p.messages| - 1] == Message(Assistant, p.acc)
  }

  /**
   * `updated[updated.length - 1] = m` on a copy: on an empty list JavaScript
   * sets a non-index property, so the list stays empty.
   */
  function ReplaceLast(ms: seq<Message>, m: Message): (r: seq<Message>)
    ensures |r| == |ms|
    ensures |ms| > 0 ==> r[..|ms| - 1] == ms[..|ms| - 1] && r[|ms| - 1] == m
  {
    if |ms| == 0 then ms else ms[..|ms| - 1] + [m]
  }

  /**
   * One line of the read loop: a line with a fragment extends the accumulator
   * and rewrites the last message; any other line changes nothing.
   */
  function ApplyLine(p: Progress, line: string): (q: Progress)
    ensures Fragment(line).None? ==> q == p
    ensures Fragment(line).Some? ==> q.acc == p.acc + Fragment(line).value
    ensures Fragment(line).Some? ==> q.messages == ReplaceLast(p.messages, Message(Assistant, q.acc))
  {
    match Fragment(line)
    case None => p
    case Some(f) =>
      var acc := p.acc + f;
      Progress(ReplaceLast(p.messages, Message(Assistant, acc)), acc)
  }

  /** The inner `for` loop over the lines of one read. */
  function ApplyLines(p: Progress, lines: seq<string>): Progress
    decreases |lines|
  {
    if |lines| == 0 then p else ApplyLines(ApplyLine(p, lines[0]), lines[1..])
  }

  /** One pass of the outer `while` loop. */
  function ApplyRead(p: Progress, read: string): Progress {
    ApplyLines(p, Lines(read))
  }

  /** The outer `while` loop over all reads, in order. */
  function ApplyReads(p: Progress, received: seq<string>): Progress
    decreases |received|
  {
    if |received| == 0 then p else ApplyReads(ApplyRead(p, received[0]), received[1..])
  }

  /** One line keeps the loop invariant and adds exactly its fragment. */
  lemma ApplyLineKeepsShowing(p: Progress, line: string)
    requires Shows(p)
    ensures Shows(ApplyLine(p, line))
    ensures ApplyLine(p, line).acc == p.acc + Fragment(line).GetOr([])
    ensures |ApplyLine(p, line).messages| == |p.messages|
    ensures ApplyLine(p, line).messages[..|p.messages| - 1] == p.messages[..|p.messages| - 1]
  {
    if Fragment(line).None? {
      assert p.acc + [] == p.acc;
    }
  }

  /** Growing by `f` and then by `rest` is growing by `f + rest`. */
  lemma AccumulatesInOrder(a0: string, a1: string, a2: string, f: string, rest: string)
    requires a1 == a0 + f && a2 == a1 + rest
    ensures a2 == a0 + (f + rest)
  {
  }

  /**
   * After any run of lines the accumulator has grown by exactly the text of
   * those lines, the last message still shows it, and every earlier message
   * is untouched. Since the run is arbitrary, this holds after each line.
   */
  lemma {:induction false} ApplyLinesKeepsShowing(p: Progress, lines: seq<string>)
    requires Shows(p)
    ensures Shows(ApplyLines(p, lines))
    ensures ApplyLines(p, lines).acc == p.acc + Text(lines)
    ensures |ApplyLines(p, lines).messages| == |p.messages|
    ensures ApplyLines(p, lines).messages[..|p.messages| - 1] == p.messages[..|p.messages| - 1]
    decreases |lines|
  {
    if |lines| > 0 {
      var n := |p.messages|;
      var p1 := ApplyLine(p, lines[0]);
      var q := ApplyLines(p1, lines[1..]);
      assert ApplyLines(p, lines) == q;
      ApplyLineKeepsShowing(p, lines[0]);
      ApplyLinesKeepsShowing(p1, lines[1..]);
      assert q.messages[..n - 1] == p1.messages[..n - 1] == p.messages[..n - 1];
      var f := Fragment(lines[0]).GetOr([]);
      assert Text(lines) == f + Text(lines[1..]);
      AccumulatesInOrder(p.acc, p1.acc, q.acc, f, Text(lines[1..]));
    } else {
      assert p.acc + Text(lines) == p.acc;
    }
  }

  /** The same over whole reads: the accumulator grows by the text of all their lines. */
  lemma {:induction false} ApplyReadsKeepsShowing(p: Progress, received: seq<string>)
    requires Shows(p)
    ensures Shows(ApplyReads(p, received))
    ensures ApplyReads(p, received).acc == p.acc + Text(ReadLines(received))
    ensures |ApplyReads(p, received).messages| == |p.messages|
    ensures ApplyReads(p, received).messages[..|p.messages| - 1] == p.messages[..|p.messages| - 1]
    decreases |received|
  {
    if |received| > 0 {
      var n := |p.messages|;
      var ls := Lines(received[0]);
      var p1 := ApplyRead(p, received[0]);
      assert p1 == ApplyLines(p, ls);
      var q := ApplyReads(p1, received[1..]);
      assert ApplyReads(p, received) == q;
      ApplyLinesKeepsShowing(p, ls);
      ApplyReadsKeepsShowing(p1, received[1..]);
      assert q.messages[..n - 1] == p1.messages[..n - 1] == p.messages[..n - 1];
      assert ReadLines(received) == ls + ReadLines(received[1..]);
      TextAppend(ls, ReadLines(received[1..]));
      AccumulatesInOrder(p.acc, p1.acc, q.acc, Text(ls), Text(ReadLines(received[1..])));
    } else {
      assert p.acc + Text(ReadLines(received)) == p.acc;
    }
  }

  /** A read holding one whole line yields that line. */
  lemma LinesOfOneLine(line: string)
    requires line != [] && '\n' !in line
    ensures Lines(line + "\n") == [line]
    ensures Lines(line) == [line]
  {
    LinesOfTerminated([line]);
    assert Terminated([line]) == line + "\n";
    JoinThenSplit([line]);
  }

  /** The record the server writes for a non-empty text contributes that text. */
  lemma FragmentOfRecord(r: string)
    requires r != []
    ensures Fragment(Json.Record(r)) == Some(r)
  {
    Json.RecordQueryResult(r);
  }

  /** A lone opening brace is not JSON. */
  lemma BraceIsNotJson()
    ensures Json.ParseLine("{") == None
  {
    assert Json.SkipWs("{") == "{";
    assert "{"[1..] == [];
    assert Json.SkipWs([]) == [];
    assert Json.ParseString([]) == None;
  }

  /** A record without its opening brace is one line that is not JSON. */
  lemma RecordTailIsNotJson(r: string)
    ensures Json.Record(r)[1..] != [] && '\n' !in Json.Record(r)[1..]
    ensures Json.ParseLine(Json.Record(r)[1..]) == None
  {
    var line := Json.Record(r);
    Json.RecordIsOneLine(r);
    var tail := line[1..];
    assert tail[0] == '"';
    forall i | 0 <= i < |tail| ensures tail[i] != '\n' {
      assert tail[i] == line[i + 1];
    }
    assert Json.SkipWs(tail) == tail;
  }

  /** The text of two reads is the text of the first followed by that of the second. */
  lemma TwoReads(a: string, b: string)
    ensures Text(ReadLines([a, b])) == Text(Lines(a)) + Text(Lines(b))
  {
    assert [a, b][1..] == [b];
    assert [b][1..] == [];
    assert ReadLines([b]) == Lines(b) + [];
    assert Lines(b) + [] == Lines(b);
    TextAppend(Lines(a), Lines(b));
  }

  /**
   * A line cut anywhere between two reads, with neither half parsing, gives
   * nothing, although the same line read whole gives its fragment.
   */
  lemma CutLineIsLost(line: string, k: nat, r: string)
    requires 1 <= k < |line| && '\n' !in line
    requires Fragment(line[..k]) == None && Fragment(line[k..]) == None
    requires Fragment(line) == Some(r)
    ensures Text(ReadLines([line[..k], line[k..] + "\n"])) == []
    ensures Text(ReadLines([line + "\n"])) == r
  {
    var head := line[..k];
    var tail := line[k..];
    assert '\n' !in head by {
      forall i | 0 <= i < |head| ensures head[i] != '\n' {
        assert head[i] == line[i];
      }
    }
    assert '\n' !in tail by {
      forall i | 0 <= i < |tail| ensures tail[i] != '\n' {
        assert tail[i] == line[i + k];
      }
    }
    LinesOfOneLine(head);
    LinesOfOneLine(tail);
    LinesOfOneLine(line);
    assert Text([head]) == [] by {
      assert [head][1..] == [];
    }
    assert Text([tail]) == [] by {
      assert [tail][1..] == [];
    }
    TwoReads(head, tail + "\n");
    assert [line + "\n"][1..] == [];
    assert ReadLines([line + "\n"]) == [line] + [];
    assert [line][1..] == [];
    assert Text([line]) == r + [];
  }

  /**
   * Lines are not carried over between reads: a record the transport cuts
   * after its opening brace is lost, although the same bytes read at once
   * give its text.
   */
  lemma CutRecordIsLost(r: string)
    requires r != []
    ensures Text(ReadLines([Json.Record(r)[..1], Json.Record(r)[1..] + "\n"])) == []
    ensures Text(ReadLines([Json.Record(r) + "\n"])) == r
  {
    var line := Json.Record(r);
    Json.RecordIsOneLine(r);
    Json.RecordQueryResult(r);
    assert line[..1] == ['{'];
    RecordTailIsNotJson(r);
    BraceIsNotJson();
    CutLineIsLost(line, 1, r);
  }
}
