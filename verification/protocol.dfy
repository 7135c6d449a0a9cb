/**
 * The answer stream end to end: what the query endpoint writes, read back by
 * the chat client. When every read delivers whole lines, the client ends up
 * with the in-order concatenation of the non-empty fragments the pipeline
 * yielded.
 */
module Protocol {
  import opened Options
  import opened Seqs
  import Json
  import opened QueryRoute
  import opened StreamDecode

  /** Reads that each deliver the concatenation of one group of whole lines. */
  function JoinedReads(groups: seq<seq<string>>): (received: seq<string>)
    ensures |received| == |groups|
    ensures forall i :: 0 <= i < |groups| ==> received[i] == Concat(groups[i])
  {
    seq(|groups|, i requires 0 <= i < |groups| => Concat(groups[i]))
  }

  /** The written lines are the records, each terminated by a line feed. */
  lemma {:induction false} ConcatFramed(frags: seq<string>)
    ensures Concat(Framed(frags)) == Terminated(Records(frags))
  {
    if |frags| > 0 {
      ConcatFramed(frags[1..]);
      assert Framed(frags)[1..] == Framed(frags[1..]);
      assert Records(frags)[1..] == Records(frags[1..]);
    }
  }

  /** Each record decodes to its own fragment, so together they decode to all of them. */
  lemma {:induction false} TextOfRecords(frags: seq<string>)
    requires forall i :: 0 <= i < |frags| ==> frags[i] != []
    ensures Text(Records(frags)) == Concat(frags)
  {
    if |frags| > 0 {
      TextOfRecords(frags[1..]);
      var recs := Records(frags);
      assert recs[0] == Json.Record(frags[0]);
      FragmentOfRecord(frags[0]);
      assert recs[1..] == Records(frags[1..]);
      assert Text(recs) == Fragment(recs[0]).GetOr([]) + Text(recs[1..]);
    }
  }

  /** A read of whole framed lines yields exactly their records. */
  lemma LinesOfFramed(frags: seq<string>)
    ensures Lines(Concat(Framed(frags))) == Records(frags)
  {
    ConcatFramed(frags);
    var recs := Records(frags);
    forall i | 0 <= i < |recs| ensures recs[i] != [] && '\n' !in recs[i] {
      Json.RecordIsOneLine(frags[i]);
    }
    LinesOfTerminated(recs);
  }

  /** A leading group of the framed lines frames a leading run of the fragments. */
  lemma SplitFramed(frags: seq<string>, g: seq<string>, rest: seq<string>)
    requires g + rest == Framed(frags)
    ensures |g| <= |frags|
    ensures g == Framed(frags[..|g|]) && rest == Framed(frags[|g|..])
  {
    var k := |g|;
    assert g == Framed(frags)[..k];
    assert rest == Framed(frags)[k..];
  }

  /** The records of a run of fragments, split anywhere, are the records of the two parts. */
  lemma RecordsSplit(frags: seq<string>, k: nat)
    requires k <= |frags|
    ensures Records(frags) == Records(frags[..k]) + Records(frags[k..])
  {
  }

  /**
   * However the framed lines are grouped into reads, as long as no line is
   * cut, the client splits the reads back into exactly the records.
   */
  lemma {:induction false} ReadsOfFramed(frags: seq<string>, groups: seq<seq<string>>)
    requires Flatten(groups) == Framed(frags)
    ensures ReadLines(JoinedReads(groups)) == Records(frags)
  {
    if |groups| == 0 {
      assert |frags| == 0;
    } else {
      var g := groups[0];
      var k := |g|;
      assert Flatten(groups) == g + Flatten(groups[1..]);
      SplitFramed(frags, g, Flatten(groups[1..]));
      ReadsOfFramed(frags[k..], groups[1..]);
      var received := JoinedReads(groups);
      assert received[1..] == JoinedReads(groups[1..]);
      LinesOfFramed(frags[..k]);
      RecordsSplit(frags, k);
    }
  }

  /** Reads of whole lines decode to the concatenation of the fragments. */
  lemma RoundTripFragments(frags: seq<string>, groups: seq<seq<string>>)
    requires forall i :: 0 <= i < |frags| ==> frags[i] != []
    requires Flatten(groups) == Framed(frags)
    ensures Text(ReadLines(JoinedReads(groups))) == Concat(frags)
  {
    ReadsOfFramed(frags, groups);
    TextOfRecords(frags);
  }

  /**
   * Round trip: however the transport groups the written lines into reads,
   * as long as no line is cut, the client decodes the non-empty results of
   * the run, in order.
   */
  lemma RoundTrip(chunks: seq<Chunk>, groups: seq<seq<string>>)
    requires Flatten(groups) == Encode(chunks)
    ensures Text(ReadLines(JoinedReads(groups))) == Concat(Fragments(chunks))
  {
    EncodeIsFramed(chunks);
    RoundTripFragments(Fragments(chunks), groups);
  }
}
