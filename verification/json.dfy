/**
 * The part of JSON the answer stream uses: `JSON.stringify` of a
 * `{queryResult: string}` record on the server, and `JSON.parse` of one line
 * on the client. String escaping follows section 7 of RFC 8259 with the
 * choices ECMAScript's `JSON.stringify` makes (two-character escapes for
 * `"`, `\`, backspace, tab, line feed, form feed and carriage return,
 * `\u00xx` in lower-case hex for the other control characters).
 *
 * The parser accepts objects whose member values are strings, surrounded by
 * JSON whitespace; everything else is reported as a parse failure.
 */
module Json {
  import opened Options

  /** One `"key": "value"` member of a JSON object. */
  datatype Member = Member(key: string, value: string)

  /** The one key the answer stream carries. */
  const QueryResultKey: string := "queryResult"

  // ----------------------------------------------------------------------
  // Hex digits

  function HexValue(c: char): (r: Option<nat>)
    ensures r.Some? ==> r.value < 16
  {
    if '0' <= c <= '9' then Some(c as int - '0' as int)
    else if 'a' <= c <= 'f' then Some(c as int - 'a' as int + 10)
    else if 'A' <= c <= 'F' then Some(c as int - 'A' as int + 10)
    else None
  }

  /** The lower-case hex digit `JSON.stringify` writes for `n`. */
  function HexDigit(n: nat): (c: char)
    requires n < 16
    ensures HexValue(c) == Some(n)
  {
    if n < 10 then ('0' as int + n) as char else ('a' as int + n - 10) as char
  }

  /** The value of four hex digits. */
  function Hex4(h: string): (r: Option<nat>)
    requires |h| == 4
    ensures r.Some? ==> r.value < 0x1_0000
  {
    match (HexValue(h[0]), HexValue(h[1]), HexValue(h[2]), HexValue(h[3]))
    case (Some(a), Some(b), Some(c), Some(d)) => Some(((a * 16 + b) * 16 + c) * 16 + d)
    case _ => None
  }

  // ----------------------------------------------------------------------
  // Writing

  /** How one character is written inside a JSON string literal. */
  function EscapeChar(c: char): (r: string)
    ensures 1 <= |r|
    ensures forall i :: 0 <= i < |r| ==> r[i] as int >= 0x20
  {
    if c == '"' then ['\\', '"']
    else if c == '\\' then ['\\', '\\']
    else if c as int == 0x08 then ['\\', 'b']
    else if c == '\t' then ['\\', 't']
    else if c == '\n' then ['\\', 'n']
    else if c as int == 0x0C then ['\\', 'f']
    else if c == '\r' then ['\\', 'r']
    else if c as int < 0x20 then ['\\', 'u', '0', '0', HexDigit(c as int / 16), HexDigit(c as int % 16)]
    else [c]
  }

  /**
   * The body of the string literal `JSON.stringify` writes for `s`. No raw
   * control character survives, so in particular no line feed does.
   */
  function Escape(s: string): (r: string)
    ensures |s| <= |r|
    ensures forall i :: 0 <= i < |r| ==> r[i] as int >= 0x20
  {
    if |s| == 0 then [] else EscapeChar(s[0]) + Escape(s[1..])
  }

  /** The string literal `JSON.stringify` writes for `s`, quotes included. */
  function Quote(s: string): (r: string)
    ensures 2 <= |r| && r[0] == '"'
    ensures forall i :: 0 <= i < |r| ==> r[i] as int >= 0x20
  {
    "\"" + Escape(s) + "\""
  }

  /** `JSON.stringify` of an object with the one member `k: v`: keys are quoted like values, no spaces. */
  function SingleMemberObject(k: string, v: string): string {
    "{" + Quote(k) + ":" + Quote(v) + "}"
  }

  /** The key as `JSON.stringify` writes it (see `QuotedKeyIsQuote`). */
  const QuotedKey: string := "\"" + QueryResultKey + "\""

  /** `JSON.stringify({ queryResult: r })`. */
  function Record(r: string): string {
    "{" + QuotedKey + ":" + Quote(r) + "}"
  }

  /** Plain characters are written as they are. */
  lemma {:induction false} EscapePlain(s: string)
    requires forall i :: 0 <= i < |s| ==> s[i] as int >= 0x20 && s[i] != '"' && s[i] != '\\'
    ensures Escape(s) == s
  {
    if |s| > 0 {
      EscapePlain(s[1..]);
      assert [s[0]] + s[1..] == s;
    }
  }

  /** The key holds only plain characters. */
  lemma KeyIsPlain()
    ensures forall i :: 0 <= i < |QueryResultKey| ==>
      QueryResultKey[i] as int >= 0x20 && QueryResultKey[i] != '"' && QueryResultKey[i] != '\\'
  {
    forall i | 0 <= i < |QueryResultKey|
      ensures QueryResultKey[i] as int >= 0x20 && QueryResultKey[i] != '"' && QueryResultKey[i] != '\\'
    {
      assert 'A' <= QueryResultKey[i] <= 'z';
    }
  }

  /** The key needs no escaping. */
  lemma EscapedKey()
    ensures Escape(QueryResultKey) == QueryResultKey
  {
    KeyIsPlain();
    EscapePlain(QueryResultKey);
  }

  /** So its literal is the quoted key. */
  lemma QuotedKeyIsQuote()
    ensures Quote(QueryResultKey) == QuotedKey
  {
    EscapedKey();
  }

  /** A record is the one-member object of the `queryResult` key. */
  lemma RecordIsSingleMember(r: string)
    ensures Record(r) == SingleMemberObject(QueryResultKey, r)
  {
    QuotedKeyIsQuote();
  }

  /** A written one-member object is printable and opens with `{"`. */
  lemma SingleMemberShape(k: string, v: string)
    ensures |SingleMemberObject(k, v)| >= 2
    ensures SingleMemberObject(k, v)[0] == '{' && SingleMemberObject(k, v)[1] == '"'
    ensures forall i :: 0 <= i < |SingleMemberObject(k, v)| ==> SingleMemberObject(k, v)[i] as int >= 0x20
  {
    var a := Quote(k);
    var b := Quote(v);
    var line := SingleMemberObject(k, v);
    assert line == "{" + a + ":" + b + "}";
    forall i | 0 <= i < |line| ensures line[i] as int >= 0x20 {
      if i == 0 {
      } else if i < 1 + |a| {
        assert line[i] == a[i - 1];
      } else if i == 1 + |a| {
      } else if i < 2 + |a| + |b| {
        assert line[i] == b[i - 2 - |a|];
      }
    }
  }

  /**
   * A record holds no raw control character, so in particular no line feed:
   * it is always exactly one line.
   */
  lemma RecordIsOneLine(r: string)
    ensures |Record(r)| >= 2 && Record(r)[0] == '{' && Record(r)[1] == '"'
    ensures forall i :: 0 <= i < |Record(r)| ==> Record(r)[i] as int >= 0x20
    ensures '\n' !in Record(r)
  {
    RecordIsSingleMember(r);
    SingleMemberShape(QueryResultKey, r);
  }

  // ----------------------------------------------------------------------
  // Reading

  predicate IsWs(c: char) {
    c == ' ' || c == '\t' || c == '\n' || c == '\r'
  }

  /** Drops leading JSON whitespace. */
  function SkipWs(s: string): (r: string)
    ensures |r| <= |s|
    ensures |r| == 0 || !IsWs(r[0])
  {
    if |s| > 0 && IsWs(s[0]) then SkipWs(s[1..]) else s
  }

  /** Reads one escape sequence after its backslash: the character and the rest. */
  function Unescape(e: string): (r: Option<(char, string)>)
    ensures r.Some? ==> |r.value.1| < |e|
  {
    if |e| == 0 then None
    else if e[0] == '"' || e[0] == '\\' || e[0] == '/' then Some((e[0], e[1..]))
    else if e[0] == 'b' then Some((0x08 as char, e[1..]))
    else if e[0] == 'f' then Some((0x0C as char, e[1..]))
    else if e[0] == 'n' then Some(('\n', e[1..]))
    else if e[0] == 'r' then Some(('\r', e[1..]))
    else if e[0] == 't' then Some(('\t', e[1..]))
    else if e[0] == 'u' && |e| >= 5 then
      match Hex4(e[1..5])
      case None => None
      case Some(v) =>
        if 0xD800 <= v < 0xE000 then None else Some((v as char, e[5..]))
    else None
  }

  /**
   * Reads the body of a string literal (after its opening quote) up to and
   * including the closing quote: the decoded text and what follows.
   */
  function ParseStringBody(s: string): (r: Option<(string, string)>)
    ensures r.Some? ==> |r.value.1| < |s|
    decreases |s|
  {
    if |s| == 0 then None
    else if s[0] == '"' then Some(([], s[1..]))
    else if s[0] == '\\' then
      match Unescape(s[1..])
      case None => None
      case Some((c, rest)) =>
        match ParseStringBody(rest)
        case None => None
        case Some((text, after)) => Some(([c] + text, after))
    else if s[0] as int < 0x20 then None
    else
      match ParseStringBody(s[1..])
      case None => None
      case Some((text, after)) => Some(([s[0]] + text, after))
  }

  /** Reads a string literal after optional whitespace. */
  function ParseString(s: string): (r: Option<(string, string)>)
    ensures r.Some? ==> |r.value.1| < |s|
  {
    var t := SkipWs(s);
    if |t| == 0 || t[0] != '"' then None else ParseStringBody(t[1..])
  }

  /** Reads one `"key" : "value"` member. */
  function ParseMember(s: string): (r: Option<(Member, string)>)
    ensures r.Some? ==> |r.value.1| < |s|
  {
    match ParseString(s)
    case None => None
    case Some((key, s1)) =>
      var s2 := SkipWs(s1);
      if |s2| == 0 || s2[0] != ':' then None
      else
        match ParseString(s2[1..])
        case None => None
        case Some((value, s3)) => Some((Member(key, value), s3))
  }

  /** Reads `member (, member)* }`. */
  function ParseMembers(s: string): (r: Option<(seq<Member>, string)>)
    ensures r.Some? ==> |r.value.1| < |s|
    decreases |s|
  {
    match ParseMember(s)
    case None => None
    case Some((m, s1)) =>
      var s2 := SkipWs(s1);
      if |s2| == 0 then None
      else if s2[0] == '}' then Some(([m], s2[1..]))
      else if s2[0] == ',' then
        match ParseMembers(s2[1..])
        case None => None
        case Some((ms, s3)) => Some(([m] + ms, s3))
      else None
  }

  /** Reads `{ }` or `{ members }` after optional whitespace. */
  function ParseObject(s: string): Option<(seq<Member>, string)> {
    var t := SkipWs(s);
    if |t| == 0 || t[0] != '{' then None
    else
      var u := SkipWs(t[1..]);
      if |u| > 0 && u[0] == '}' then Some(([], u[1..])) else ParseMembers(u)
  }

  /** `JSON.parse(line)`: one object and nothing but whitespace after it. */
  function ParseLine(line: string): Option<seq<Member>> {
    match ParseObject(line)
    case None => None
    case Some((ms, rest)) => if SkipWs(rest) == [] then Some(ms) else None
  }

  /** Property access on a parsed object: with repeated keys the last one wins. */
  function Lookup(ms: seq<Member>, key: string): Option<string> {
    if |ms| == 0 then None
    else if ms[|ms| - 1].key == key then Some(ms[|ms| - 1].value)
    else Lookup(ms[..|ms| - 1], key)
  }

  /**
   * A key is found exactly when some member has it, and the value found is
   * that of the last member with the key.
   */
  lemma {:induction false} LookupFindsLast(ms: seq<Member>, key: string)
    ensures Lookup(ms, key).Some? <==> exists i :: 0 <= i < |ms| && ms[i].key == key
    ensures Lookup(ms, key).Some? ==>
      exists i :: 0 <= i < |ms| && ms[i].key == key && ms[i].value == Lookup(ms, key).value
        && forall j :: i < j < |ms| ==> ms[j].key != key
  {
    if |ms| > 0 {
      var n := |ms| - 1;
      if ms[n].key == key {
        assert ms[n].key == key && ms[n].value == Lookup(ms, key).value;
      } else {
        var init := ms[..n];
        LookupFindsLast(init, key);
        assert Lookup(ms, key) == Lookup(init, key);
        assert forall i :: 0 <= i < n ==> init[i] == ms[i];
        if Lookup(ms, key).Some? {
          var i :| 0 <= i < n && init[i].key == key && init[i].value == Lookup(ms, key).value
                   && forall j :: i < j < n ==> init[j].key != key;
          assert ms[i].key == key && ms[i].value == Lookup(ms, key).value && forall j :: i < j < |ms| ==> ms[j].key != key;
        } else {
          assert forall i :: 0 <= i < |ms| ==> ms[i].key != key;
        }
      }
    }
  }

  /** `v` is the value of the last member of `ms` whose key is `key`. */
  predicate IsLastValue(ms: seq<Member>, key: string, v: string) {
    exists i :: 0 <= i < |ms| && ms[i].key == key && ms[i].value == v
      && forall j :: i < j < |ms| ==> ms[j].key != key
  }

  /** Property access finds `v` exactly when `v` is the value of the last member with the key. */
  lemma LookupIsLastValue(ms: seq<Member>, key: string, v: string)
    ensures Lookup(ms, key) == Some(v) <==> IsLastValue(ms, key, v)
  {
    LookupFindsLast(ms, key);
    if IsLastValue(ms, key, v) {
      var i :| 0 <= i < |ms| && ms[i].key == key && ms[i].value == v
        && forall j :: i < j < |ms| ==> ms[j].key != key;
      var w := Lookup(ms, key).value;
      var i' :| 0 <= i' < |ms| && ms[i'].key == key && ms[i'].value == w
        && forall j :: i' < j < |ms| ==> ms[j].key != key;
      assert !(i < i') && !(i' < i);
    }
  }

  // ----------------------------------------------------------------------
  // Round trip

  /** Reading one escaped character back gives that character. */
  lemma EscapeCharRoundTrip(c: char, tail: string, text: string, after: string)
    requires ParseStringBody(tail) == Some((text, after))
    ensures ParseStringBody(EscapeChar(c) + tail) == Some(([c] + text, after))
  {
    var e := EscapeChar(c);
    var s := e + tail;
    assert s[0] == e[0];
    if |e| == 1 {
      assert s[1..] == tail;
    } else {
      assert s[1..] == e[1..] + tail;
      if c as int < 0x20 && |e| == 6 {
        var h := s[1..][1..5];
        assert h == e[2..6];
        assert HexValue(h[0]) == Some(0) && HexValue(h[1]) == Some(0);
        assert Hex4(h) == Some(c as int);
        assert s[1..][5..] == tail;
      } else {
        assert s[1..][1..] == tail;
      }
    }
  }

  /** Reading an escaped string literal back gives the original string. */
  lemma {:induction false} StringRoundTrip(x: string, rest: string)
    ensures ParseStringBody(Escape(x) + "\"" + rest) == Some((x, rest))
  {
    if |x| == 0 {
      assert Escape(x) + "\"" + rest == "\"" + rest;
      assert ("\"" + rest)[1..] == rest;
    } else {
      StringRoundTrip(x[1..], rest);
      assert Escape(x) + "\"" + rest == EscapeChar(x[0]) + (Escape(x[1..]) + "\"" + rest);
      EscapeCharRoundTrip(x[0], Escape(x[1..]) + "\"" + rest, x[1..], rest);
      assert [x[0]] + x[1..] == x;
    }
  }

  /** Reading a quoted string literal back gives the original string. */
  lemma ParseQuoted(x: string, rest: string)
    ensures ParseString(Quote(x) + rest) == Some((x, rest))
  {
    var s := Quote(x) + rest;
    assert SkipWs(s) == s;
    assert s[1..] == Escape(x) + "\"" + rest;
    StringRoundTrip(x, rest);
  }

  /** Concatenation regrouped to the right, for reading a member from the front. */
  lemma Regroup(a: string, b: string, c: string, d: string)
    ensures a + b + c + d == a + (b + (c + d))
  {
  }

  /** Reading a written member back gives its key and value. */
  lemma ParseWrittenMember(k: string, v: string, rest: string)
    ensures ParseMember(Quote(k) + ":" + Quote(v) + rest) == Some((Member(k, v), rest))
  {
    var valuePart := Quote(v) + rest;
    var afterKey := [':'] + valuePart;
    var s := Quote(k) + ":" + Quote(v) + rest;
    Regroup(Quote(k), ":", Quote(v), rest);
    ParseQuoted(k, afterKey);
    assert afterKey[1..] == valuePart;
    ParseQuoted(v, rest);
    ParseMemberStep(s, k, afterKey, v, rest);
  }

  lemma ParseMemberStep(s: string, key: string, s1: string, value: string, s3: string)
    requires ParseString(s) == Some((key, s1))
    requires |s1| > 0 && s1[0] == ':'
    requires ParseString(s1[1..]) == Some((value, s3))
    ensures ParseMember(s) == Some((Member(key, value), s3))
  {
    assert SkipWs(s1) == s1;
  }

  /** A one-member object body: the member, then `}`. */
  lemma ParseLastMemberStep(s: string, m: Member, s1: string)
    requires ParseMember(s) == Some((m, s1))
    requires |s1| > 0 && s1[0] == '}'
    ensures ParseMembers(s) == Some(([m], s1[1..]))
  {
    assert SkipWs(s1) == s1;
  }

  /** An object that starts at once with `{` and a member. */
  lemma ParseObjectStep(s: string, ms: seq<Member>, rest: string)
    requires |s| > 1 && s[0] == '{' && s[1] == '"'
    requires ParseMembers(s[1..]) == Some((ms, rest))
    ensures ParseObject(s) == Some((ms, rest))
  {
    assert SkipWs(s) == s;
    assert SkipWs(s[1..]) == s[1..];
  }

  /** Parsing a written one-member object gives back that member. */
  lemma SingleMemberRoundTrip(k: string, v: string)
    ensures ParseLine(SingleMemberObject(k, v)) == Some([Member(k, v)])
  {
    var line := SingleMemberObject(k, v);
    var body := Quote(k) + ":" + Quote(v) + "}";
    assert line == "{" + body;
    assert line[1..] == body;
    assert body[0] == '"';
    ParseWrittenMember(k, v, "}");
    ParseLastMemberStep(body, Member(k, v), "}");
    ParseObjectStep(line, [Member(k, v)], "}"[1..]);
    ParseLineStep(line, [Member(k, v)]);
  }

  /**
   * Parsing what the server writes gives back exactly one member, the
   * `queryResult` key with the original text.
   */
  lemma RecordRoundTrip(r: string)
    ensures ParseLine(Record(r)) == Some([Member(QueryResultKey, r)])
  {
    RecordIsSingleMember(r);
    SingleMemberRoundTrip(QueryResultKey, r);
  }

  /** An object body whose first member is followed by `,` and further members. */
  lemma ParseNextMemberStep(s: string, m: Member, s1: string, ms: seq<Member>, s3: string)
    requires ParseMember(s) == Some((m, s1))
    requires |s1| > 0 && s1[0] == ','
    requires ParseMembers(s1[1..]) == Some((ms, s3))
    ensures ParseMembers(s) == Some(([m] + ms, s3))
  {
    assert SkipWs(s1) == s1;
  }

  /** A two-member object regrouped around its first member, for reading it from the front. */
  lemma RegroupTwo(a: string, b: string, c: string, d: string)
    ensures "{" + a + ":" + b + "," + c + ":" + d + "}" == "{" + (a + ":" + b + ("," + (c + ":" + d + "}")))
  {
  }

  /** Parsing a written two-member object gives back both members, in order, even when the keys repeat. */
  lemma TwoMemberRoundTrip(k1: string, v1: string, k2: string, v2: string)
    ensures ParseLine("{" + Quote(k1) + ":" + Quote(v1) + "," + Quote(k2) + ":" + Quote(v2) + "}")
      == Some([Member(k1, v1), Member(k2, v2)])
  {
    var second := Quote(k2) + ":" + Quote(v2) + "}";
    ParseWrittenMember(k2, v2, "}");
    ParseLastMemberStep(second, Member(k2, v2), "}");
    var tail := "," + second;
    var first := Quote(k1) + ":" + Quote(v1) + tail;
    ParseWrittenMember(k1, v1, tail);
    assert tail[1..] == second;
    ParseNextMemberStep(first, Member(k1, v1), tail, [Member(k2, v2)], []);
    var line := "{" + first;
    RegroupTwo(Quote(k1), Quote(v1), Quote(k2), Quote(v2));
    assert line[1..] == first;
    assert first[0] == Quote(k1)[0];
    assert [Member(k1, v1)] + [Member(k2, v2)] == [Member(k1, v1), Member(k2, v2)];
    ParseObjectStep(line, [Member(k1, v1), Member(k2, v2)], []);
    ParseLineStep(line, [Member(k1, v1), Member(k2, v2)]);
  }

  lemma ParseLineStep(s: string, ms: seq<Member>)
    requires ParseObject(s) == Some((ms, []))
    ensures ParseLine(s) == Some(ms)
  {
  }

  /** The `queryResult` of the record the server writes is the original text. */
  lemma RecordQueryResult(r: string)
    ensures ParseLine(Record(r)).Some?
    ensures Lookup(ParseLine(Record(r)).value, QueryResultKey) == Some(r)
  {
    RecordRoundTrip(r);
    var ms := [Member(QueryResultKey, r)];
    assert ms[..0] == [];
  }
}
