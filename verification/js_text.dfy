/**
 * The pieces of JavaScript string semantics the application relies on:
 * truthiness of a string and `String.prototype.trim`.
 */
module JsText {

  /**
   * The characters `trim` removes: the WhiteSpace and LineTerminator code
   * points of the ECMAScript grammar (tab, vertical tab, form feed, space,
   * no-break space, byte order mark, the Zs category, LF, CR, LS and PS).
   */
  predicate IsJsWhitespace(c: char) {
    || c == '\t' || c == '\n' || c == '\r' || c == ' '
    || c as int == 0x0B || c as int == 0x0C
    || c as int == 0xA0 || c as int == 0x1680
    || (0x2000 <= c as int <= 0x200A)
    || c as int == 0x2028 || c as int == 0x2029
    || c as int == 0x202F || c as int == 0x205F
    || c as int == 0x3000 || c as int == 0xFEFF
  }

  /** Every character of `s` is whitespace (the empty string included). */
  predicate IsBlank(s: string) {
    forall i :: 0 <= i < |s| ==> IsJsWhitespace(s[i])
  }

  /** A string is truthy in JavaScript exactly when it is not empty. */
  predicate Truthy(s: string) {
    |s| > 0
  }

  /** `trimStart`: drops the leading whitespace. */
  function TrimStart(s: string): (r: string)
    ensures |r| <= |s| && r == s[|s| - |r|..]
    ensures IsBlank(s[..|s| - |r|])
    ensures |r| == 0 || !IsJsWhitespace(r[0])
  {
    if |s| == 0 || !IsJsWhitespace(s[0]) then s
    else
      var r := TrimStart(s[1..]);
      assert s[..|s| - |r|] == [s[0]] + s[1..][..|s| - 1 - |r|];
      r
  }

  /** `trimEnd`: drops the trailing whitespace. */
  function TrimEnd(s: string): (r: string)
    ensures |r| <= |s| && r == s[..|r|]
    ensures IsBlank(s[|r|..])
    ensures |r| == 0 || !IsJsWhitespace(r[|r| - 1])
  {
    if |s| == 0 || !IsJsWhitespace(s[|s| - 1]) then s
    else
      var r := TrimEnd(s[..|s| - 1]);
      assert s[|r|..] == s[..|s| - 1][|r|..] + [s[|s| - 1]];
      r
  }

  /** `trim`: drops whitespace at both ends. */
  function Trim(s: string): string {
    TrimEnd(TrimStart(s))
  }

  /**
   * `!s.trim()` holds exactly when `s` consists of whitespace only: the
   * guard both chat hooks and the send buttons use.
   */
  lemma TrimEmptyIffBlank(s: string)
    ensures Trim(s) == [] <==> IsBlank(s)
  {
    var t := TrimStart(s);
    if |t| > 0 {
      assert t[0] == s[|s| - |t|];
      assert TrimEnd(t)[0..] == TrimEnd(t);
    } else {
      assert s[..|s|] == s;
    }
  }

  /**
   * What `trim` keeps, `r == TrimEnd(TrimStart(s))`, is the part of `s`
   * starting where `trimStart` stops.
   */
  lemma TrimKeepsMiddle(s: string, t: string, r: string)
    requires t == TrimStart(s) && r == TrimEnd(t)
    ensures r == Trim(s)
    ensures |s| - |t| + |r| <= |s| && r == s[|s| - |t|..|s| - |t| + |r|]
  {
    SliceOfSuffix(s, t, r);
  }

  /** A prefix of a suffix of `s` is a middle part of `s`. */
  lemma SliceOfSuffix(s: string, t: string, r: string)
    requires |t| <= |s| && t == s[|s| - |t|..]
    requires |r| <= |t| && r == t[..|r|]
    ensures r == s[|s| - |t|..|s| - |t| + |r|]
  {
  }

  /** What `trim` drops, before and after the part it keeps, is whitespace only. */
  lemma TrimDropsWhitespace(s: string, t: string, r: string)
    requires t == TrimStart(s) && r == TrimEnd(t)
    ensures r == Trim(s)
    ensures |s| - |t| + |r| <= |s| && IsBlank(s[..|s| - |t|]) && IsBlank(s[|s| - |t| + |r|..])
  {
    assert IsBlank(s[..|s| - |t|]);
    BlankTailOfSuffix(s, t, r);
  }

  /** Whitespace after a prefix of a suffix of `s` is whitespace at the end of `s`. */
  lemma BlankTailOfSuffix(s: string, t: string, r: string)
    requires |t| <= |s| && t == s[|s| - |t|..]
    requires |r| <= |t| && IsBlank(t[|r|..])
    ensures IsBlank(s[|s| - |t| + |r|..])
  {
    assert s[|s| - |t| + |r|..] == t[|r|..];
  }

  /** What `trim` keeps neither starts nor ends with whitespace. */
  lemma TrimEndsNotWhitespace(s: string)
    ensures |Trim(s)| == 0 || (!IsJsWhitespace(Trim(s)[0]) && !IsJsWhitespace(Trim(s)[|Trim(s)| - 1]))
  {
    var t := TrimStart(s);
    var r := TrimEnd(t);
    assert |r| > 0 ==> r[0] == t[0];
  }
}
