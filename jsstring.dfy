/** The few ECMAScript string operations the client relies on, with their
    JavaScript index semantics written out. */
module JsString {
  import opened Common

  /** The WhiteSpace and LineTerminator code points of ECMAScript, which is
      the set String.prototype.trim removes from both ends. */
  predicate IsWhitespace(c: char)
  {
    || c == '\t' || c == '\n' || c == '\U{000B}' || c == '\U{000C}' || c == '\r'
    || c == ' ' || c == '\U{00A0}' || c == '\U{1680}' || '\U{2000}' <= c <= '\U{200A}'
    || c == '\U{2028}' || c == '\U{2029}' || c == '\U{202F}' || c == '\U{205F}'
    || c == '\U{3000}' || c == '\U{FEFF}'
  }

  /** String.prototype.trimStart */
  function TrimStart(s: string): string
  {
    if s != [] && IsWhitespace(s[0]) then TrimStart(s[1..]) else s
  }

  /** String.prototype.trimEnd */
  function TrimEnd(s: string): string
  {
    if s != [] && IsWhitespace(s[|s| - 1]) then TrimEnd(s[..|s| - 1]) else s
  }

  /** String.prototype.trim */
  function Trim(s: string): string
  {
    TrimEnd(TrimStart(s))
  }

  /** trimStart leaves a suffix that does not start with whitespace, and
      everything it drops is whitespace. */
  lemma {:induction false} TrimStartSpec(s: string)
    ensures var r := TrimStart(s);
      && |r| <= |s| && r == s[|s| - |r|..]
      && (r != [] ==> !IsWhitespace(r[0]))
      && forall k :: 0 <= k < |s| - |r| ==> IsWhitespace(s[k])
  {
    if s != [] && IsWhitespace(s[0]) {
      TrimStartSpec(s[1..]);
      assert forall k :: 1 <= k < |s| ==> s[k] == s[1..][k - 1];
    }
  }

  /** trimEnd leaves a prefix that does not end with whitespace, and
      everything it drops is whitespace. */
  lemma {:induction false} TrimEndSpec(s: string)
    ensures var r := TrimEnd(s);
      && |r| <= |s| && r == s[..|r|]
      && (r != [] ==> !IsWhitespace(r[|r| - 1]))
      && forall k :: |r| <= k < |s| ==> IsWhitespace(s[k])
  {
    if s != [] && IsWhitespace(s[|s| - 1]) {
      TrimEndSpec(s[..|s| - 1]);
    }
  }

  /** trim keeps the stretch of s between its leading and its trailing
      whitespace: neither end of the result is whitespace, and everything
      dropped on either side is. */
  lemma TrimSpec(s: string)
    ensures var r, a := Trim(s), |s| - |TrimStart(s)|;
      && 0 <= a && a + |r| <= |s| && r == s[a..a + |r|]
      && (r != [] ==> !IsWhitespace(r[0]) && !IsWhitespace(r[|r| - 1]))
      && (forall k :: 0 <= k < a ==> IsWhitespace(s[k]))
      && (forall k :: a + |r| <= k < |s| ==> IsWhitespace(s[k]))
  {
    var t := TrimStart(s);
    TrimStartSpec(s);
    TrimEndSpec(t);
    var r, a := Trim(s), |s| - |t|;
    assert forall k :: a + |r| <= k < |s| ==> s[k] == t[k - a];
  }

  /** A field is empty after trimming exactly when it holds only whitespace. */
  lemma TrimEmpty(s: string)
    ensures Trim(s) == "" <==> forall k :: 0 <= k < |s| ==> IsWhitespace(s[k])
  {
    TrimSpec(s);
    TrimStartSpec(s);
  }

  /** The lower-case form of an ASCII capital letter; every other character is kept. */
  function LowerChar(c: char): char
  {
    if 'A' <= c <= 'Z' then (c as int + 32) as char else c
  }

  /** String.prototype.toLowerCase, on the ASCII letters. */
  function ToLowerCase(s: string): string
  {
    seq(|s|, i requires 0 <= i < |s| => LowerChar(s[i]))
  }

  /** String.prototype.endsWith */
  predicate EndsWith(s: string, suffix: string)
  {
    |suffix| <= |s| && s[|s| - |suffix|..] == suffix
  }

  /** How String.prototype.slice reads an index: a negative one counts from
      the end, and both are clamped to the string. */
  function SliceIndex(k: int, len: nat): (r: nat)
    ensures r <= len
  {
    if k < 0 then (if len + k < 0 then 0 else len + k)
    else if k > len then len
    else k
  }

  /** String.prototype.slice(start, end) */
  function Slice(s: string, start: int, end: int): string
  {
    var from, to := SliceIndex(start, |s|), SliceIndex(end, |s|);
    if from < to then s[from..to] else ""
  }

  /** slice with indices inside the string is the plain subsequence, and
      slice(-k) keeps the last k characters (all of them when k is larger). */
  lemma SliceSpec(s: string, a: int, b: int, k: nat)
    ensures 0 <= a <= b <= |s| ==> Slice(s, a, b) == s[a..b]
    ensures 0 < k ==> Slice(s, -(k as int), |s|) == s[|s| - Min(k, |s|)..]
    ensures 0 <= b <= a ==> Slice(s, a, b) == ""
  {
  }

  /** String.prototype.substring(start, end): negative indices count as 0 and
      the two ends are swapped when start is the larger. */
  function Substring(s: string, start: int, end: int): string
  {
    var a := if start < 0 then 0 else Min(start, |s|);
    var b := if end < 0 then 0 else Min(end, |s|);
    if a <= b then s[a..b] else s[b..a]
  }

  /** substring(0, n) is the first n characters (the whole string when n is
      larger), and the order of the two ends does not matter. */
  lemma SubstringSpec(s: string, a: int, b: int, n: nat)
    ensures Substring(s, 0, n) == s[..Min(n, |s|)]
    ensures Substring(s, a, b) == Substring(s, b, a)
  {
  }
}
