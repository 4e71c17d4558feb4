/**
  * The parts of JavaScript's string built-ins that the formula splitter relies on:
  * the character classes of ECMAScript (WhiteSpace, LineTerminator, and the `.` of a
  * non-dotAll regular expression) and `String.prototype.trim`.
  */
module JsString {

  /** ECMAScript LineTerminator: LF, CR, LINE SEPARATOR, PARAGRAPH SEPARATOR. */
  predicate IsLineTerminator(c: char) {
    c == '\n' || c == '\r' || c == '\U{2028}' || c == '\U{2029}'
  }

  /**
    * ECMAScript WhiteSpace: TAB, VT, FF, ZWNBSP and every character of Unicode
    * category Zs (SPACE, NBSP, OGHAM SPACE MARK, U+2000..U+200A, U+202F, U+205F, U+3000).
    */
  predicate IsWhiteSpace(c: char) {
    c == '\t' || c == '\U{B}' || c == '\U{C}' || c == '\U{FEFF}' ||
    c == ' ' || c == '\U{A0}' || c == '\U{1680}' ||
    ('\U{2000}' <= c <= '\U{200A}') || c == '\U{202F}' || c == '\U{205F}' || c == '\U{3000}'
  }

  /** What `trim` strips: WhiteSpace and LineTerminator characters. */
  predicate IsTrimmable(c: char) {
    IsWhiteSpace(c) || IsLineTerminator(c)
  }

  /** The `.` of a regular expression without the `s` flag: anything but a line terminator. */
  predicate MatchesDot(c: char) {
    !IsLineTerminator(c)
  }

  /** Index `k` of `s` holds a trimmable character. */
  ghost predicate TrimmableAt(s: string, k: int) {
    0 <= k < |s| && IsTrimmable(s[k])
  }

  /** Removes the longest prefix of trimmable characters. */
  function TrimStart(s: string): (r: string)
    ensures |r| <= |s| && r == s[|s| - |r|..]
    ensures r != [] ==> !IsTrimmable(r[0])
  {
    if s != [] && IsTrimmable(s[0]) then TrimStart(s[1..]) else s
  }

  /** Removes the longest suffix of trimmable characters. */
  function TrimEnd(s: string): (r: string)
    ensures |r| <= |s| && r == s[..|r|]
    ensures r != [] ==> !IsTrimmable(r[|r| - 1])
  {
    if s != [] && IsTrimmable(s[|s| - 1]) then TrimEnd(s[..|s| - 1]) else s
  }

  /** `TrimStart` drops a prefix made of trimmable characters only. */
  lemma {:induction false} TrimStartDropsPrefix(s: string)
    ensures forall k :: 0 <= k < |s| - |TrimStart(s)| ==> IsTrimmable(s[k])
  {
    if s != [] && IsTrimmable(s[0]) {
      TrimStartDropsPrefix(s[1..]);
      assert forall k :: 1 <= k < |s| - |TrimStart(s)| ==> s[k] == s[1..][k - 1];
    }
  }

  /** `TrimEnd` drops a suffix made of trimmable characters only. */
  lemma {:induction false} TrimEndDropsSuffix(s: string)
    ensures forall k :: |TrimEnd(s)| <= k < |s| ==> IsTrimmable(s[k])
  {
    if s != [] && IsTrimmable(s[|s| - 1]) {
      TrimEndDropsSuffix(s[..|s| - 1]);
    }
  }

  /**
    * `r` is what is left of `s` once the trimmable characters before index `i` and
    * after index `i + |r|` are removed.
    */
  ghost predicate TrimmedAt(s: string, i: int, r: string) {
    0 <= i <= |s| - |r| && r == s[i..i + |r|] &&
    (forall k :: 0 <= k < i ==> IsTrimmable(s[k])) &&
    (forall k :: i + |r| <= k < |s| ==> IsTrimmable(s[k]))
  }

  /** `String.prototype.trim`: strips trimmable characters from both ends. */
  function Trim(s: string): (r: string)
    ensures |r| <= |s|
    ensures r != [] ==> !IsTrimmable(r[0]) && !IsTrimmable(r[|r| - 1])
  {
    var t := TrimStart(s);
    var r := TrimEnd(t);
    assert r != [] ==> r[0] == t[0];
    r
  }

  /**
    * A prefix `r` of the suffix `t` of `s` that starts at `i` is trimmed at `i` when
    * only trimmable characters precede `t` and follow `r` inside `t`.
    */
  lemma {:induction false} PrefixOfSuffixTrimmedAt(s: string, t: string, r: string, i: nat)
    requires i <= |s| && t == s[i..]
    requires |r| <= |t| && r == t[..|r|]
    requires forall k :: 0 <= k < i ==> IsTrimmable(s[k])
    requires forall k :: |r| <= k < |t| ==> IsTrimmable(t[k])
    ensures TrimmedAt(s, i, r)
  {
    forall k | i + |r| <= k < |s|
      ensures IsTrimmable(s[k])
    {
      assert s[k] == t[k - i];
    }
    assert s[i..][..|r|] == s[i..i + |r|];
  }

  /** `trim` leaves an infix of `s` surrounded only by trimmable characters. */
  lemma TrimIsInfix(s: string)
    ensures TrimmedAt(s, |s| - |TrimStart(s)|, Trim(s))
  {
    var t := TrimStart(s);
    TrimStartDropsPrefix(s);
    TrimEndDropsSuffix(t);
    PrefixOfSuffixTrimmedAt(s, t, TrimEnd(t), |s| - |t|);
  }

  /** Every character `trim` keeps comes from its input. */
  lemma TrimKeepsCharacters(s: string)
    ensures forall c :: c in Trim(s) ==> c in s
  {
    TrimIsInfix(s);
    var i := |s| - |TrimStart(s)|;
    var r := Trim(s);
    assert forall k :: 0 <= k < |r| ==> r[k] == s[i + k];
  }

  /**
    * `trim` is determined by its contract: an infix that has non-trimmable ends and
    * only trimmable characters around it is what `trim` returns.
    */
  lemma {:induction false} TrimUnique(s: string, i: nat, j: nat)
    requires i < j <= |s|
    requires !IsTrimmable(s[i]) && !IsTrimmable(s[j - 1])
    requires forall k :: 0 <= k < i ==> IsTrimmable(s[k])
    requires forall k :: j <= k < |s| ==> IsTrimmable(s[k])
    ensures Trim(s) == s[i..j]
  {
    var r := Trim(s);
    var i' := |s| - |TrimStart(s)|;
    TrimIsInfix(s);
    var e := i' + |r|;
    // each fact below rules out one way of missing the infix s[i..j]
    assert i < i' ==> TrimmableAt(s, i);
    assert i' < i ==> TrimmableAt(s, i');
    assert r == [] && i' <= i ==> TrimmableAt(s, i);
    assert r != [] ==> r[0] == s[i'] && r[|r| - 1] == s[e - 1];
    assert e < j ==> TrimmableAt(s, j - 1);
    assert j < e ==> TrimmableAt(s, e - 1);
    assert i' == i && e == j;
  }

  /** A space added after an already trimmed string is trimmed away again. */
  lemma TrimSpaceAfter(s: string)
    requires s != [] && !IsTrimmable(s[0]) && !IsTrimmable(s[|s| - 1])
    ensures Trim(s + " ") == s
  {
    TrimUnique(s + " ", 0, |s|);
    assert (s + " ")[..|s|] == s;
  }

  /** A space added before an already trimmed string is trimmed away again. */
  lemma TrimSpaceBefore(s: string)
    requires s != [] && !IsTrimmable(s[0]) && !IsTrimmable(s[|s| - 1])
    ensures Trim(" " + s) == s
  {
    TrimUnique(" " + s, 1, |s| + 1);
    assert (" " + s)[1..] == s;
  }

  /** A string with no trimmable character at either end is left as it is. */
  lemma TrimNoop(s: string)
    requires s != [] && !IsTrimmable(s[0]) && !IsTrimmable(s[|s| - 1])
    ensures Trim(s) == s
  {
    TrimUnique(s, 0, |s|);
  }
}
