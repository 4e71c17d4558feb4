/**
  * The formula-text splitter of src/Table.tsx: `extract_name` and `extract_formula`
  * turn a line such as `Total Cells = Cell Density × Volume` into the column name
  * `Total Cells` and the formula text `Cell Density × Volume`, or into one of two
  * sentinel strings when the line is malformed.
  *
  * `extract_formula` splits with the regular expression `/=(.+)/`. A match is an `=`
  * followed by at least one character that is not a line terminator; since `.+` is
  * greedy the capture runs to the end of that line, so a line holds at most one
  * match and a second match can only start on a later line.
  */
module Extract {
  import opened Wrappers
  import opened JsString

  /** Returned by `extract_formula` when the split found no match. */
  const NoEqualSign: string := "No equal sign found"
  /** Returned by `extract_formula` when the split found more than one match. */
  const Nonsense: string := "nonsense"

  /* ---------- extract_name: `input.split(/=/)[0].trim()` ---------- */

  /** Index of the first occurrence of `c` in `s`, or `|s|` when there is none. */
  function IndexOf(s: string, c: char): (k: nat)
    ensures k <= |s|
    ensures k < |s| ==> s[k] == c
    ensures forall t :: 0 <= t < k ==> s[t] != c
  {
    if s == [] || s[0] == c then 0 else 1 + IndexOf(s[1..], c)
  }

  /** `extract_name`: the first piece of `input.split(/=/)`, trimmed. */
  function ExtractName(input: string): (name: string)
    ensures '=' !in input ==> name == Trim(input)
  {
    var k := IndexOf(input, '=');
    assert '=' !in input ==> input[..k] == input;
    Trim(input[..k])
  }

  /**
    * The name is the trimmed text before the first `=`, or the whole input trimmed
    * when there is no `=`; `k` below is either of those cut points.
    */
  lemma ExtractNameIsPrefix(input: string, k: nat)
    requires k <= |input|
    requires k < |input| ==> input[k] == '='
    requires forall t :: 0 <= t < k ==> input[t] != '='
    ensures ExtractName(input) == Trim(input[..k])
    ensures '=' !in ExtractName(input)
  {
    assert IndexOf(input, '=') == k;
    TrimKeepsCharacters(input[..k]);
  }

  /* ---------- extract_formula: `input.split(/=(.+)/)`, `pop()`, length checks ---------- */

  /** A match of `/=(.+)/` starts at index `q` of `s`. */
  predicate MatchAt(s: string, q: int) {
    0 <= q && q + 1 < |s| && s[q] == '=' && MatchesDot(s[q + 1])
  }

  /** `q` is the leftmost match in `s`. */
  ghost predicate FirstMatchAt(s: string, q: int) {
    MatchAt(s, q) && forall t :: 0 <= t < q ==> !MatchAt(s, t)
  }

  /** Some `=` of `s` is followed by a character of its own line. */
  ghost predicate HasMatch(s: string) {
    exists q :: MatchAt(s, q)
  }

  /** Two matching `=` signs with a line terminator between them. */
  ghost predicate MatchesOnTwoLines(s: string) {
    exists q1, t, q2 :: 0 <= q1 < t < q2 && MatchAt(s, q1) && MatchAt(s, q2) && IsLineTerminator(s[t])
  }

  /** The index at which the line containing index `k` ends (a line terminator or `|s|`). */
  function LineEnd(s: string, k: nat): (e: nat)
    requires k <= |s|
    ensures k <= e <= |s|
    ensures e < |s| ==> IsLineTerminator(s[e])
    ensures forall t :: k <= t < e ==> !IsLineTerminator(s[t])
    decreases |s| - k
  {
    if k == |s| || IsLineTerminator(s[k]) then k else LineEnd(s, k + 1)
  }

  /** The leftmost match at or after index `p`: where the split resumes its search. */
  function FirstMatch(s: string, p: nat): (r: Option<nat>)
    requires p <= |s|
    ensures r.Some? ==> p <= r.value && MatchAt(s, r.value)
    ensures r.Some? ==> forall t :: p <= t < r.value ==> !MatchAt(s, t)
    ensures r.None? ==> forall t :: p <= t ==> !MatchAt(s, t)
    decreases |s| - p
  {
    if p + 1 >= |s| then None
    else if MatchAt(s, p) then Some(p)
    else FirstMatch(s, p + 1)
  }

  /** What the group `(.+)` captures for the match at `q`: the rest of that line. */
  function Capture(s: string, q: nat): (c: string)
    requires MatchAt(s, q)
    ensures q + 1 + |c| <= |s| && c == s[q + 1..q + 1 + |c|]
    ensures |c| >= 1 && forall t :: q + 1 <= t < q + 1 + |c| ==> MatchesDot(s[t])
    ensures q + 1 + |c| < |s| ==> IsLineTerminator(s[q + 1 + |c|])
  {
    s[q + 1..LineEnd(s, q + 1)]
  }

  /**
    * `s.split(/=(.+)/)` from index `p` on: the text before each match, then its
    * capture, and finally the text after the last match.
    */
  function SplitParts(s: string, p: nat): (parts: seq<string>)
    requires p <= |s|
    ensures |parts| % 2 == 1
    ensures |parts| == 1 <==> FirstMatch(s, p).None?
    decreases |s| - p
  {
    match FirstMatch(s, p)
    case None => [s[p..]]
    case Some(q) =>
      var e := q + 1 + |Capture(s, q)|;
      [s[p..q], Capture(s, q)] + SplitParts(s, e)
  }

  /**
    * `extract_formula`: split, drop the last piece, then `'No equal sign found'` for
    * fewer than two pieces, `'nonsense'` for more than two, else the trimmed capture.
    */
  function ExtractFormula(input: string): (formula: string)
  {
    var parts := SplitParts(input, 0);
    var popped := parts[..|parts| - 1];
    if |popped| < 2 then NoEqualSign
    else if |popped| > 2 then Nonsense
    else Trim(popped[1])
  }

  /** A second match after the first one's line exists exactly when two lines match. */
  lemma {:induction false} SecondMatchIffTwoLines(s: string, q: nat)
    requires FirstMatchAt(s, q)
    ensures q + 1 + |Capture(s, q)| <= |s|
    ensures FirstMatch(s, q + 1 + |Capture(s, q)|).Some? <==> MatchesOnTwoLines(s)
  {
    var e := LineEnd(s, q + 1);
    assert e == q + 1 + |Capture(s, q)|;
    match FirstMatch(s, e)
    case Some(q2) =>
      assert s[q2] == '=' && !IsLineTerminator('=');
      assert 0 <= q < e < q2 && MatchAt(s, q) && MatchAt(s, q2) && IsLineTerminator(s[e]);
    case None =>
      forall q1, t, q2 | 0 <= q1 < t < q2 && t < |s| && MatchAt(s, q1) && IsLineTerminator(s[t])
        ensures !MatchAt(s, q2)
      {
        assert q <= q1;
        assert e <= t;
      }
  }

  /** With no match at all, `split` returns the input alone and the result is `'No equal sign found'`. */
  lemma FormulaWithoutMatch(input: string)
    requires FirstMatch(input, 0).None?
    ensures !HasMatch(input) && !MatchesOnTwoLines(input)
    ensures ExtractFormula(input) == NoEqualSign
  {
  }

  /** The match `FirstMatch` finds from the start is the only leftmost match. */
  lemma FirstMatchUnique(input: string, q: nat)
    requires FirstMatch(input, 0) == Some(q)
    ensures FirstMatchAt(input, q)
    ensures forall q' :: FirstMatchAt(input, q') ==> q' == q
  {
    forall q' | FirstMatchAt(input, q') ensures q' == q {
      assert !(q' < q) && !(q < q');
    }
  }

  /**
    * With a first match at `q`, the parts after `pop` are the text before `q`, the
    * capture, and all but the last part of the rest: exactly two when the rest has
    * no match.
    */
  lemma FormulaAfterFirstMatch(input: string, q: nat)
    requires FirstMatch(input, 0) == Some(q)
    ensures q + 1 + |Capture(input, q)| <= |input|
    ensures ExtractFormula(input) ==
      if FirstMatch(input, q + 1 + |Capture(input, q)|).Some? then Nonsense else Trim(Capture(input, q))
  {
    var e := q + 1 + |Capture(input, q)|;
    var rest := SplitParts(input, e);
    var parts := SplitParts(input, 0);
    assert parts == [input[..q], Capture(input, q)] + rest;
    assert parts[1] == Capture(input, q);
  }

  /**
    * With a first match at `q`, the result is `'nonsense'` when another line also
    * matches and the trimmed capture otherwise.
    */
  lemma FormulaWithMatch(input: string, q: nat)
    requires FirstMatch(input, 0) == Some(q)
    ensures FirstMatchAt(input, q)
    ensures forall q' :: FirstMatchAt(input, q') ==> q' == q
    ensures ExtractFormula(input) == if MatchesOnTwoLines(input) then Nonsense else Trim(Capture(input, q))
  {
    FirstMatchUnique(input, q);
    SecondMatchIffTwoLines(input, q);
    FormulaAfterFirstMatch(input, q);
  }

  /**
    * The three outcomes of `extract_formula`: no match gives `'No equal sign found'`,
    * matches on two lines give `'nonsense'`, and otherwise the result is the trimmed
    * rest of the line after the first matching `=` (later `=` on that line included).
    */
  lemma ExtractFormulaCases(input: string)
    ensures !HasMatch(input) ==> ExtractFormula(input) == NoEqualSign
    ensures HasMatch(input) ==> exists q :: FirstMatchAt(input, q)
    ensures MatchesOnTwoLines(input) ==> ExtractFormula(input) == Nonsense
    ensures forall q :: FirstMatchAt(input, q) && !MatchesOnTwoLines(input) ==>
      ExtractFormula(input) == Trim(Capture(input, q))
  {
    match FirstMatch(input, 0)
    case None => FormulaWithoutMatch(input);
    case Some(q) => FormulaWithMatch(input, q);
  }

  /** `extract_formula` yields `'No equal sign found'` for any input with no match. */
  lemma NoMatchMeansNoEqualSign(input: string)
    requires forall q :: 0 <= q < |input| && input[q] == '=' ==> q + 1 == |input| || IsLineTerminator(input[q + 1])
    ensures ExtractFormula(input) == NoEqualSign
  {
    ExtractFormulaCases(input);
  }

  /**
    * The sentinels are only reachable by a different path: when the result is
    * `'No equal sign found'` or `'nonsense'` but the input has a single matching line,
    * the user's own formula text trimmed to that sentinel.
    */
  lemma SentinelFromSingleLine(input: string, q: nat)
    requires FirstMatchAt(input, q) && !MatchesOnTwoLines(input)
    requires ExtractFormula(input) in {NoEqualSign, Nonsense}
    ensures Trim(Capture(input, q)) in {NoEqualSign, Nonsense}
  {
    ExtractFormulaCases(input);
  }

  /** The characters of `name + "=" + formula`, position by position. */
  lemma {:induction false} JoinedAt(name: string, formula: string)
    ensures |name + "=" + formula| == |name| + 1 + |formula|
    ensures (name + "=" + formula)[..|name|] == name
    ensures (name + "=" + formula)[|name|] == '='
    ensures (name + "=" + formula)[|name| + 1..] == formula
    ensures forall t :: 0 <= t < |name| ==> (name + "=" + formula)[t] == name[t]
    ensures forall t :: 0 <= t < |formula| ==> (name + "=" + formula)[|name| + 1 + t] == formula[t]
  {
    var s := name + "=" + formula;
    assert s == name + (['='] + formula);
  }

  /** A match followed only by characters of its own line captures the whole rest. */
  lemma CaptureToEnd(s: string, q: nat)
    requires MatchAt(s, q)
    requires forall t :: q < t < |s| ==> !IsLineTerminator(s[t])
    ensures Capture(s, q) == s[q + 1..]
  {
    assert LineEnd(s, q + 1) == |s|;
  }

  /** With no match before index `n` and no line terminator after it, all matches share a line. */
  lemma OneLine(s: string, n: nat)
    requires forall t :: 0 <= t < n ==> !MatchAt(s, t)
    requires forall t :: n < t < |s| ==> !IsLineTerminator(s[t])
    ensures !MatchesOnTwoLines(s)
  {
    forall q1, t, q2 | 0 <= q1 < t < q2 && MatchAt(s, q1) && MatchAt(s, q2)
      ensures !IsLineTerminator(s[t])
    {
      assert n <= q1;
    }
  }

  /**
    * A single line `name = formula` splits back into its two halves: the trimmed name
    * and the trimmed formula, whatever further `=` the formula contains.
    */
  lemma {:induction false} SplitSingleLine(name: string, formula: string)
    requires '=' !in name
    requires formula != [] && forall t :: 0 <= t < |formula| ==> !IsLineTerminator(formula[t])
    ensures ExtractName(name + "=" + formula) == Trim(name)
    ensures ExtractFormula(name + "=" + formula) == Trim(formula)
  {
    var s := name + "=" + formula;
    var n := |name|;
    JoinedAt(name, formula);
    forall t | 0 <= t < n ensures s[t] != '=' {
      assert s[t] == name[t] && name[t] in name;
    }
    ExtractNameIsPrefix(s, n);
    assert MatchAt(s, n) by {
      assert s[n + 1] == formula[0];
    }
    assert FirstMatchAt(s, n);
    forall t | n < t < |s| ensures !IsLineTerminator(s[t]) {
      assert s[t] == formula[t - n - 1];
    }
    CaptureToEnd(s, n);
    OneLine(s, n);
    ExtractFormulaCases(s);
  }

  /**
    * The line `name = formula`, written with one space around the `=` as the dialog's
    * example does, splits back into exactly `name` and `formula` when neither has
    * surrounding white space, the name has no `=` and the formula fits on one line.
    */
  lemma SplitSpacedLine(name: string, formula: string)
    requires name != [] && !IsTrimmable(name[0]) && !IsTrimmable(name[|name| - 1])
    requires formula != [] && !IsTrimmable(formula[0]) && !IsTrimmable(formula[|formula| - 1])
    requires '=' !in name
    requires forall t :: 0 <= t < |formula| ==> !IsLineTerminator(formula[t])
    ensures ExtractName(name + " = " + formula) == name
    ensures ExtractFormula(name + " = " + formula) == formula
  {
    var n, f := name + " ", " " + formula;
    assert name + " = " + formula == n + "=" + f;
    assert '=' !in n;
    forall t | 0 <= t < |f| ensures !IsLineTerminator(f[t]) {
      if t > 0 {
        assert f[t] == formula[t - 1];
      }
    }
    SplitSingleLine(n, f);
    TrimSpaceAfter(name);
    TrimSpaceBefore(formula);
  }

  /* ---------- examples ---------- */

  /** A line for the product formula, written with the `×` the materialiser compares against. */
  lemma ExampleTotalCells(name: string, formula: string)
    requires name == "Total Cells" && formula == "Cell Density × Volume"
    ensures ExtractName(name + " = " + formula) == "Total Cells"
    ensures ExtractFormula(name + " = " + formula) == "Cell Density × Volume"
  {
    SplitSpacedLine(name, formula);
  }

  /** Later `=` on the matching line stay in the formula: `X = A = B` gives `A = B`. */
  lemma ExampleSecondEqualSignKept(name: string, formula: string)
    requires name == "X" && formula == "A = B"
    ensures ExtractName(name + " = " + formula) == "X"
    ensures ExtractFormula(name + " = " + formula) == "A = B"
  {
    SplitSpacedLine(name, formula);
  }

  /** A formula whose text is literally `nonsense` is indistinguishable from the error. */
  lemma ExampleSentinelCollision(name: string, formula: string)
    requires name == "X" && formula == "nonsense"
    ensures ExtractFormula(name + " = " + formula) == Nonsense
  {
    SplitSpacedLine(name, formula);
  }

  /** No `=`, or an `=` with nothing after it, both give `'No equal sign found'`. */
  lemma ExampleNoEqualSign()
    ensures ExtractFormula("abc") == NoEqualSign
    ensures ExtractFormula("a=") == NoEqualSign
    ensures ExtractName("abc") == "abc"
  {
    NoMatchMeansNoEqualSign("abc");
    NoMatchMeansNoEqualSign("a=");
    TrimNoop("abc");
  }

  /** Matches on two lines give `'nonsense'`. */
  lemma ExampleTwoLines(input: string)
    requires input == "a=1\nb=2"
    ensures ExtractFormula(input) == Nonsense
  {
    assert MatchAt(input, 1) && MatchAt(input, 5) && IsLineTerminator(input[3]);
    ExtractFormulaCases(input);
  }

  /** An `=` that ends its line is no match: the next line's `=` is the only one. */
  lemma ExampleBareEqualSignLine(input: string)
    requires input == "a=\nb=2"
    ensures ExtractFormula(input) == "2"
  {
    assert !MatchAt(input, 0) && !MatchAt(input, 1);
    assert FirstMatchAt(input, 4);
    OneLine(input, 2);
    CaptureToEnd(input, 4);
    assert input[5..] == "2";
    TrimNoop("2");
    ExtractFormulaCases(input);
  }
}
