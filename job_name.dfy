/** The print-job name both loggers cut out of a log file's name: the span of
    `re.search('[a-zA-Z]+_* *[a-zA-Z]+|[a-zA-Z]+', filename)`. */
module JobName {
  import opened Py

  // ---------------------------------------------------------------------------
  // The language of the pattern, located in a string

  predicate Letters(s: string, i: nat, j: nat)
    requires i <= j <= |s|
  {
    forall k :: i <= k < j ==> IsAsciiLetter(s[k])
  }

  predicate Repeats(s: string, i: nat, j: nat, c: char)
    requires i <= j <= |s|
  {
    forall k :: i <= k < j ==> s[k] == c
  }

  /** `s[i..j]` is in `[a-zA-Z]+_* *[a-zA-Z]+`: letters, underscores, spaces,
      letters, with split points `a`, `u` and `b`. */
  predicate JoinedAt(s: string, i: nat, a: nat, u: nat, b: nat, j: nat)
  {
    i < a <= u <= b < j <= |s| &&
    Letters(s, i, a) && Repeats(s, a, u, '_') && Repeats(s, u, b, ' ') && Letters(s, b, j)
  }

  /** `s[i..j]` is in the language of the whole pattern. */
  ghost predicate Matches(s: string, i: nat, j: nat)
  {
    (i < j <= |s| && Letters(s, i, j)) ||
    exists a, u, b :: JoinedAt(s, i, a, u, b, j)
  }

  // ---------------------------------------------------------------------------
  // The span `re.search` reports

  /** End of the run of `c` starting at `i`. */
  function RunEnd(s: string, i: nat, c: char): (j: nat)
    requires i <= |s|
    ensures i <= j <= |s| && Repeats(s, i, j, c) && (j == |s| || s[j] != c)
    decreases |s| - i
  {
    if i < |s| && s[i] == c then RunEnd(s, i + 1, c) else i
  }

  /** End of the run of ASCII letters starting at `i`. */
  function LetterEnd(s: string, i: nat): (j: nat)
    requires i <= |s|
    ensures i <= j <= |s| && Letters(s, i, j) && (j == |s| || !IsAsciiLetter(s[j]))
    decreases |s| - i
  {
    if i < |s| && IsAsciiLetter(s[i]) then LetterEnd(s, i + 1) else i
  }

  /** Index of the first ASCII letter at or after `i`. */
  function FirstLetter(s: string, i: nat): (r: Option<nat>)
    requires i <= |s|
    ensures r.Some? ==> i <= r.value < |s| && IsAsciiLetter(s[r.value])
    ensures r.Some? ==> forall k :: i <= k < r.value ==> !IsAsciiLetter(s[k])
    ensures r.None? ==> forall k :: i <= k < |s| ==> !IsAsciiLetter(s[k])
    decreases |s| - i
  {
    if i == |s| then None
    else if IsAsciiLetter(s[i]) then Some(i)
    else FirstLetter(s, i + 1)
  }

  /** The match: from the first letter, its whole letter run, and when the
      underscores and then spaces after it lead to another letter, on to the
      end of that second run. */
  function Span(s: string): (r: Option<(nat, nat)>)
    ensures r.Some? ==> r.value.0 < r.value.1 <= |s|
  {
    match FirstLetter(s, 0)
    case None => None
    case Some(i) =>
      var a := LetterEnd(s, i);
      var u := RunEnd(s, a, '_');
      var b := RunEnd(s, u, ' ');
      if b < |s| && IsAsciiLetter(s[b]) then Some((i, LetterEnd(s, b))) else Some((i, a))
  }

  /** `log_dict["File Name"]`: the matched text; with no letter in the name
      `re.search` gives None and reading `.regs` raises AttributeError. */
  function ExtractName(filename: string): (r: Result<string>)
    ensures r.Err? ==> r.error == AttributeError
  {
    match Span(filename)
    case None => Err(AttributeError)
    case Some((i, j)) => Ok(filename[i..j])
  }

  // ---------------------------------------------------------------------------
  // What the span is: the leftmost match, and the longest one there

  /** Every string of the language starts with a letter. */
  lemma MatchStartsWithLetter(s: string, i: nat, j: nat)
    requires Matches(s, i, j)
    ensures i < |s| && IsAsciiLetter(s[i])
  {
    if !(i < j <= |s| && Letters(s, i, j)) {
      var a: nat, u: nat, b: nat :| JoinedAt(s, i, a, u, b, j);
    }
  }

  /** A match exists exactly when the name holds an ASCII letter; it is found
      at the first letter, so no match starts earlier. */
  lemma SpanLeftmost(s: string)
    ensures Span(s).None? <==> forall k :: 0 <= k < |s| ==> !IsAsciiLetter(s[k])
    ensures Span(s).Some? ==> Matches(s, Span(s).value.0, Span(s).value.1)
    ensures Span(s).Some? ==> forall k, j :: 0 <= k < Span(s).value.0 ==> !Matches(s, k, j)
    ensures Span(s).None? ==> forall k, j :: !Matches(s, k, j)
  {
    match FirstLetter(s, 0)
    case None =>
      forall k, j | Matches(s, k, j) ensures false {
        MatchStartsWithLetter(s, k, j);
      }
    case Some(i) =>
      var a := LetterEnd(s, i);
      var u := RunEnd(s, a, '_');
      var b := RunEnd(s, u, ' ');
      if b < |s| && IsAsciiLetter(s[b]) {
        assert JoinedAt(s, i, a, u, b, LetterEnd(s, b));
      }
      forall k, j | 0 <= k < i && Matches(s, k, j) ensures false {
        MatchStartsWithLetter(s, k, j);
      }
  }

  /** Among the matches starting at the first letter, the span is the longest. */
  lemma {:induction false} SpanLongest(s: string, j': nat)
    requires Span(s).Some? && Matches(s, Span(s).value.0, j')
    ensures j' <= Span(s).value.1
  {
    var i := FirstLetter(s, 0).value;
    var a := LetterEnd(s, i);
    var u := RunEnd(s, a, '_');
    var b := RunEnd(s, u, ' ');
    if i < j' <= |s| && Letters(s, i, j') {
      LettersStop(s, i, a, j');
    } else {
      var a': nat, u': nat, b': nat :| JoinedAt(s, i, a', u', b', j');
      LettersStop(s, i, a, a');
      if a' < a {
        // the second letter run starts inside the first one: at a letter the
        // underscores and spaces are empty
        RunEndAt(s, a', a', '_');
        RepeatsStop(s, a', a', u', '_');
        RunEndAt(s, u', u', ' ');
        RepeatsStop(s, u', u', b', ' ');
        LettersStop(s, b', a, j');
      } else {
        RunEndAt(s, a, u', '_');
        RunEndAt(s, u, b', ' ');
        LettersStop(s, b, LetterEnd(s, b), j');
      }
    }
  }

  /** A run of `c` from `i` that stops at `x` is the maximal one. */
  lemma {:induction false} RunEndAt(s: string, i: nat, x: nat, c: char)
    requires i <= x <= |s| && Repeats(s, i, x, c) && (x == |s| || s[x] != c)
    ensures RunEnd(s, i, c) == x
    decreases x - i
  {
    if i < x {
      RunEndAt(s, i + 1, x, c);
    }
  }

  /** A letter run cannot extend past the end of the maximal run. */
  lemma LettersStop(s: string, i: nat, e: nat, j: nat)
    requires i <= e <= |s| && (e == |s| || !IsAsciiLetter(s[e]))
    requires i <= j <= |s| && Letters(s, i, j)
    ensures j <= e
  {
  }

  lemma RepeatsStop(s: string, i: nat, e: nat, j: nat, c: char)
    requires i <= e <= |s| && (e == |s| || s[e] != c)
    requires i <= j <= |s| && Repeats(s, i, j, c)
    ensures j <= e
  {
  }

  /** Two typical log names: one whose second word runs into digits ... */
  lemma ExampleDigits()
    ensures ExtractName("Foo_Bar123.log") == Ok("Foo_Bar")
  {
    var s := "Foo_Bar123.log";
    assert FirstLetter(s, 0) == Some(0);
    assert LetterEnd(s, 0) == 3 by { assert LetterEnd(s, 3) == 3; }
    assert RunEnd(s, 3, '_') == 4 by { assert RunEnd(s, 4, '_') == 4; }
    assert RunEnd(s, 4, ' ') == 4;
    assert LetterEnd(s, 4) == 7 by { assert LetterEnd(s, 7) == 7; }
    assert s[0..7] == "Foo_Bar";
  }

  /** ... and a name followed by a date. */
  lemma ExampleDate()
    ensures ExtractName("JobA_2024-01-01.log") == Ok("JobA")
  {
    var t := "JobA_2024-01-01.log";
    assert FirstLetter(t, 0) == Some(0);
    assert LetterEnd(t, 0) == 4 by { assert LetterEnd(t, 4) == 4; }
    assert RunEnd(t, 4, '_') == 5 by { assert RunEnd(t, 5, '_') == 5; }
    assert RunEnd(t, 5, ' ') == 5;
    assert t[0..4] == "JobA";
  }

  /** Every log file name holds ".log", whose letters guarantee a match. */
  lemma LogFileNamed(filename: string)
    requires Contains(filename, ".log")
    ensures ExtractName(filename).Ok?
  {
    ContainsChars(filename, ".log", 'l');
    var k :| 0 <= k < |filename| && filename[k] == 'l';
    SpanLeftmost(filename);
  }
}
