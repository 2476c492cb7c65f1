/** Python's built-in behaviour that the tools rely on: the exceptions they can
    raise, `in` on strings, `str.split`, `str.rstrip`/`str.strip`, `int()`,
    `str()` of an integer, string ordering and list indexing. */
module Py {

  /** The exception classes the modelled code can raise or catch. `ArchiveError`
      stands for everything `zipfile`/`json` raise on a damaged archive. */
  datatype Error =
    | ValueError
    | IndexError
    | KeyError
    | TypeError
    | NameError
    | UnboundLocalError
    | AttributeError
    | ZeroDivisionError
    | FileNotFoundError
    | PermissionError
    | ArchiveError

  datatype Option<T> = None | Some(value: T)

  datatype Result<T> = Ok(value: T) | Err(error: Error)

  // ---------------------------------------------------------------------------
  // Substring search: `needle in haystack` and `haystack.find(needle)`

  /** `needle in haystack`; the empty string is in every string. */
  predicate Contains(haystack: string, needle: string)
    decreases |haystack|
  {
    |needle| <= |haystack| &&
    (haystack[..|needle|] == needle || Contains(haystack[1..], needle))
  }

  /** Leftmost index at which `needle` occurs in `haystack`. */
  function Find(haystack: string, needle: string): (r: Option<nat>)
    ensures r.Some? ==> r.value + |needle| <= |haystack| && haystack[r.value..r.value + |needle|] == needle
    decreases |haystack|
  {
    if |needle| > |haystack| then None
    else if haystack[..|needle|] == needle then Some(0)
    else match Find(haystack[1..], needle)
      case None => None
      case Some(i) => Some(i + 1)
  }

  /** `find` succeeds exactly when `in` holds. */
  lemma {:induction false} FindContains(haystack: string, needle: string)
    ensures Find(haystack, needle).Some? <==> Contains(haystack, needle)
    decreases |haystack|
  {
    if |needle| <= |haystack| && haystack[..|needle|] != needle {
      FindContains(haystack[1..], needle);
    }
  }

  /** A character of the needle must occur in the haystack. */
  lemma {:induction false} ContainsChars(haystack: string, needle: string, c: char)
    requires Contains(haystack, needle) && c in needle
    ensures c in haystack
    decreases |haystack|
  {
    if haystack[..|needle|] == needle {
      var k :| 0 <= k < |needle| && needle[k] == c;
      assert haystack[k] == c;
    } else {
      ContainsChars(haystack[1..], needle, c);
    }
  }

  lemma {:induction false} NotContainsChar(haystack: string, c: char)
    requires c !in haystack
    ensures !Contains(haystack, [c])
  {
    if Contains(haystack, [c]) {
      ContainsChars(haystack, [c], c);
    }
  }

  // ---------------------------------------------------------------------------
  // `s.split(sep)` and `sep.join(parts)`

  /** `s.split(sep)` for a non-empty separator: the pieces between the
      non-overlapping occurrences of `sep`, scanned from the left. */
  function Split(s: string, sep: string): (parts: seq<string>)
    requires |sep| > 0
    ensures |parts| >= 1
    decreases |s|
  {
    match Find(s, sep)
    case None => [s]
    case Some(i) => [s[..i]] + Split(s[i + |sep|..], sep)
  }

  function Join(sep: string, parts: seq<string>): string
  {
    if parts == [] then ""
    else if |parts| == 1 then parts[0]
    else parts[0] + sep + Join(sep, parts[1..])
  }

  lemma FindAbsent(s: string, c: char)
    requires c !in s
    ensures Find(s, [c]) == None
  {
    NotContainsChar(s, c);
    FindContains(s, [c]);
  }

  lemma {:induction false} FindFirst(a: string, c: char, b: string)
    requires c !in a
    ensures Find(a + [c] + b, [c]) == Some(|a|)
    decreases |a|
  {
    var s := a + [c] + b;
    if a == [] {
      assert s[..1] == [c];
    } else {
      assert s[..1] == [a[0]] != [c];
      assert s[1..] == a[1..] + [c] + b;
      FindFirst(a[1..], c, b);
    }
  }

  /** Splitting a one-character-separated join gives the parts back, when no
      part contains the separator. */
  lemma {:induction false} SplitJoin(parts: seq<string>, c: char)
    requires |parts| >= 1
    requires forall i :: 0 <= i < |parts| ==> c !in parts[i]
    ensures Split(Join([c], parts), [c]) == parts
  {
    if |parts| == 1 {
      FindAbsent(parts[0], c);
    } else {
      var rest := Join([c], parts[1..]);
      FindFirst(parts[0], c, rest);
      assert (parts[0] + [c] + rest)[..|parts[0]|] == parts[0];
      assert (parts[0] + [c] + rest)[|parts[0]| + 1..] == rest;
      SplitJoin(parts[1..], c);
    }
  }

  /** `find` of one character: absent when the character is not in `s`,
      otherwise at its first occurrence. */
  lemma {:induction false} FindChar(s: string, c: char)
    ensures Find(s, [c]).None? ==> c !in s
    ensures Find(s, [c]).Some? ==> s[Find(s, [c]).value] == c && c !in s[..Find(s, [c]).value]
    decreases |s|
  {
    if s != [] && s[..1] != [c] {
      assert s[0] != c;
      FindChar(s[1..], c);
      match Find(s[1..], [c])
      case None =>
        assert s == [s[0]] + s[1..];
      case Some(i) =>
        assert s[..i + 1] == [s[0]] + s[1..][..i];
    } else if s != [] {
      assert s[0] == c;
    }
  }

  /** The first piece of a split on one character and what is left after
      it. */
  lemma SplitHead(s: string, c: char, i: nat)
    requires Find(s, [c]) == Some(i)
    ensures s == s[..i] + [c] + s[i + 1..] && c !in s[..i]
    ensures Split(s, [c]) == [s[..i]] + Split(s[i + 1..], [c])
  {
    FindChar(s, c);
  }

  /** The pieces of a split on one character hold no separator. */
  lemma {:induction false} SplitFree(s: string, c: char)
    ensures forall j :: 0 <= j < |Split(s, [c])| ==> c !in Split(s, [c])[j]
    decreases |s|
  {
    FindChar(s, c);
    if Find(s, [c]).Some? {
      var i := Find(s, [c]).value;
      SplitHead(s, c, i);
      SplitFree(s[i + 1..], c);
      var parts, more := Split(s, [c]), Split(s[i + 1..], [c]);
      forall j | 0 <= j < |parts|
        ensures c !in parts[j]
      {
        if j > 0 {
          assert parts[j] == more[j - 1];
        }
      }
    } else {
      assert Split(s, [c]) == [s];
    }
  }

  /** A split on one character has one more piece than separators. */
  lemma {:induction false} SplitCount(s: string, c: char)
    ensures |Split(s, [c])| == multiset(s)[c] + 1
    decreases |s|
  {
    FindChar(s, c);
    match Find(s, [c])
    case None =>
    case Some(i) =>
      var a, rest := s[..i], s[i + 1..];
      SplitHead(s, c, i);
      SplitCount(rest, c);
      assert multiset(s) == multiset(a) + multiset{c} + multiset(rest);
  }

  /** Joining the pieces of a split on one character gives the string back. */
  lemma {:induction false} JoinSplit(s: string, c: char)
    ensures Join([c], Split(s, [c])) == s
    decreases |s|
  {
    FindChar(s, c);
    match Find(s, [c])
    case None =>
    case Some(i) =>
      var a, rest := s[..i], s[i + 1..];
      SplitHead(s, c, i);
      JoinSplit(rest, c);
      var parts := Split(s, [c]);
      assert parts[0] == a && parts[1..] == Split(rest, [c]) && |parts| >= 2;
  }

  /** `"k=v".split("=") == [k, v]` when neither side holds the separator. */
  lemma SplitPair(k: string, c: char, v: string)
    requires c !in k && c !in v
    ensures Split(k + [c] + v, [c]) == [k, v]
  {
    SplitJoin([k, v], c);
    assert Join([c], [k, v]) == k + [c] + v;
  }

  /** `"a:b:c".split(":") == [a, b, c]` when no part holds the separator. */
  lemma SplitThree(a: string, b: string, c: string, sep: char)
    requires sep !in a && sep !in b && sep !in c
    ensures Split(a + [sep] + b + [sep] + c, [sep]) == [a, b, c]
  {
    var parts := [a, b, c];
    assert parts[1..] == [b, c] && parts[1..][1..] == [c];
    assert Join([sep], [b, c]) == b + [sep] + c;
    assert Join([sep], parts) == a + [sep] + b + [sep] + c;
    SplitJoin(parts, sep);
  }

  // ---------------------------------------------------------------------------
  // Character classes and stripping

  /** `c.isspace()` */
  predicate IsSpace(c: char)
  {
    c == ' ' || ('\t' <= c <= '\r') || ('\U{1C}' <= c <= '\U{1F}') ||
    c == '\U{85}' || c == '\U{A0}' || c == '\U{1680}' || ('\U{2000}' <= c <= '\U{200A}') ||
    c == '\U{2028}' || c == '\U{2029}' || c == '\U{202F}' || c == '\U{205F}' || c == '\U{3000}'
  }

  predicate IsAsciiLetter(c: char)
  {
    'a' <= c <= 'z' || 'A' <= c <= 'Z'
  }

  predicate IsDigit(c: char)
  {
    '0' <= c <= '9'
  }

  /** `not s.strip()`: the line holds nothing but whitespace. */
  predicate IsBlank(s: string)
  {
    forall i :: 0 <= i < |s| ==> IsSpace(s[i])
  }

  /** `s.rstrip()` */
  function RStrip(s: string): (r: string)
    ensures |r| <= |s| && r == s[..|r|]
    ensures r == [] || !IsSpace(r[|r| - 1])
  {
    if s == [] || !IsSpace(s[|s| - 1]) then s else RStrip(s[..|s| - 1])
  }

  /** `s.lstrip()` */
  function LStrip(s: string): (r: string)
    ensures |r| <= |s| && r == s[|s| - |r|..]
    ensures r == [] || !IsSpace(r[0])
  {
    if s == [] || !IsSpace(s[0]) then s else LStrip(s[1..])
  }

  // ---------------------------------------------------------------------------
  // `int(s)` and `str(n)`

  function DigitValue(c: char): nat
    requires IsDigit(c)
  {
    (c as int - '0' as int) as nat
  }

  function DigitChar(d: nat): (c: char)
    requires d < 10
    ensures IsDigit(c) && DigitValue(c) == d
  {
    ('0' as int + d) as char
  }

  predicate AllDigits(s: string)
  {
    forall i :: 0 <= i < |s| ==> IsDigit(s[i])
  }

  /** The value of a string of decimal digits, most significant first. */
  function DigitsValue(s: string): nat
    requires AllDigits(s)
  {
    if s == [] then 0 else DigitsValue(s[..|s| - 1]) * 10 + DigitValue(s[|s| - 1])
  }

  /** Decimal digits of a natural number, without leading zeros. */
  function NatToStr(n: nat): (s: string)
    ensures |s| >= 1 && AllDigits(s)
    ensures s[0] != '0' || n == 0
    decreases n
  {
    if n < 10 then [DigitChar(n)] else NatToStr(n / 10) + [DigitChar(n % 10)]
  }

  /** `str(n)` for an integer. */
  function IntToStr(n: int): string
  {
    if n < 0 then "-" + NatToStr(-n) else NatToStr(n)
  }

  /** `int(s)`: surrounding whitespace, an optional sign, then at least one
      ASCII digit; anything else raises ValueError. */
  function ParseInt(s: string): (r: Result<int>)
    ensures r.Err? ==> r.error == ValueError
  {
    ParseStripped(RStrip(LStrip(s)))
  }

  /** `int()` once the surrounding whitespace is gone. */
  function ParseStripped(t: string): (r: Result<int>)
    ensures r.Err? ==> r.error == ValueError
  {
    if t == [] then Err(ValueError)
    else
      var digits := if t[0] == '-' || t[0] == '+' then t[1..] else t;
      if digits == [] || !AllDigits(digits) then Err(ValueError)
      else if t[0] == '-' then Ok(-(DigitsValue(digits) as int))
      else Ok(DigitsValue(digits))
  }

  lemma {:induction false} NatToStrValue(n: nat)
    ensures DigitsValue(NatToStr(n)) == n
    decreases n
  {
    if n >= 10 {
      NatToStrValue(n / 10);
      var s := NatToStr(n / 10) + [DigitChar(n % 10)];
      assert s[..|s| - 1] == NatToStr(n / 10);
    }
  }

  lemma StripUnchanged(s: string)
    requires |s| > 0 && !IsSpace(s[0]) && !IsSpace(s[|s| - 1])
    ensures RStrip(LStrip(s)) == s
  {
  }

  lemma ParseDigits(d: string)
    requires |d| > 0 && AllDigits(d)
    ensures ParseInt(d) == Ok(DigitsValue(d))
  {
    StripUnchanged(d);
  }

  /** `int(str(n)) == n` for every natural number. */
  lemma NatRoundTrip(n: nat)
    ensures ParseInt(NatToStr(n)) == Ok(n)
  {
    NatToStrValue(n);
    ParseDigits(NatToStr(n));
  }

  /** Two-digit zero-padded rendering, `"%02d" % n` for 0 <= n < 100. */
  function TwoDigits(n: nat): (s: string)
    requires n < 100
    ensures |s| == 2 && AllDigits(s) && DigitsValue(s) == n
  {
    var s := [DigitChar(n / 10), DigitChar(n % 10)];
    assert DigitsValue(s[..1]) == n / 10 by { assert s[..1][..0] == []; }
    assert DigitsValue(s) == DigitsValue(s[..1]) * 10 + DigitValue(s[1]);
    s
  }

  /** `a / b` on two integers: true division. */
  function Ratio(a: int, b: int): real
    requires b != 0
  {
    a as real / b as real
  }

  // ---------------------------------------------------------------------------
  // String ordering and list indexing

  /** Python's `a < b` on strings: code-point lexicographic order, a proper
      prefix being smaller. (Dafny's `<` on sequences means "proper prefix".) */
  predicate LexLess(a: string, b: string)
  {
    if b == [] then false
    else if a == [] then true
    else if a[0] != b[0] then a[0] < b[0]
    else LexLess(a[1..], b[1..])
  }

  /** `xs[i]` with Python's negative indices; out of range raises IndexError. */
  function PyIndex<T>(xs: seq<T>, i: int): (r: Result<T>)
    ensures r.Ok? <==> -|xs| <= i < |xs|
    ensures r.Ok? ==> r.value == xs[if i < 0 then i + |xs| else i]
  {
    if 0 <= i < |xs| then Ok(xs[i])
    else if -|xs| <= i < 0 then Ok(xs[i + |xs|])
    else Err(IndexError)
  }
}
