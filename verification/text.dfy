/** String operations of Python and JavaScript that the core relies on,
    defined once with the facts the other modules need about them.

  Strings are `seq<char>` of Unicode scalar values; casing is ASCII only.
 */
module Text {

  /** `"".join(parts)` / `parts.join("")`. */
  function Concat(parts: seq<string>): (r: string)
    ensures |parts| == 0 ==> r == ""
    decreases |parts|
  {
    if |parts| == 0 then "" else parts[0] + Concat(parts[1..])
  }

  lemma {:induction false} ConcatAppend(a: seq<string>, b: seq<string>)
    ensures Concat(a + b) == Concat(a) + Concat(b)
    decreases |a|
  {
    if |a| == 0 {
      assert a + b == b;
    } else {
      assert (a + b)[1..] == a[1..] + b;
      ConcatAppend(a[1..], b);
    }
  }

  /** `sep.join(parts)` in Python, `parts.join(sep)` in JavaScript. */
  function Join(parts: seq<string>, sep: string): (r: string)
    decreases |parts|
  {
    if |parts| == 0 then ""
    else if |parts| == 1 then parts[0]
    else parts[0] + sep + Join(parts[1..], sep)
  }

  /** Number of occurrences of `c` in `s`. */
  function Count(s: string, c: char): (n: nat)
    ensures n <= |s|
    ensures n == 0 <==> c !in s
    decreases |s|
  {
    if |s| == 0 then 0 else (if s[0] == c then 1 else 0) + Count(s[1..], c)
  }

  lemma {:induction false} CountAppend(a: string, b: string, c: char)
    ensures Count(a + b, c) == Count(a, c) + Count(b, c)
    decreases |a|
  {
    if |a| == 0 {
      assert a + b == b;
    } else {
      assert (a + b)[1..] == a[1..] + b;
      CountAppend(a[1..], b, c);
    }
  }

  /** `s.split(sep)` for a one-character separator (Python and JavaScript agree here). */
  function Split(s: string, sep: char): (r: seq<string>)
    ensures |r| >= 1
    decreases |s|
  {
    if |s| == 0 then [""]
    else if s[0] == sep then [""] + Split(s[1..], sep)
    else
      var rest := Split(s[1..], sep);
      [[s[0]] + rest[0]] + rest[1..]
  }

  /** No piece of a split contains the separator. */
  lemma {:induction false} SplitPiecesFree(s: string, sep: char)
    ensures forall i :: 0 <= i < |Split(s, sep)| ==> sep !in Split(s, sep)[i]
    decreases |s|
  {
    if |s| > 0 {
      SplitPiecesFree(s[1..], sep);
    }
  }

  /** A split has one more piece than the string has separators. */
  lemma {:induction false} SplitCount(s: string, sep: char)
    ensures |Split(s, sep)| == Count(s, sep) + 1
    decreases |s|
  {
    if |s| > 0 {
      SplitCount(s[1..], sep);
    }
  }

  /** Joining the pieces of a split with the separator gives the string back. */
  lemma {:induction false} JoinSplit(s: string, sep: char)
    ensures Join(Split(s, sep), [sep]) == s
    decreases |s|
  {
    if |s| > 0 {
      var rest := Split(s[1..], sep);
      JoinSplit(s[1..], sep);
      if s[0] == sep {
        assert ([""] + rest)[1..] == rest;
      } else {
        var r := [[s[0]] + rest[0]] + rest[1..];
        if |rest| > 1 {
          assert r[1..] == rest[1..];
        }
      }
    }
  }

  /** A string without the separator splits into itself alone. */
  lemma {:induction false} SplitFree(s: string, sep: char)
    requires sep !in s
    ensures Split(s, sep) == [s]
    decreases |s|
  {
    if |s| > 0 {
      SplitFree(s[1..], sep);
      assert [s[0]] + s[1..] == s;
    }
  }

  /** Splitting distributes over a separator placed between two strings. */
  lemma {:induction false} SplitAround(a: string, sep: char, b: string)
    ensures Split(a + [sep] + b, sep) == Split(a, sep) + Split(b, sep)
    decreases |a|
  {
    if |a| == 0 {
      assert a + [sep] + b == [sep] + b;
      assert ([sep] + b)[1..] == b;
    } else {
      assert (a + [sep] + b)[1..] == a[1..] + [sep] + b;
      SplitAround(a[1..], sep, b);
    }
  }

  /** Splitting a join of separator-free pieces gives the pieces back. */
  lemma {:induction false} SplitJoin(parts: seq<string>, sep: char)
    requires |parts| >= 1
    requires forall i :: 0 <= i < |parts| ==> sep !in parts[i]
    ensures Split(Join(parts, [sep]), sep) == parts
    decreases |parts|
  {
    if |parts| == 1 {
      SplitFree(parts[0], sep);
    } else {
      SplitJoin(parts[1..], sep);
      SplitFree(parts[0], sep);
      SplitAround(parts[0], sep, Join(parts[1..], [sep]));
      assert parts[0] + [sep] + Join(parts[1..], [sep]) == Join(parts, [sep]);
      assert [parts[0]] + parts[1..] == parts;
    }
  }

  /** `s.startswith(p)` / `s.startsWith(p)`. */
  predicate StartsWith(s: string, p: string) {
    |p| <= |s| && s[..|p|] == p
  }

  // ---------------------------------------------------------------------
  // Whitespace and trimming

  /** ECMAScript WhiteSpace and LineTerminator code points, the set `String.prototype.trim` removes. */
  predicate IsJsSpace(c: char) {
    c == '\t' || c == '\n' || c == '\r' || c == ' ' || c == '\U{000B}' || c == '\U{000C}'
    || c == '\U{00A0}' || c == '\U{1680}' || ('\U{2000}' <= c <= '\U{200A}')
    || c == '\U{2028}' || c == '\U{2029}' || c == '\U{202F}' || c == '\U{205F}'
    || c == '\U{3000}' || c == '\U{FEFF}'
  }

  /** The code points Python's `str.strip()` (and so `int(str)`) treats as whitespace. */
  predicate IsPySpace(c: char) {
    c == '\t' || c == '\n' || c == '\r' || c == ' ' || c == '\U{000B}' || c == '\U{000C}'
    || ('\U{001C}' <= c <= '\U{001F}') || c == '\U{0085}' || c == '\U{00A0}' || c == '\U{1680}'
    || ('\U{2000}' <= c <= '\U{200A}') || c == '\U{2028}' || c == '\U{2029}'
    || c == '\U{202F}' || c == '\U{205F}' || c == '\U{3000}'
  }

  /** Every character of `s` satisfies `space`. */
  predicate AllSpace(s: string, space: char -> bool) {
    forall i :: 0 <= i < |s| ==> space(s[i])
  }

  /** Drops the leading characters that satisfy `space`. */
  function StripStart(s: string, space: char -> bool): (r: string)
    ensures |r| <= |s| && r == s[|s| - |r|..]
    ensures AllSpace(s[..|s| - |r|], space)
    ensures |r| > 0 ==> !space(r[0])
    decreases |s|
  {
    if |s| > 0 && space(s[0]) then StripStart(s[1..], space) else s
  }

  /** Drops the trailing characters that satisfy `space`. */
  function StripEnd(s: string, space: char -> bool): (r: string)
    ensures |r| <= |s| && r == s[..|r|]
    ensures AllSpace(s[|r|..], space)
    ensures |r| > 0 ==> !space(r[|r| - 1])
    decreases |s|
  {
    if |s| > 0 && space(s[|s| - 1]) then StripEnd(s[..|s| - 1], space) else s
  }

  /** Removes whitespace (as `space` defines it) from both ends: the result
      is what remains of `s` between an all-space prefix and an all-space suffix. */
  function Strip(s: string, space: char -> bool): (r: string)
    ensures |r| <= |StripStart(s, space)|
    ensures r == s[|s| - |StripStart(s, space)|..][..|r|]
    ensures AllSpace(s[..|s| - |StripStart(s, space)|], space)
    ensures AllSpace(s[|s| - |StripStart(s, space)|..][|r|..], space)
    ensures |r| > 0 ==> !space(r[0]) && !space(r[|r| - 1])
    ensures r == [] <==> AllSpace(s, space)
  {
    var a := StripStart(s, space);
    StartEmpty(s, space);
    EndEmpty(a, space);
    StripEnd(a, space)
  }

  lemma StartEmpty(s: string, space: char -> bool)
    ensures StripStart(s, space) == [] <==> AllSpace(s, space)
  {
    var a := StripStart(s, space);
    assert s[..|s|] == s;
    if a != [] {
      assert a[0] == s[|s| - |a|];
    }
  }

  lemma EndEmpty(a: string, space: char -> bool)
    requires a == [] || !space(a[0])
    ensures StripEnd(a, space) == [] <==> a == []
  {
    var r := StripEnd(a, space);
    assert a[0..] == a;
  }

  /** A string that neither starts nor ends with a space is its own strip. */
  lemma StripUnspaced(s: string, space: char -> bool)
    requires |s| > 0 ==> !space(s[0]) && !space(s[|s| - 1])
    ensures Strip(s, space) == s
  {
    assert StripStart(s, space) == s;
  }

  /** JavaScript's `s.trim()`. */
  function Trim(s: string): (r: string)
    ensures r == [] <==> AllSpace(s, IsJsSpace)
    ensures |r| > 0 ==> !IsJsSpace(r[0]) && !IsJsSpace(r[|r| - 1])
  {
    Strip(s, IsJsSpace)
  }

  /** Trimming twice changes nothing more. */
  lemma TrimIdempotent(s: string)
    ensures Trim(Trim(s)) == Trim(s)
  {
    var t := Trim(s);
    if |t| > 0 {
      assert StripStart(t, IsJsSpace) == t;
      assert StripEnd(t, IsJsSpace) == t;
    }
  }

  // ---------------------------------------------------------------------
  // ASCII casing and Python's str.title()

  predicate IsUpper(c: char) { 'A' <= c <= 'Z' }
  predicate IsLower(c: char) { 'a' <= c <= 'z' }
  predicate IsCased(c: char) { IsUpper(c) || IsLower(c) }

  function ToLower(c: char): (r: char)
    ensures IsCased(r) == IsCased(c)
    ensures !IsUpper(r)
  {
    if IsUpper(c) then (c as int + 32) as char else c
  }

  function ToUpper(c: char): (r: char)
    ensures IsCased(r) == IsCased(c)
    ensures !IsLower(r)
  {
    if IsLower(c) then (c as int - 32) as char else c
  }

  /** The string with every ASCII letter in lower case: two strings that
      differ only in letter case have the same `Lower`. */
  function Lower(s: string): (r: string)
    ensures |r| == |s|
    ensures forall i :: 0 <= i < |s| ==> r[i] == ToLower(s[i])
  {
    seq(|s|, i requires 0 <= i < |s| => ToLower(s[i]))
  }

  /** `str.title()` scanning from a state in which the previous character was
      (`prevCased`) or was not a cased letter: a cased letter becomes upper
      case at the start of a word and lower case inside one. */
  function TitleFrom(s: string, prevCased: bool): (r: string)
    ensures |r| == |s|
    decreases |s|
  {
    if |s| == 0 then ""
    else
      var c := s[0];
      var c' := if !IsCased(c) then c else if prevCased then ToLower(c) else ToUpper(c);
      [c'] + TitleFrom(s[1..], IsCased(c))
  }

  /** Python's `s.title()`. */
  function Title(s: string): (r: string)
    ensures |r| == |s|
  {
    TitleFrom(s, false)
  }

  lemma {:induction false} TitleFromLower(s: string, prevCased: bool)
    ensures TitleFrom(s, prevCased) == TitleFrom(Lower(s), prevCased)
    decreases |s|
  {
    if |s| > 0 {
      assert Lower(s)[1..] == Lower(s[1..]);
      TitleFromLower(s[1..], IsCased(s[0]));
    }
  }

  /** Title case depends only on the letters, not on their case. */
  lemma TitleIgnoresCase(s: string, t: string)
    requires Lower(s) == Lower(t)
    ensures Title(s) == Title(t)
  {
    TitleFromLower(s, false);
    TitleFromLower(t, false);
  }

  lemma {:induction false} TitleFromTwice(s: string, prevCased: bool)
    ensures TitleFrom(TitleFrom(s, prevCased), prevCased) == TitleFrom(s, prevCased)
    decreases |s|
  {
    if |s| > 0 {
      var t := TitleFrom(s, prevCased);
      assert t[1..] == TitleFrom(s[1..], IsCased(s[0]));
      TitleFromTwice(s[1..], IsCased(s[0]));
    }
  }

  /** Title-casing an already title-cased string changes nothing. */
  lemma TitleIdempotent(s: string)
    ensures Title(Title(s)) == Title(s)
  {
    TitleFromTwice(s, false);
  }

  // ---------------------------------------------------------------------
  // Deleting substrings

  /** `s.replace(pat, '')` in Python: a left-to-right scan that removes
      non-overlapping occurrences of `pat`. */
  function Delete(s: string, pat: string): (r: string)
    requires |pat| > 0
    ensures |r| <= |s|
    decreases |s|
  {
    if |s| == 0 then ""
    else if StartsWith(s, pat) then Delete(s[|pat|..], pat)
    else [s[0]] + Delete(s[1..], pat)
  }

  /** The characters of `s` other than `c`, in order. */
  function Without(s: string, c: char): (r: string)
    ensures c !in r
    ensures |r| == |s| - Count(s, c)
    decreases |s|
  {
    if |s| == 0 then ""
    else if s[0] == c then Without(s[1..], c)
    else [s[0]] + Without(s[1..], c)
  }

  /** Removing characters brings in no new one. */
  lemma {:induction false} WithoutFree(s: string, c: char, d: char)
    requires d !in s
    ensures d !in Without(s, c)
    decreases |s|
  {
    if |s| > 0 {
      WithoutFree(s[1..], c, d);
    }
  }

  lemma {:induction false} WithoutAbsent(s: string, c: char)
    requires c !in s
    ensures Without(s, c) == s
    decreases |s|
  {
    if |s| > 0 {
      WithoutAbsent(s[1..], c);
      assert [s[0]] + s[1..] == s;
    }
  }
}
