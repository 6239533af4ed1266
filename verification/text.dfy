/** The string operations the console applies to user input: ECMAScript's
    `String.prototype.trim`, `toLowerCase` (on the ASCII letters) and the
    truthiness test `s || fallback` on optional strings. */
module Text {
  import opened Wrappers

  /** True for the code points `trim` removes: the ECMAScript WhiteSpace and
      LineTerminator productions (tab, line feed, vertical tab, form feed,
      carriage return, space, no-break space, the Unicode space separators,
      line and paragraph separator, and the byte order mark). */
  predicate IsWhitespace(c: char) {
    var n := c as int;
    || n == 0x09 || n == 0x0A || n == 0x0B || n == 0x0C || n == 0x0D
    || n == 0x20 || n == 0xA0 || n == 0x1680 || 0x2000 <= n <= 0x200A
    || n == 0x2028 || n == 0x2029 || n == 0x202F || n == 0x205F
    || n == 0x3000 || n == 0xFEFF
  }

  predicate AllWhitespace(s: string) {
    forall i :: 0 <= i < |s| ==> IsWhitespace(s[i])
  }

  /** A JavaScript string value is truthy exactly when it is present and non-empty. */
  predicate Truthy(v: Option<string>) {
    v.Some? && v.value != ""
  }

  /** Drops leading whitespace: the result is the suffix of `s` that starts
      at its first non-whitespace character. */
  function TrimStart(s: string): (r: string)
    ensures |r| <= |s| && r == s[|s| - |r|..]
    ensures AllWhitespace(s[..|s| - |r|])
    ensures r == [] || !IsWhitespace(r[0])
  {
    if |s| > 0 && IsWhitespace(s[0]) then
      var r := TrimStart(s[1..]);
      assert s[..|s| - |r|] == [s[0]] + s[1..][..|s| - 1 - |r|];
      r
    else
      s
  }

  /** Drops trailing whitespace: the result is the prefix of `s` that ends
      at its last non-whitespace character. */
  function TrimEnd(s: string): (r: string)
    ensures |r| <= |s| && r == s[..|r|]
    ensures AllWhitespace(s[|r|..])
    ensures r == [] || !IsWhitespace(r[|r| - 1])
  {
    if |s| > 0 && IsWhitespace(s[|s| - 1]) then
      var r := TrimEnd(s[..|s| - 1]);
      assert s[|r|..] == s[..|s| - 1][|r|..] + [s[|s| - 1]];
      r
    else
      s
  }

  /** Neither end of the string is whitespace. */
  predicate Trimmed(m: string) {
    m == [] || (!IsWhitespace(m[0]) && !IsWhitespace(m[|m| - 1]))
  }

  /** No ASCII capitals. */
  predicate LowerCase(s: string) {
    forall i :: 0 <= i < |s| ==> !('A' <= s[i] <= 'Z')
  }

  /** `String.prototype.trim`. */
  function Trim(s: string): (r: string)
    ensures |r| <= |s|
    ensures Trimmed(r)
  {
    TrimEnd(TrimStart(s))
  }

  /** Lower-cases one character: the ASCII capitals map to their small letters. */
  function LowerChar(c: char): (r: char)
    ensures 'A' <= c <= 'Z' ==> r as int == c as int + 32
    ensures !('A' <= c <= 'Z') ==> r == c
    ensures !('A' <= r <= 'Z')
  {
    if 'A' <= c <= 'Z' then (c as int + 32) as char else c
  }

  /** `toLowerCase`, character by character. */
  function Lower(s: string): (r: string)
    ensures |r| == |s|
    ensures forall i :: 0 <= i < |s| ==> r[i] == LowerChar(s[i])
    ensures LowerCase(r)
  {
    if s == [] then [] else [LowerChar(s[0])] + Lower(s[1..])
  }

  /** Two strings are equal once case is ignored, compared position by position. */
  predicate EqualsIgnoringCase(a: string, b: string) {
    |a| == |b| && forall i :: 0 <= i < |a| ==> LowerChar(a[i]) == LowerChar(b[i])
  }

  /** The filter normalisation `value.trim().toLowerCase()`: the result has
      no surrounding whitespace and no ASCII capitals, and is no longer than
      the input. */
  function Normalize(s: string): (r: string)
    ensures Trimmed(r) && LowerCase(r) && |r| <= |s|
  {
    LowerKeepsTrimmed(Trim(s));
    Lower(Trim(s))
  }

  /** Leading whitespace in front of a string that does not start with
      whitespace is exactly what `TrimStart` drops. */
  lemma {:induction false} TrimStartSkips(a: string, t: string)
    requires AllWhitespace(a)
    requires t == [] || !IsWhitespace(t[0])
    ensures TrimStart(a + t) == t
    decreases |a|
  {
    if a == [] {
      assert a + t == t;
    } else {
      var s := a + t;
      assert s[0] == a[0] && s[1..] == a[1..] + t;
      TrimStartSkips(a[1..], t);
    }
  }

  /** Trailing whitespace after a string that does not end with whitespace
      is exactly what `TrimEnd` drops. */
  lemma {:induction false} TrimEndSkips(t: string, b: string)
    requires AllWhitespace(b)
    requires t == [] || !IsWhitespace(t[|t| - 1])
    ensures TrimEnd(t + b) == t
    decreases |b|
  {
    if b == [] {
      assert t + b == t;
    } else {
      var s := t + b;
      assert s[|s| - 1] == b[|b| - 1] && s[..|s| - 1] == t + b[..|b| - 1];
      TrimEndSkips(t, b[..|b| - 1]);
    }
  }

  /** Trimming is a characterisation: whatever whitespace surrounds a string
      whose ends are not whitespace, `Trim` recovers exactly that string. */
  lemma TrimRecovers(a: string, m: string, b: string)
    requires AllWhitespace(a) && AllWhitespace(b)
    requires Trimmed(m)
    ensures Trim(a + m + b) == m
  {
    if m == [] {
      var s := a + b;
      assert a + m + b == s + [];
      assert AllWhitespace(s) by {
        forall i | 0 <= i < |s| ensures IsWhitespace(s[i]) {
          if i >= |a| { assert s[i] == b[i - |a|]; }
        }
      }
      TrimStartSkips(s, []);
    } else {
      assert a + m + b == a + (m + b);
      TrimStartSkips(a, m + b);
      TrimEndSkips(m, b);
    }
  }

  /** A string that is already trimmed is left alone by `Trim`. */
  lemma TrimOfTrimmed(m: string)
    requires Trimmed(m)
    ensures Trim(m) == m
  {
  }

  lemma LowerCharKeepsWhitespace(c: char)
    ensures IsWhitespace(LowerChar(c)) == IsWhitespace(c)
  {
  }

  /** Lower-casing a trimmed string leaves it trimmed. */
  lemma LowerKeepsTrimmed(t: string)
    requires Trimmed(t)
    ensures Trimmed(Lower(t))
  {
    if t != [] {
      LowerCharKeepsWhitespace(t[0]);
      LowerCharKeepsWhitespace(t[|t| - 1]);
    }
  }

  /** A string without capitals is its own lower case. */
  lemma LowerOfLowerCase(s: string)
    requires LowerCase(s)
    ensures Lower(s) == s
  {
    assert forall i :: 0 <= i < |s| ==> Lower(s)[i] == s[i];
  }

  /** Normalising keeps the input's own text: whatever whitespace surrounds
      it, the stored filter is that text lower-cased. */
  lemma NormalizeRecovers(a: string, m: string, b: string)
    requires AllWhitespace(a) && AllWhitespace(b) && Trimmed(m)
    ensures Normalize(a + m + b) == Lower(m)
  {
    TrimRecovers(a, m, b);
  }

  /** Normalising twice is the same as normalising once. */
  lemma NormalizeIdempotent(s: string)
    ensures Normalize(Normalize(s)) == Normalize(s)
  {
    var n := Normalize(s);
    TrimOfTrimmed(n);
    LowerOfLowerCase(n);
  }

  /** Case-insensitive equality is equality after lower-casing. */
  lemma EqualsIgnoringCaseIsLowerEquality(a: string, b: string)
    ensures EqualsIgnoringCase(a, b) <==> Lower(a) == Lower(b)
  {
  }

  /** Against a word with no capitals, case-insensitive equality is equality
      of the lower-cased string with the word. */
  lemma MatchesLowerCaseWord(s: string, word: string)
    requires LowerCase(word)
    ensures EqualsIgnoringCase(s, word) <==> Lower(s) == word
  {
    EqualsIgnoringCaseIsLowerEquality(s, word);
    LowerOfLowerCase(word);
  }
}
