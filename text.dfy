/**
 * The three pieces of string handling that command resolution relies on:
 * the standard library's `lowercased()`, and Foundation's
 * `trimmingCharacters(in: .whitespacesAndNewlines)` and
 * `replacingOccurrences(of:with: "")` for a single character.
 * Strings are sequences of Unicode scalar values.
 */
module Text {

  /** Membership in `CharacterSet.whitespacesAndNewlines`, as CoreFoundation
      defines it: the Unicode separators (categories Zs, Zl, Zp), tab, the
      newlines U+000A..U+000D, NEXT LINE U+0085, and ZERO WIDTH SPACE
      U+200B, which CoreFoundation's range U+2000..U+200B includes. */
  predicate IsWhitespace(c: char): (r: bool)
    ensures r ==> c != '/' && !('a' <= c <= 'z') && !('A' <= c <= 'Z')
  {
    || c == ' ' || c == '\t' || c == '\n' || c == '\r'
    || c == '\U{B}' || c == '\U{C}'
    || c == '\U{85}' || c == '\U{A0}' || c == '\U{1680}'
    || ('\U{2000}' <= c <= '\U{200B}')
    || c == '\U{2028}' || c == '\U{2029}' || c == '\U{202F}'
    || c == '\U{205F}' || c == '\U{3000}'
  }

  predicate AllWhitespace(s: string) {
    forall i :: 0 <= i < |s| ==> IsWhitespace(s[i])
  }

  predicate IsUpper(c: char) {
    'A' <= c <= 'Z'
  }

  /** Lower-case mapping of one character (ASCII letters only). */
  function LowerChar(c: char): (r: char)
    ensures !IsUpper(r)
    ensures IsUpper(c) ==> 'a' <= r <= 'z' && r as int - 'a' as int == c as int - 'A' as int
    ensures !IsUpper(c) ==> r == c
    ensures IsWhitespace(r) <==> IsWhitespace(c)
    ensures r == '/' <==> c == '/'
  {
    if IsUpper(c) then (c as int + 32) as char else c
  }

  /** `lowercased()`: the character-wise lower-case mapping. */
  function Lower(s: string): (r: string)
    ensures |r| == |s|
    ensures forall i :: 0 <= i < |s| ==> r[i] == LowerChar(s[i])
    ensures forall i :: 0 <= i < |s| ==> !IsUpper(r[i])
  {
    seq(|s|, i requires 0 <= i < |s| => LowerChar(s[i]))
  }

  /** Drops leading whitespace (see TrimStartSpec). */
  function TrimStart(s: string): string {
    if s != [] && IsWhitespace(s[0]) then TrimStart(s[1..]) else s
  }

  /** Drops trailing whitespace (see TrimEndSpec). */
  function TrimEnd(s: string): string {
    if s != [] && IsWhitespace(s[|s| - 1]) then TrimEnd(s[..|s| - 1]) else s
  }

  /** `trimmingCharacters(in: .whitespacesAndNewlines)`. */
  function Trim(s: string): (r: string)
    ensures r == [] <==> AllWhitespace(s)
    ensures r != [] ==> !IsWhitespace(r[0]) && !IsWhitespace(r[|r| - 1])
    ensures |r| <= |s|
    ensures exists i, j :: 0 <= i <= j <= |s| && r == s[i..j]
              && AllWhitespace(s[..i]) && AllWhitespace(s[j..])
  {
    TrimStartSpec(s);
    var t := TrimStart(s);
    TrimEndSpec(t);
    var r := TrimEnd(t);
    assert r != [] ==> r[0] == t[0];
    var i := |s| - |t|;
    var j := i + |r|;
    assert r == s[i..j];
    assert s[j..] == t[|r|..];
    r
  }

  /** `replacingOccurrences(of: [ch], with: "")`: every character other
      than `ch` is kept, and only those (see also WithoutAppend). */
  function Without(s: string, ch: char): (r: string)
    ensures |r| <= |s|
    ensures forall c :: c in r <==> c in s && c != ch
  {
    if s == [] then []
    else
      assert s == [s[0]] + s[1..];
      (if s[0] == ch then [] else [s[0]]) + Without(s[1..], ch)
  }

  // ---------------------------------------------------------------------
  // Lowercasing

  lemma LowerIdempotent(s: string)
    ensures Lower(Lower(s)) == Lower(s)
  {
  }

  lemma LowerUnchanged(s: string)
    requires forall i :: 0 <= i < |s| ==> !IsUpper(s[i])
    ensures Lower(s) == s
  {
  }

  // ---------------------------------------------------------------------
  // Trimming

  /** TrimStart removes exactly the leading whitespace: what it drops is
      whitespace and what it keeps is a suffix that starts otherwise. */
  lemma {:induction false} TrimStartSpec(s: string)
    ensures |TrimStart(s)| <= |s| && TrimStart(s) == s[|s| - |TrimStart(s)|..]
    ensures AllWhitespace(s[..|s| - |TrimStart(s)|])
    ensures TrimStart(s) != [] ==> !IsWhitespace(TrimStart(s)[0])
  {
    if s != [] && IsWhitespace(s[0]) {
      TrimStartSpec(s[1..]);
      var r := TrimStart(s[1..]);
      assert s[..|s| - |r|] == [s[0]] + s[1..][..|s| - 1 - |r|];
    }
  }

  /** TrimEnd removes exactly the trailing whitespace. */
  lemma {:induction false} TrimEndSpec(s: string)
    ensures |TrimEnd(s)| <= |s| && TrimEnd(s) == s[..|TrimEnd(s)|]
    ensures AllWhitespace(s[|TrimEnd(s)|..])
    ensures TrimEnd(s) != [] ==> !IsWhitespace(TrimEnd(s)[|TrimEnd(s)| - 1])
  {
    if s != [] && IsWhitespace(s[|s| - 1]) {
      TrimEndSpec(s[..|s| - 1]);
      var r := TrimEnd(s[..|s| - 1]);
      assert s[|r|..] == s[..|s| - 1][|r|..] + [s[|s| - 1]];
    }
  }

  lemma {:induction false} TrimStartSkipsPadding(w: string, s: string)
    requires AllWhitespace(w)
    ensures TrimStart(w + s) == TrimStart(s)
  {
    if w == [] {
      assert w + s == s;
    } else {
      assert (w + s)[1..] == w[1..] + s;
      TrimStartSkipsPadding(w[1..], s);
    }
  }

  lemma {:induction false} TrimEndSkipsPadding(s: string, w: string)
    requires AllWhitespace(w)
    ensures TrimEnd(s + w) == TrimEnd(s)
  {
    if w == [] {
      assert s + w == s;
    } else {
      var n := |s + w|;
      assert (s + w)[n - 1] == w[|w| - 1];
      assert (s + w)[..n - 1] == s + w[..|w| - 1];
      TrimEndSkipsPadding(s, w[..|w| - 1]);
    }
  }

  lemma {:induction false} TrimStartKeepsTail(s: string, t: string)
    requires TrimStart(s) != []
    ensures TrimStart(s + t) == TrimStart(s) + t
  {
    assert s != [];
    if IsWhitespace(s[0]) {
      assert (s + t)[1..] == s[1..] + t;
      TrimStartKeepsTail(s[1..], t);
    }
  }

  lemma AllWhitespaceTrimsAway(s: string)
    requires AllWhitespace(s)
    ensures TrimStart(s) == []
  {
    TrimStartSpec(s);
  }

  /** Surrounding whitespace never changes the trimmed text. */
  lemma TrimIgnoresPadding(w1: string, s: string, w2: string)
    requires AllWhitespace(w1) && AllWhitespace(w2)
    ensures Trim(w1 + s + w2) == Trim(s)
  {
    assert w1 + s + w2 == w1 + (s + w2);
    TrimStartSkipsPadding(w1, s + w2);
    if TrimStart(s) != [] {
      TrimStartKeepsTail(s, w2);
      TrimEndSkipsPadding(TrimStart(s), w2);
    } else {
      TrimStartSpec(s);
      assert s[..|s|] == s;
      assert AllWhitespace(s + w2) by {
        forall i | 0 <= i < |s + w2| ensures IsWhitespace((s + w2)[i]) {
          if i < |s| { assert (s + w2)[i] == s[i]; } else { assert (s + w2)[i] == w2[i - |s|]; }
        }
      }
      AllWhitespaceTrimsAway(s + w2);
    }
  }

  lemma {:induction false} TrimStartCommutesWithLower(s: string)
    ensures TrimStart(Lower(s)) == Lower(TrimStart(s))
  {
    if s != [] {
      assert Lower(s)[1..] == Lower(s[1..]);
      TrimStartCommutesWithLower(s[1..]);
    }
  }

  lemma {:induction false} TrimEndCommutesWithLower(s: string)
    ensures TrimEnd(Lower(s)) == Lower(TrimEnd(s))
  {
    if s != [] {
      assert Lower(s)[..|s| - 1] == Lower(s[..|s| - 1]);
      TrimEndCommutesWithLower(s[..|s| - 1]);
    }
  }

  /** Lowercasing and trimming can be done in either order. */
  lemma TrimCommutesWithLower(s: string)
    ensures Trim(Lower(s)) == Lower(Trim(s))
  {
    TrimStartCommutesWithLower(s);
    TrimEndCommutesWithLower(TrimStart(s));
  }

  /** Text that starts and ends with a non-whitespace character is left alone. */
  lemma TrimUnchanged(s: string)
    requires s != [] && !IsWhitespace(s[0]) && !IsWhitespace(s[|s| - 1])
    ensures Trim(s) == s
  {
  }

  lemma TrimIdempotent(s: string)
    ensures Trim(Trim(s)) == Trim(s)
  {
    // Trim's contract says Trim(s) is empty or starts and ends with a
    // non-whitespace character, so one unfolding of TrimStart and of
    // TrimEnd returns it unchanged.
  }

  // ---------------------------------------------------------------------
  // Removing a character

  /** Removal works piece by piece, so the kept characters stay in order
      and keep their count. */
  lemma {:induction false} WithoutAppend(s: string, t: string, ch: char)
    ensures Without(s + t, ch) == Without(s, ch) + Without(t, ch)
  {
    if s == [] {
      assert s + t == t;
    } else {
      var head := if s[0] == ch then [] else [s[0]];
      assert (s + t)[0] == s[0];
      assert (s + t)[1..] == s[1..] + t;
      assert Without(s + t, ch) == head + Without(s[1..] + t, ch);
      WithoutAppend(s[1..], t, ch);
      assert Without(s, ch) == head + Without(s[1..], ch);
    }
  }

  /** Text without `ch` is left alone. */
  lemma {:induction false} WithoutAbsent(s: string, ch: char)
    requires ch !in s
    ensures Without(s, ch) == s
  {
    if s != [] {
      WithoutAbsent(s[1..], ch);
      assert [s[0]] + s[1..] == s;
    }
  }
}
