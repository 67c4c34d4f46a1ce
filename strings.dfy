/**
 * The handful of Python `str` operations the command interpreter of
 * jarvis.py is built from: `w in s`, `s.replace(p, r)`, `s.lower()`,
 * `s.strip()`, `sep.join(parts)` and the slice `s[-n:]`.
 * Strings are sequences of characters, as Python strings are sequences of
 * code points.
 */
module Text {

  /** `w` occurs in `s` starting at index `i`. */
  predicate OccursAt(s: string, w: string, i: int) {
    0 <= i && i + |w| <= |s| && s[i..i + |w|] == w
  }

  predicate StartsWith(s: string, w: string) {
    |w| <= |s| && s[..|w|] == w
  }

  /** Python's `w in s` on strings: `w` is a contiguous substring of `s`. */
  predicate Contains(s: string, w: string)
    decreases |s|
  {
    StartsWith(s, w) || (|s| > 0 && Contains(s[1..], w))
  }

  /** Python's `any(p in s for p in phrases)`. */
  predicate ContainsAny(s: string, phrases: seq<string>) {
    exists k :: 0 <= k < |phrases| && Contains(s, phrases[k])
  }

  /** No character of `a` appears anywhere in `b`. */
  predicate NoCommonChar(a: string, b: string) {
    forall i, j :: 0 <= i < |a| && 0 <= j < |b| ==> a[i] != b[j]
  }

  /**
   * Python's `s.replace(pattern, replacement)` for a non-empty pattern:
   * scanning left to right, every occurrence that does not overlap an
   * occurrence already replaced is replaced.
   */
  function Replace(s: string, pattern: string, replacement: string): string
    requires |pattern| > 0
    decreases |s|
  {
    if |s| == 0 then s
    else if StartsWith(s, pattern) then replacement + Replace(s[|pattern|..], pattern, replacement)
    else [s[0]] + Replace(s[1..], pattern, replacement)
  }

  function LowerChar(c: char): char {
    if 'A' <= c <= 'Z' then (c as int - 'A' as int + 'a' as int) as char else c
  }

  predicate IsUpper(c: char) {
    'A' <= c <= 'Z'
  }

  /** No upper-case letter: what `s.lower()` leaves unchanged. */
  predicate LowerCase(s: string) {
    forall j :: 0 <= j < |s| ==> !IsUpper(s[j])
  }

  /** Python's `s.lower()`, on the ASCII letters. */
  function Lower(s: string): (r: string)
    ensures |r| == |s|
    ensures forall i :: 0 <= i < |s| ==> r[i] == LowerChar(s[i])
  {
    seq(|s|, i requires 0 <= i < |s| => LowerChar(s[i]))
  }

  /** The characters Python's `str.isspace()` accepts. */
  predicate IsSpace(c: char) {
    c in {' ', '\t', '\n', '\r', '\U{000B}', '\U{000C}', '\U{001C}', '\U{001D}', '\U{001E}', '\U{001F}',
          '\U{0085}', '\U{00A0}', '\U{1680}', '\U{2000}', '\U{2001}', '\U{2002}', '\U{2003}', '\U{2004}',
          '\U{2005}', '\U{2006}', '\U{2007}', '\U{2008}', '\U{2009}', '\U{200A}', '\U{2028}', '\U{2029}',
          '\U{202F}', '\U{205F}', '\U{3000}'}
  }

  predicate AllSpace(s: string) {
    forall i :: 0 <= i < |s| ==> IsSpace(s[i])
  }

  /** The index of the first character at or after `k` that is not whitespace (`|s|` if none). */
  function SkipSpaces(s: string, k: nat): (n: nat)
    requires k <= |s|
    ensures k <= n <= |s|
    ensures forall j :: k <= j < n ==> IsSpace(s[j])
    ensures n < |s| ==> !IsSpace(s[n])
    decreases |s| - k
  {
    if k < |s| && IsSpace(s[k]) then SkipSpaces(s, k + 1) else k
  }

  /** The end of `s[lo..hi]` once its trailing whitespace is dropped. */
  function DropTrailingSpaces(s: string, lo: nat, hi: nat): (e: nat)
    requires lo <= hi <= |s|
    ensures lo <= e <= hi
    ensures forall j :: e <= j < hi ==> IsSpace(s[j])
    ensures e > lo ==> !IsSpace(s[e - 1])
    decreases hi - lo
  {
    if hi > lo && IsSpace(s[hi - 1]) then DropTrailingSpaces(s, lo, hi - 1) else hi
  }

  /** `r` occurs in `s` at index `i`, with only whitespace before and after it. */
  predicate StrippedAt(s: string, r: string, i: int) {
    OccursAt(s, r, i) &&
    (forall j :: 0 <= j < i ==> IsSpace(s[j])) &&
    (forall j :: i + |r| <= j < |s| ==> IsSpace(s[j]))
  }

  /**
   * Python's `s.strip()`: the part of `s` left once the whitespace at both
   * ends is removed; it neither starts nor ends with whitespace.
   */
  function Strip(s: string): (r: string)
    ensures exists i :: StrippedAt(s, r, i)
    ensures r == [] || (!IsSpace(r[0]) && !IsSpace(r[|r| - 1]))
  {
    var i := SkipSpaces(s, 0);
    var e := DropTrailingSpaces(s, i, |s|);
    assert StrippedAt(s, s[i..e], i);
    s[i..e]
  }

  /** Python's `sep.join(parts)`. */
  function Join(parts: seq<string>, sep: string): string
    decreases |parts|
  {
    if |parts| == 0 then ""
    else if |parts| == 1 then parts[0]
    else parts[0] + sep + Join(parts[1..], sep)
  }

  /** Python's `s[-n:]` for `n > 0`: the last `n` characters, or all of `s` when it is shorter. */
  function LastChars(s: string, n: nat): (r: string)
    ensures |r| == if |s| <= n then |s| else n
    ensures r == s[|s| - |r|..]
  {
    if |s| <= n then s else s[|s| - n..]
  }

  // ---------------------------------------------------------------------
  // Substring containment
  // ---------------------------------------------------------------------

  /** An occurrence at a known index makes `w in s` true. */
  lemma {:induction false} OccursAtContains(s: string, w: string, i: int)
    requires OccursAt(s, w, i)
    ensures Contains(s, w)
    decreases i
  {
    if i == 0 {
      assert s[..|w|] == s[0..|w|];
    } else {
      assert s[1..][i - 1..i - 1 + |w|] == s[i..i + |w|];
      OccursAtContains(s[1..], w, i - 1);
    }
  }

  /** `w in s` is true exactly when `w` occurs in `s` at some index. */
  lemma {:induction false} ContainsOccurs(s: string, w: string)
    requires Contains(s, w)
    ensures exists i :: OccursAt(s, w, i)
    decreases |s|
  {
    if StartsWith(s, w) {
      assert OccursAt(s, w, 0);
    } else {
      ContainsOccurs(s[1..], w);
      var i :| OccursAt(s[1..], w, i);
      assert s[1..][i..i + |w|] == s[i + 1..i + 1 + |w|];
      assert OccursAt(s, w, i + 1);
    }
  }

  /** Containment is transitive: a substring of a substring of `s` is a substring of `s`. */
  lemma ContainsTransitive(s: string, t: string, u: string)
    requires Contains(s, t) && Contains(t, u)
    ensures Contains(s, u)
  {
    ContainsOccurs(s, t);
    ContainsOccurs(t, u);
    var i :| OccursAt(s, t, i);
    var j :| OccursAt(t, u, j);
    forall k | 0 <= k < |u|
      ensures s[i + j + k] == u[k]
    {
      assert s[i + j + k] == s[i..i + |t|][j + k] == t[j + k];
    }
    assert s[i + j..i + j + |u|] == u;
    OccursAtContains(s, u, i + j);
  }

  /** Containment is transitive, stated for any `s`. */
  lemma ContainsThrough(s: string, t: string, u: string)
    requires Contains(t, u)
    ensures Contains(s, t) ==> Contains(s, u)
  {
    if Contains(s, t) {
      ContainsTransitive(s, t, u);
    }
  }

  /** `w in s` also holds for any string that has `s` as a suffix. */
  lemma {:induction false} ContainsSuffix(s: string, k: int, w: string)
    requires 0 <= k <= |s| && Contains(s[k..], w)
    ensures Contains(s, w)
  {
    ContainsOccurs(s[k..], w);
    var i :| OccursAt(s[k..], w, i);
    assert s[k..][i..i + |w|] == s[k + i..k + i + |w|];
    OccursAtContains(s, w, k + i);
  }

  /**
   * An occurrence of `w` in `a + b` cannot start inside `a` when no character
   * of `a` belongs to `w`.
   */
  lemma {:induction false} ContainsAfterForeign(a: string, b: string, w: string)
    requires |w| > 0 && NoCommonChar(a, w)
    ensures Contains(a + b, w) ==> Contains(b, w)
    decreases |a|
  {
    if |a| > 0 {
      assert (a + b)[0] == a[0] != w[0];
      assert (a + b)[1..] == a[1..] + b;
      ContainsAfterForeign(a[1..], b, w);
    } else {
      assert a + b == b;
    }
  }

  /** A string that does not contain the pattern is left as it is by `replace`. */
  lemma {:induction false} ReplaceAbsent(s: string, pattern: string, replacement: string)
    requires |pattern| > 0 && !Contains(s, pattern)
    ensures Replace(s, pattern, replacement) == s
    decreases |s|
  {
    if |s| > 0 {
      ReplaceAbsent(s[1..], pattern, replacement);
      assert [s[0]] + s[1..] == s;
    }
  }

  /**
   * When the replacement shares no character with `w`, a prefix `w` of the
   * replaced string was already a prefix of the original, and the original
   * did not start with the pattern.
   */
  lemma {:induction false} ReplacedPrefix(s: string, pattern: string, replacement: string, w: string)
    requires |pattern| > 0 && |replacement| > 0 && |w| > 0
    requires NoCommonChar(replacement, w)
    ensures StartsWith(Replace(s, pattern, replacement), w) ==> StartsWith(s, w) && !StartsWith(s, pattern)
    decreases |s|
  {
    var t := Replace(s, pattern, replacement);
    if |s| > 0 && StartsWith(s, pattern) {
      assert t[0] == replacement[0] != w[0];
    } else if |s| > 0 && StartsWith(t, w) {
      var rest := Replace(s[1..], pattern, replacement);
      assert t == [s[0]] + rest;
      if |w| > 1 {
        assert rest[..|w| - 1] == t[1..|w|] == w[1..];
        forall i, j | 0 <= i < |replacement| && 0 <= j < |w[1..]|
          ensures replacement[i] != w[1..][j]
        {
          assert w[1..][j] == w[j + 1];
        }
        ReplacedPrefix(s[1..], pattern, replacement, w[1..]);
        assert s[..|w|] == [s[0]] + s[1..][..|w| - 1];
      }
    }
  }

  /**
   * `replace` creates no new occurrence of a string that shares no character
   * with the replacement, and leaves no occurrence of the pattern itself.
   */
  lemma {:induction false} ReplaceKeepsOut(s: string, pattern: string, replacement: string, w: string)
    requires |pattern| > 0 && |replacement| > 0 && |w| > 0
    requires NoCommonChar(replacement, w)
    ensures Contains(Replace(s, pattern, replacement), w) ==> Contains(s, w) && w != pattern
    decreases |s|
  {
    var t := Replace(s, pattern, replacement);
    if |s| > 0 && StartsWith(s, pattern) {
      var rest := s[|pattern|..];
      ContainsAfterForeign(replacement, Replace(rest, pattern, replacement), w);
      ReplaceKeepsOut(rest, pattern, replacement, w);
      if Contains(rest, w) {
        ContainsSuffix(s, |pattern|, w);
      }
    } else if |s| > 0 {
      var rest := Replace(s[1..], pattern, replacement);
      assert t == [s[0]] + rest && t[1..] == rest;
      ReplacedPrefix(s, pattern, replacement, w);
      ReplaceKeepsOut(s[1..], pattern, replacement, w);
      if Contains(s[1..], w) {
        ContainsSuffix(s, 1, w);
      }
    }
  }

  /** A prefix `w` sharing no character with the pattern survives `replace`. */
  lemma {:induction false} ReplaceKeepsPrefix(s: string, pattern: string, replacement: string, w: string)
    requires |pattern| > 0 && NoCommonChar(pattern, w) && StartsWith(s, w)
    ensures StartsWith(Replace(s, pattern, replacement), w)
    decreases |w|
  {
    if |w| > 0 {
      assert s[0] == w[0] != pattern[0];
      var rest := Replace(s[1..], pattern, replacement);
      assert Replace(s, pattern, replacement) == [s[0]] + rest;
      assert s[1..][..|w| - 1] == w[1..];
      forall i, j | 0 <= i < |pattern| && 0 <= j < |w[1..]|
        ensures pattern[i] != w[1..][j]
      {
        assert w[1..][j] == w[j + 1];
      }
      ReplaceKeepsPrefix(s[1..], pattern, replacement, w[1..]);
      assert ([s[0]] + rest)[..|w|] == [w[0]] + rest[..|w| - 1];
    }
  }

  /** An occurrence at or after index `k` is an occurrence in `s[k..]`. */
  lemma OccursInSuffix(s: string, w: string, i: int, k: int)
    requires OccursAt(s, w, i) && 0 <= k <= i
    ensures Contains(s[k..], w)
  {
    assert s[k..][i - k..i - k + |w|] == s[i..i + |w|];
    OccursAtContains(s[k..], w, i - k);
  }

  /**
   * An occurrence of a non-empty `w` sharing no character with `pattern`
   * cannot start inside a leading `pattern`.
   */
  lemma OccursPastPattern(s: string, pattern: string, w: string, i: int)
    requires |w| > 0 && NoCommonChar(pattern, w)
    requires StartsWith(s, pattern) && OccursAt(s, w, i)
    ensures |pattern| <= i
  {
    forall j | 0 <= j < |pattern|
      ensures !OccursAt(s, w, j)
    {
      assert s[j] == s[..|pattern|][j] == pattern[j];
    }
  }

  /** An occurrence of `w` sharing no character with the pattern survives `replace`. */
  lemma {:induction false} ReplaceKeepsContains(s: string, pattern: string, replacement: string, w: string)
    requires |pattern| > 0 && NoCommonChar(pattern, w) && Contains(s, w)
    ensures Contains(Replace(s, pattern, replacement), w)
    decreases |s|
  {
    ContainsOccurs(s, w);
    var i :| OccursAt(s, w, i);
    var t := Replace(s, pattern, replacement);
    if |w| == 0 {
      assert StartsWith(t, w);
    } else if StartsWith(s, pattern) {
      OccursPastPattern(s, pattern, w, i);
      OccursInSuffix(s, w, i, |pattern|);
      ReplaceKeepsContains(s[|pattern|..], pattern, replacement, w);
      assert t[|replacement|..] == Replace(s[|pattern|..], pattern, replacement);
      ContainsSuffix(t, |replacement|, w);
    } else if i == 0 {
      ReplaceKeepsPrefix(s, pattern, replacement, w);
    } else {
      OccursInSuffix(s, w, i, 1);
      ReplaceKeepsContains(s[1..], pattern, replacement, w);
      assert t[1..] == Replace(s[1..], pattern, replacement);
      ContainsSuffix(t, 1, w);
    }
  }

  /** Replacing a pattern that occurs leaves the replacement in the result. */
  lemma {:induction false} ReplaceInserts(s: string, pattern: string, replacement: string)
    requires |pattern| > 0 && Contains(s, pattern)
    ensures Contains(Replace(s, pattern, replacement), replacement)
    decreases |s|
  {
    var r := Replace(s, pattern, replacement);
    if StartsWith(s, pattern) {
      assert StartsWith(r, replacement);
    } else {
      ReplaceInserts(s[1..], pattern, replacement);
      assert r[1..] == Replace(s[1..], pattern, replacement);
      ContainsSuffix(r, 1, replacement);
    }
  }

  /**
   * Removing `w` from `w`, a character foreign to `w`, then a string holding
   * no `w`, leaves that character and that string.
   */
  lemma ReplaceLeadingForeign(w: string, c: char, rest: string)
    requires |w| > 0 && c !in w && !Contains(rest, w)
    ensures Contains(w + ([c] + rest), w)
    ensures Replace(w + ([c] + rest), w, "") == [c] + rest
  {
    var s := w + ([c] + rest);
    assert StartsWith(s, w);
    assert s[|w|..] == [c] + rest;
    assert NoCommonChar([c], w);
    ContainsAfterForeign([c], rest, w);
    ReplaceAbsent([c] + rest, w, "");
  }

  /** Replacing one character by another changes exactly the positions holding it. */
  lemma {:induction false} ReplaceChar(s: string, a: char, b: char)
    ensures |Replace(s, [a], [b])| == |s|
    ensures forall k :: 0 <= k < |s| ==> Replace(s, [a], [b])[k] == if s[k] == a then b else s[k]
    decreases |s|
  {
    if |s| > 0 {
      ReplaceChar(s[1..], a, b);
      var t := Replace(s, [a], [b]);
      assert StartsWith(s, [a]) <==> s[0] == a;
      assert t == [if s[0] == a then b else s[0]] + Replace(s[1..], [a], [b]);
    }
  }

  /** `s.strip()` is empty exactly when `s` is all whitespace. */
  lemma StripEmpty(s: string)
    ensures Strip(s) == [] <==> AllSpace(s)
  {
    var r := Strip(s);
    var i :| StrippedAt(s, r, i);
    if r != [] {
      assert s[i] == r[0];
    }
  }

  /** `s.lower()` leaves an already lower-cased string as it is. */
  lemma LowerIdempotent(s: string)
    ensures Lower(Lower(s)) == Lower(s)
  {
  }
}
