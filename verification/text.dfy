/**
 * String helpers the decoder and the client rely on: the character set that
 * Foundation calls `whitespacesAndNewlines`, trimming by that set, and the
 * order on names that the inventory lists are sorted by.
 */
module Text {

  /**
   * Foundation's `whitespacesAndNewlines`: the Unicode general category Z*
   * (space separators, line and paragraph separators), the controls U+0009
   * to U+000D, and U+0085 (next line).
   */
  predicate IsWhitespaceOrNewline(c: char) {
    var n := c as int;
    (0x09 <= n <= 0x0D) || n == 0x20 || n == 0x85 || n == 0xA0 || n == 0x1680
    || (0x2000 <= n <= 0x200A) || n == 0x2028 || n == 0x2029 || n == 0x202F
    || n == 0x205F || n == 0x3000
  }

  /** True when every character of `s` is one that `drop` cuts away (the empty string included). */
  ghost predicate AllDropped(s: string, drop: char -> bool) {
    forall k | 0 <= k < |s| :: drop(s[k])
  }

  /** True when every character of `s` is whitespace (the empty string included). */
  ghost predicate IsBlank(s: string) {
    AllDropped(s, IsWhitespaceOrNewline)
  }

  /** Drops the leading characters `drop` selects. */
  function TrimStart(s: string, drop: char -> bool): string
    decreases |s|
  {
    if s != [] && drop(s[0]) then TrimStart(s[1..], drop) else s
  }

  /** What `TrimStart` leaves is a suffix of `s`, starts with a kept character, and only dropped characters precede it. */
  lemma {:induction false} TrimStartCutsDroppedPrefix(s: string, drop: char -> bool)
    ensures var r := TrimStart(s, drop);
      && |r| <= |s| && r == s[|s| - |r|..]
      && (r != [] ==> !drop(r[0]))
      && AllDropped(s[..|s| - |r|], drop)
    decreases |s|
  {
    if s != [] && drop(s[0]) {
      var r := TrimStart(s[1..], drop);
      TrimStartCutsDroppedPrefix(s[1..], drop);
      assert s[..|s| - |r|] == [s[0]] + s[1..][..|s| - 1 - |r|];
    }
  }

  /** Drops the trailing characters `drop` selects. */
  function TrimEnd(s: string, drop: char -> bool): string
    decreases |s|
  {
    if s != [] && drop(s[|s| - 1]) then TrimEnd(s[..|s| - 1], drop) else s
  }

  /** What `TrimEnd` leaves is a prefix of `s`, ends with a kept character, and only dropped characters follow it. */
  lemma {:induction false} TrimEndCutsDroppedSuffix(s: string, drop: char -> bool)
    ensures var r := TrimEnd(s, drop);
      && |r| <= |s| && r == s[..|r|]
      && (r != [] ==> !drop(r[|r| - 1]))
      && AllDropped(s[|r|..], drop)
    decreases |s|
  {
    if s != [] && drop(s[|s| - 1]) {
      var r := TrimEnd(s[..|s| - 1], drop);
      TrimEndCutsDroppedSuffix(s[..|s| - 1], drop);
      assert s[|r|..] == s[..|s| - 1][|r|..] + [s[|s| - 1]];
    }
  }

  /** Cuts the characters `drop` selects from both ends. */
  function TrimBy(s: string, drop: char -> bool): string
  {
    TrimEnd(TrimStart(s, drop), drop)
  }

  /**
   * The trimmed string neither starts nor ends with a dropped character; it is
   * empty exactly when every character of `s` is dropped; and a string that
   * already neither starts nor ends with one is left as it is.
   */
  lemma TrimByEnds(s: string, drop: char -> bool)
    ensures var r := TrimBy(s, drop);
      && (r != [] ==> !drop(r[0]) && !drop(r[|r| - 1]))
      && (r == [] <==> AllDropped(s, drop))
      && (s == [] || (!drop(s[0]) && !drop(s[|s| - 1])) ==> r == s)
  {
    var t := TrimStart(s, drop);
    TrimStartCutsDroppedPrefix(s, drop);
    TrimEndCutsDroppedSuffix(t, drop);
    SuffixThenPrefix(s, t, TrimEnd(t, drop), drop);
  }

  /**
   * Cutting a dropped prefix of `s` to get `t`, then a dropped suffix of `t`
   * to get `r`, leaves a string that is empty exactly when all of `s` is
   * dropped.
   */
  lemma SuffixThenPrefix(s: string, t: string, r: string, drop: char -> bool)
    requires |t| <= |s| && t == s[|s| - |t|..] && (t != [] ==> !drop(t[0]))
    requires AllDropped(s[..|s| - |t|], drop)
    requires |r| <= |t| && r == t[..|r|] && (r != [] ==> !drop(r[|r| - 1]))
    requires AllDropped(t[|r|..], drop)
    ensures r != [] ==> !drop(r[0]) && !drop(r[|r| - 1])
    ensures r == [] <==> AllDropped(s, drop)
  {
    if r != [] {
      assert r[0] == t[0];
    } else {
      assert t[|r|..] == t;
      DroppedFromParts(s, |s| - |t|, drop);
    }
  }

  /** A string whose part before `n` and part from `n` on are both dropped is dropped as a whole. */
  lemma DroppedFromParts(s: string, n: nat, drop: char -> bool)
    requires n <= |s| && AllDropped(s[..n], drop) && AllDropped(s[n..], drop)
    ensures AllDropped(s, drop)
  {
    forall k | 0 <= k < |s| ensures drop(s[k]) {
      if k < n {
        assert s[..n][k] == s[k];
      } else {
        assert s[n..][k - n] == s[k];
      }
    }
  }

  /**
   * Only selected characters are cut away, and only at the two ends: the
   * result is the slice of `s` starting at `i`, with everything before and
   * after it dropped.
   */
  lemma TrimIsInnerSlice(s: string, drop: char -> bool) returns (i: nat)
    ensures i + |TrimBy(s, drop)| <= |s|
    ensures s[i..i + |TrimBy(s, drop)|] == TrimBy(s, drop)
    ensures AllDropped(s[..i], drop) && AllDropped(s[i + |TrimBy(s, drop)|..], drop)
  {
    var t := TrimStart(s, drop);
    TrimStartCutsDroppedPrefix(s, drop);
    TrimEndCutsDroppedSuffix(t, drop);
    i := |s| - |t|;
    InnerSlice(s, t, TrimEnd(t, drop), drop);
  }

  lemma InnerSlice(s: string, t: string, r: string, drop: char -> bool)
    requires |t| <= |s| && t == s[|s| - |t|..]
    requires |r| <= |t| && r == t[..|r|] && AllDropped(t[|r|..], drop)
    ensures s[|s| - |t|..|s| - |t| + |r|] == r
    ensures AllDropped(s[|s| - |t| + |r|..], drop)
  {
    assert s[|s| - |t| + |r|..] == t[|r|..];
  }

  /** Trimming twice is trimming once. */
  lemma TrimIdempotent(s: string, drop: char -> bool)
    ensures TrimBy(TrimBy(s, drop), drop) == TrimBy(s, drop)
  {
    TrimByEnds(s, drop);
    TrimByEnds(TrimBy(s, drop), drop);
  }

  /** `trimmingCharacters(in: .whitespacesAndNewlines)`. */
  function Trim(s: string): string
  {
    TrimBy(s, IsWhitespaceOrNewline)
  }

  /**
   * `Trim` leaves no whitespace at either end, yields the empty string exactly
   * for blank input, and leaves a string without whitespace at its ends alone.
   */
  lemma TrimWhitespace(s: string)
    ensures Trim(s) != [] ==> !IsWhitespaceOrNewline(Trim(s)[0]) && !IsWhitespaceOrNewline(Trim(s)[|Trim(s)| - 1])
    ensures Trim(s) == [] <==> IsBlank(s)
    ensures s == [] || (!IsWhitespaceOrNewline(s[0]) && !IsWhitespaceOrNewline(s[|s| - 1])) ==> Trim(s) == s
  {
    TrimByEnds(s, IsWhitespaceOrNewline);
  }

  /**
   * The strict order `a < b` on names: lexicographic on the code points of the
   * characters, a proper prefix coming first.
   */
  predicate Below(a: string, b: string)
  {
    |b| > 0 && (|a| == 0 || a[0] < b[0] || (a[0] == b[0] && Below(a[1..], b[1..])))
  }

  /** `a <= b` in the same order. */
  predicate NotAfter(a: string, b: string)
  {
    !Below(b, a)
  }

  lemma {:induction false} BelowIrreflexive(a: string)
    ensures !Below(a, a)
  {
    if |a| > 0 {
      BelowIrreflexive(a[1..]);
    }
  }

  lemma {:induction false} BelowTransitive(a: string, b: string, c: string)
    requires Below(a, b) && Below(b, c)
    ensures Below(a, c)
  {
    if |a| > 0 && a[0] == b[0] && b[0] == c[0] {
      BelowTransitive(a[1..], b[1..], c[1..]);
    }
  }

  /** Two different names are always ordered one way or the other. */
  lemma {:induction false} BelowTotal(a: string, b: string)
    requires a != b
    ensures Below(a, b) || Below(b, a)
  {
    if |a| > 0 && |b| > 0 && a[0] == b[0] {
      assert a == [a[0]] + a[1..] && b == [b[0]] + b[1..];
      BelowTotal(a[1..], b[1..]);
    }
  }

  lemma {:induction false} BelowAsymmetric(a: string, b: string)
    requires Below(a, b)
    ensures !Below(b, a)
  {
    if Below(b, a) {
      BelowTransitive(a, b, a);
      BelowIrreflexive(a);
    }
  }

  /** `NotAfter` is a total preorder: total, and transitive. */
  lemma NotAfterTotal(a: string, b: string)
    ensures NotAfter(a, b) || NotAfter(b, a)
  {
    if Below(a, b) {
      BelowAsymmetric(a, b);
    }
  }

  lemma NotAfterTransitive(a: string, b: string, c: string)
    requires NotAfter(a, b) && NotAfter(b, c)
    ensures NotAfter(a, c)
  {
    if Below(c, a) {
      if b != c {
        BelowTotal(b, c);
        BelowTransitive(b, c, a);
      }
    }
  }

  lemma NotAfterAntisymmetric(a: string, b: string)
    requires NotAfter(a, b) && NotAfter(b, a)
    ensures a == b
  {
    if a != b {
      BelowTotal(a, b);
    }
  }
}
