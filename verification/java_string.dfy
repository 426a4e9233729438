/**
 * The parts of java.lang.String that the utility methods rely on:
 * `trim()` and `equalsIgnoreCase(String)`. Strings are sequences of chars.
 */
module JavaString {

  /** `trim()` removes every char whose code is at most U+0020 (space). */
  predicate IsTrimmable(c: char) {
    c <= ' '
  }

  /** Every char of `s` is removed by `trim()`. */
  predicate AllTrimmable(s: string) {
    forall i :: 0 <= i < |s| ==> IsTrimmable(s[i])
  }

  /**
   * The first loop of `trim()`: starting at `st`, advance over trimmable chars.
   * The result is the first index at or after `st` holding a kept char, or `|s|`.
   */
  function SkipLeading(s: string, st: nat): (r: nat)
    requires st <= |s|
    ensures st <= r <= |s|
    ensures forall j :: st <= j < r ==> IsTrimmable(s[j])
    ensures r == |s| || !IsTrimmable(s[r])
    decreases |s| - st
  {
    if st < |s| && IsTrimmable(s[st]) then SkipLeading(s, st + 1) else st
  }

  /**
   * The second loop of `trim()`: retreat the end `len` over trimmable chars,
   * never below the start `st`.
   */
  function SkipTrailing(s: string, st: nat, len: nat): (r: nat)
    requires st <= len <= |s|
    ensures st <= r <= len
    ensures forall j :: r <= j < len ==> IsTrimmable(s[j])
    ensures r == st || !IsTrimmable(s[r - 1])
    decreases len
  {
    if st < len && IsTrimmable(s[len - 1]) then SkipTrailing(s, st, len - 1) else len
  }

  /**
   * Java's `String.trim()`: the string without its leading and trailing chars
   * at or below U+0020. The result is empty exactly when every char is
   * trimmable; otherwise it starts and ends with a kept char.
   */
  function Trim(s: string): (t: string)
    ensures |t| <= |s|
    ensures t == [] <==> AllTrimmable(s)
    ensures t != [] ==> !IsTrimmable(t[0]) && !IsTrimmable(t[|t| - 1])
  {
    var st := SkipLeading(s, 0);
    var len := SkipTrailing(s, st, |s|);
    assert st == len ==> forall j :: 0 <= j < |s| ==> IsTrimmable(s[j]);
    s[st..len]
  }

  /**
   * Trim is determined by its padding: whatever trimmable prefix and suffix
   * surround a core that starts and ends with kept chars, trimming yields
   * exactly that core.
   */
  lemma TrimRemovesPadding(pre: string, core: string, post: string)
    requires AllTrimmable(pre) && AllTrimmable(post)
    requires core != [] ==> !IsTrimmable(core[0]) && !IsTrimmable(core[|core| - 1])
    ensures Trim(pre + core + post) == core
  {
    var s := pre + core + post;
    if core == [] {
      assert AllTrimmable(s) by {
        forall j | 0 <= j < |s| ensures IsTrimmable(s[j]) {
          if j < |pre| { assert s[j] == pre[j]; } else { assert s[j] == post[j - |pre|]; }
        }
      }
    } else {
      var st := SkipLeading(s, 0);
      assert s[|pre|] == core[0];
      assert forall j :: 0 <= j < |pre| ==> s[j] == pre[j];
      assert st == |pre|;
      var len := SkipTrailing(s, st, |s|);
      var e := |pre| + |core|;
      assert s[e - 1] == core[|core| - 1];
      assert forall j :: e <= j < |s| ==> s[j] == post[j - e];
      assert len == e;
      assert s[st..len] == core;
    }
  }

  /** Trimming twice is trimming once. */
  lemma TrimIdempotent(s: string)
    ensures Trim(Trim(s)) == Trim(s)
  {
    var t := Trim(s);
    assert [] + t + [] == t;
    TrimRemovesPadding([], t, []);
  }

  /** `Character.toUpperCase`, for the ASCII letters. */
  function ToUpperChar(c: char): char {
    if 'a' <= c <= 'z' then (c as int - 32) as char else c
  }

  /** `Character.toLowerCase`, for the ASCII letters. */
  function ToLowerChar(c: char): char {
    if 'A' <= c <= 'Z' then (c as int + 32) as char else c
  }

  /** `String.toLowerCase()` under the ASCII case mapping. */
  function ToLower(s: string): (t: string)
    ensures |t| == |s|
    ensures forall i :: 0 <= i < |s| ==> t[i] == ToLowerChar(s[i])
  {
    seq(|s|, i requires 0 <= i < |s| => ToLowerChar(s[i]))
  }

  /**
   * The per-char test of `regionMatches(true, ...)`, which `equalsIgnoreCase`
   * uses: equal chars, equal upper-case forms, or equal lower-case forms of
   * the upper-case forms.
   */
  predicate CharEqualsIgnoreCase(a: char, b: char) {
    || a == b
    || ToUpperChar(a) == ToUpperChar(b)
    || ToLowerChar(ToUpperChar(a)) == ToLowerChar(ToUpperChar(b))
  }

  /** `a.equalsIgnoreCase(b)`: same length and every position matches ignoring case. */
  predicate EqualsIgnoreCase(a: string, b: string) {
    |a| == |b| && forall i :: 0 <= i < |a| ==> CharEqualsIgnoreCase(a[i], b[i])
  }

  /** Two chars match ignoring case exactly when their lower-case forms agree. */
  lemma CharEqualsIgnoreCaseIffLower(a: char, b: char)
    ensures CharEqualsIgnoreCase(a, b) <==> ToLowerChar(a) == ToLowerChar(b)
  {
  }

  /**
   * `equalsIgnoreCase` holds exactly when both strings have the same
   * lower-case form.
   */
  lemma EqualsIgnoreCaseIffLower(a: string, b: string)
    ensures EqualsIgnoreCase(a, b) <==> ToLower(a) == ToLower(b)
  {
    if EqualsIgnoreCase(a, b) {
      forall i | 0 <= i < |a| ensures ToLower(a)[i] == ToLower(b)[i] {
        CharEqualsIgnoreCaseIffLower(a[i], b[i]);
      }
    }
    if ToLower(a) == ToLower(b) {
      forall i | 0 <= i < |a| ensures CharEqualsIgnoreCase(a[i], b[i]) {
        assert ToLower(a)[i] == ToLower(b)[i];
        CharEqualsIgnoreCaseIffLower(a[i], b[i]);
      }
    }
  }
}
