/**
 * The string operations the backend applies to user text: Python's
 * `str.strip()`, `str.lower()` and the substring test `w in s`.
 */
module Text {

  /** The characters for which Python's `str.isspace()` holds; `str.strip()` removes exactly these. */
  predicate IsSpace(c: char) {
    ('\t' <= c <= '\r') || ('\U{1C}' <= c <= '\U{1F}') || c == ' ' || c == '\U{85}' || c == '\U{A0}'
    || c == '\U{1680}' || ('\U{2000}' <= c <= '\U{200A}') || c == '\U{2028}' || c == '\U{2029}'
    || c == '\U{202F}' || c == '\U{205F}' || c == '\U{3000}'
  }

  /** `s.lstrip()`: the longest all-whitespace prefix is dropped. */
  function TrimStart(s: string): (r: string)
    ensures |r| <= |s| && r == s[|s| - |r|..]
    ensures forall i :: 0 <= i < |s| - |r| ==> IsSpace(s[i])
    ensures r == [] || !IsSpace(r[0])
  {
    if s != [] && IsSpace(s[0]) then TrimStart(s[1..]) else s
  }

  /** `s.rstrip()`: the longest all-whitespace suffix is dropped. */
  function TrimEnd(s: string): (r: string)
    ensures |r| <= |s| && r == s[..|r|]
    ensures forall i :: |r| <= i < |s| ==> IsSpace(s[i])
    ensures r == [] || !IsSpace(r[|r| - 1])
  {
    if s != [] && IsSpace(s[|s| - 1]) then TrimEnd(s[..|s| - 1]) else s
  }

  /**
   * `s.strip()`: the result is the part of `s` between its leading and its
   * trailing whitespace; it is empty exactly when `s` is all whitespace.
   */
  function Strip(s: string): (r: string)
    ensures r == [] <==> forall i :: 0 <= i < |s| ==> IsSpace(s[i])
    ensures r != [] ==> !IsSpace(r[0]) && !IsSpace(r[|r| - 1])
    ensures exists k :: StrippedAt(s, k, r)
  {
    var t := TrimStart(s);
    var r := TrimEnd(t);
    TrimBoth(s, t, r);
    r
  }

  /** Trimming both ends leaves `r` at offset `|s| - |t|`, starting with the first non-whitespace character. */
  lemma {:induction false} TrimBoth(s: string, t: string, r: string)
    requires t == TrimStart(s) && r == TrimEnd(t)
    ensures StrippedAt(s, |s| - |t|, r)
    ensures r != [] ==> r[0] == s[|s| - |t|] && !IsSpace(r[0])
  {
    var k := |s| - |t|;
    TrimmedWindow(s, t, r, k);
    if r != [] {
      assert r[0] == t[0];
    }
  }

  lemma {:induction false} TrimmedWindow(s: string, t: string, r: string, k: int)
    requires 0 <= k <= |s| && t == s[k..]
    requires |r| <= |t| && r == t[..|r|]
    requires forall i :: 0 <= i < k ==> IsSpace(s[i])
    requires forall i :: |r| <= i < |t| ==> IsSpace(t[i])
    ensures StrippedAt(s, k, r)
  {
    assert s[k..k + |r|] == r;
    forall i | k + |r| <= i < |s| ensures IsSpace(s[i]) {
      assert s[i] == t[i - k];
    }
  }

  /** Leading whitespace is skipped by `lstrip()` whatever follows it. */
  lemma {:induction false} TrimStartSkips(a: string, t: string)
    requires forall i :: 0 <= i < |a| ==> IsSpace(a[i])
    ensures TrimStart(a + t) == TrimStart(t)
    decreases |a|
  {
    if a == [] {
      assert a + t == t;
    } else {
      assert IsSpace(a[0]);
      assert (a + t)[0] == a[0] && (a + t)[1..] == a[1..] + t;
      assert TrimStart(a + t) == TrimStart(a[1..] + t);
      TrimStartSkips(a[1..], t);
    }
  }

  /** Trailing whitespace is skipped by `rstrip()` whatever precedes it. */
  lemma {:induction false} TrimEndSkips(t: string, b: string)
    requires forall i :: 0 <= i < |b| ==> IsSpace(b[i])
    ensures TrimEnd(t + b) == TrimEnd(t)
    decreases |b|
  {
    if b == [] {
      assert t + b == t;
    } else {
      var n := |t + b|;
      assert IsSpace(b[|b| - 1]);
      assert (t + b)[n - 1] == b[|b| - 1] && (t + b)[..n - 1] == t + b[..|b| - 1];
      assert TrimEnd(t + b) == TrimEnd(t + b[..|b| - 1]);
      TrimEndSkips(t, b[..|b| - 1]);
    }
  }

  /** Stripping whitespace from around a text with non-whitespace ends gives back that text. */
  lemma StripAround(a: string, w: string, b: string)
    requires forall i :: 0 <= i < |a| ==> IsSpace(a[i])
    requires forall i :: 0 <= i < |b| ==> IsSpace(b[i])
    requires w != [] && !IsSpace(w[0]) && !IsSpace(w[|w| - 1])
    ensures Strip(a + w + b) == w
  {
    assert a + w + b == a + (w + b);
    TrimStartSkips(a, w + b);
    assert (w + b)[0] == w[0];
    assert TrimStart(w + b) == w + b;
    TrimEndSkips(w, b);
    assert TrimEnd(w) == w;
  }

  /** `r` sits at offset `k` of `s` with only whitespace before and after it. */
  predicate StrippedAt(s: string, k: int, r: string) {
    0 <= k && k + |r| <= |s| && s[k..k + |r|] == r
    && (forall i :: 0 <= i < k ==> IsSpace(s[i]))
    && (forall i :: k + |r| <= i < |s| ==> IsSpace(s[i]))
  }

  predicate IsUpper(c: char) { 'A' <= c <= 'Z' }

  /** Lower-cases one ASCII letter; every other character is kept. */
  function LowerChar(c: char): (d: char)
    ensures !IsUpper(d)
    ensures !IsUpper(c) ==> d == c
    ensures IsUpper(c) ==> 'a' <= d <= 'z' && d as int - 'a' as int == c as int - 'A' as int
  {
    if IsUpper(c) then (c as int - 'A' as int + 'a' as int) as char else c
  }

  /** `s.lower()` restricted to ASCII: the result has no upper-case ASCII letter and differs from `s` only at those. */
  function Lower(s: string): (r: string)
    ensures |r| == |s|
    ensures forall i :: 0 <= i < |r| ==> !IsUpper(r[i])
    ensures forall i :: 0 <= i < |s| && !IsUpper(s[i]) ==> r[i] == s[i]
    ensures forall i :: 0 <= i < |s| && IsUpper(s[i]) ==> r[i] as int == s[i] as int - 'A' as int + 'a' as int
  {
    seq(|s|, i requires 0 <= i < |s| => LowerChar(s[i]))
  }

  /** Python's `w in s` on strings, by scanning `s` from the left. */
  predicate Occurs(w: string, s: string)
    decreases |s|
  {
    |w| <= |s| && (s[..|w|] == w || (s != [] && Occurs(w, s[1..])))
  }

  /** The window of `s` starting at `i` spells `w`. */
  predicate WindowAt(w: string, s: string, i: int) {
    0 <= i <= |s| - |w| && s[i..i + |w|] == w
  }

  /** The scan agrees with the definition of a substring: some window of `s` equals `w`. */
  lemma {:induction false} OccursAt(w: string, s: string)
    ensures Occurs(w, s) <==> exists i :: WindowAt(w, s, i)
    decreases |s|
  {
    if |w| <= |s| && s != [] {
      OccursAt(w, s[1..]);
      if exists i :: WindowAt(w, s, i) {
        var i :| WindowAt(w, s, i);
        if i > 0 {
          assert s[1..][i - 1..i - 1 + |w|] == s[i..i + |w|];
          assert WindowAt(w, s[1..], i - 1);
        }
      }
      if s[..|w|] == w {
        assert WindowAt(w, s, 0);
      }
      if Occurs(w, s[1..]) {
        var i :| WindowAt(w, s[1..], i);
        assert s[i + 1..i + 1 + |w|] == s[1..][i..i + |w|];
        assert WindowAt(w, s, i + 1);
      }
    } else if |w| <= |s| {
      assert WindowAt(w, s, 0);
    }
  }

  /** A word occurs in any text built around it. */
  lemma OccursInside(a: string, w: string, b: string)
    ensures Occurs(w, a + w + b)
  {
    var s := a + w + b;
    assert WindowAt(w, s, |a|);
    OccursAt(w, s);
  }

  /** A word that occurs in a text occurs in any text built around it. */
  lemma OccursWithin(w: string, s: string, a: string, b: string)
    requires Occurs(w, s)
    ensures Occurs(w, a + s + b)
  {
    OccursAt(w, s);
    var i :| WindowAt(w, s, i);
    var t := a + s + b;
    assert t[|a| + i..|a| + i + |w|] == s[i..i + |w|];
    assert WindowAt(w, t, |a| + i);
    OccursAt(w, t);
  }
}
