/** The Python `str` methods the scanners use on reply text: `isspace`,
    `replace` (with a non-empty pattern) and `strip` (without arguments),
    together with substring occurrence. */
module PyText {

  /** `c.isspace()` in Python 3: the characters whose bidirectional class is
      WS, B or S, or whose category is Zs. */
  predicate IsSpace(c: char)
  {
    ('\t' <= c <= '\r') || ('\U{1C}' <= c <= ' ') || c == '\U{85}' || c == '\U{A0}'
    || c == '\U{1680}' || ('\U{2000}' <= c <= '\U{200A}') || c == '\U{2028}'
    || c == '\U{2029}' || c == '\U{202F}' || c == '\U{205F}' || c == '\U{3000}'
  }

  /** On ASCII, `isspace` holds for exactly the ten characters below, and it
      holds for nothing above U+3000. */
  lemma IsSpaceAscii(c: char)
    ensures c < '\U{80}' ==> (IsSpace(c) <==> c in {' ', '\t', '\n', '\r', '\U{0B}', '\U{0C}', '\U{1C}', '\U{1D}', '\U{1E}', '\U{1F}'})
    ensures IsSpace(c) ==> c <= '\U{3000}'
  {
  }

  predicate AllSpace(s: string)
  {
    forall k :: 0 <= k < |s| ==> IsSpace(s[k])
  }

  /** No whitespace at either end: what `strip()` leaves. */
  predicate IsTrimmed(s: string)
  {
    s == [] || (!IsSpace(s[0]) && !IsSpace(s[|s| - 1]))
  }

  /** `pat` occurs in `s` starting at index `i`. */
  predicate OccursAt(s: string, pat: string, i: int)
  {
    0 <= i && i + |pat| <= |s| && s[i..i + |pat|] == pat
  }

  /** Python's `pat in s`. */
  ghost predicate Contains(s: string, pat: string)
  {
    exists i :: OccursAt(s, pat, i)
  }

  /** `s.replace(pat, rep)` for a non-empty `pat`: the occurrences are found
      left to right, each search resuming after the previous occurrence, so
      they never overlap. */
  function ReplaceAll(s: string, pat: string, rep: string): (r: string)
    requires pat != ""
    ensures rep == [] ==> |r| <= |s|
    decreases |s|
  {
    if |s| < |pat| then s
    else if s[..|pat|] == pat then rep + ReplaceAll(s[|pat|..], pat, rep)
    else [s[0]] + ReplaceAll(s[1..], pat, rep)
  }

  /** `s.lstrip()`. */
  function TrimStart(s: string): (r: string)
    ensures |r| <= |s| && r == s[|s| - |r|..]
    ensures AllSpace(s[..|s| - |r|])
    ensures r == [] || !IsSpace(r[0])
    decreases |s|
  {
    if |s| > 0 && IsSpace(s[0]) then
      var r := TrimStart(s[1..]);
      var n := |s| - |r|;
      assert s[1..][n - 1..] == s[n..];
      assert s[..n] == [s[0]] + s[1..][..n - 1];
      r
    else s
  }

  /** `s.rstrip()`. */
  function TrimEnd(s: string): (r: string)
    ensures |r| <= |s| && r == s[..|r|]
    ensures AllSpace(s[|r|..])
    ensures r == [] || !IsSpace(r[|r| - 1])
    decreases |s|
  {
    if |s| > 0 && IsSpace(s[|s| - 1]) then
      var r := TrimEnd(s[..|s| - 1]);
      assert s[..|s| - 1][..|r|] == s[..|r|];
      assert forall k :: |r| <= k < |s| - 1 ==> s[k] == s[..|s| - 1][|r|..][k - |r|];
      r
    else s
  }

  /** How many whitespace characters `lstrip` removes. */
  function Lead(s: string): (n: nat)
    ensures n <= |s|
  {
    |s| - |TrimStart(s)|
  }

  /** `s.strip()`: the text between the leading and the trailing whitespace. */
  function Strip(s: string): (r: string)
    ensures IsTrimmed(r)
    ensures Lead(s) + |r| <= |s| && r == s[Lead(s)..Lead(s) + |r|]
    ensures AllSpace(s[..Lead(s)]) && AllSpace(s[Lead(s) + |r|..])
  {
    var t := TrimStart(s);
    var r := TrimEnd(t);
    r
  }

  /** A run of whitespace in front of a text that does not start with
      whitespace is exactly what `lstrip` removes. */
  lemma {:induction false} TrimStartAfterSpaces(a: string, u: string)
    requires AllSpace(a)
    requires u == [] || !IsSpace(u[0])
    ensures TrimStart(a + u) == u
    decreases |a|
  {
    if a != [] {
      assert (a + u)[1..] == a[1..] + u;
      TrimStartAfterSpaces(a[1..], u);
    } else {
      assert a + u == u;
    }
  }

  lemma {:induction false} TrimEndBeforeSpaces(u: string, b: string)
    requires AllSpace(b)
    requires u == [] || !IsSpace(u[|u| - 1])
    ensures TrimEnd(u + b) == u
    decreases |b|
  {
    if b != [] {
      assert (u + b)[..|u + b| - 1] == u + b[..|b| - 1];
      TrimEndBeforeSpaces(u, b[..|b| - 1]);
    } else {
      assert u + b == u;
    }
  }

  /** `strip` is determined by its meaning: whenever `s` is a trimmed text with
      only whitespace around it, `s.strip()` is that text. */
  lemma StripUnique(s: string, a: string, t: string, b: string)
    requires s == a + t + b && AllSpace(a) && AllSpace(b) && IsTrimmed(t)
    ensures Strip(s) == t
  {
    if t == [] {
      assert AllSpace(a + b);
      TrimStartAfterSpaces(a + b, []);
      assert a + b + [] == s;
    } else {
      assert s == a + (t + b);
      TrimStartAfterSpaces(a, t + b);
      TrimEndBeforeSpaces(t, b);
    }
  }

  lemma StripTrimmed(s: string)
    requires IsTrimmed(s)
    ensures Strip(s) == s
  {
    assert s == [] + s + [];
    StripUnique(s, [], s, []);
  }

  /** An occurrence inside a part of a concatenation is an occurrence in the
      whole. */
  lemma ContainsInMiddle(a: string, t: string, b: string, pat: string)
    requires Contains(t, pat)
    ensures Contains(a + t + b, pat)
  {
    var i :| OccursAt(t, pat, i);
    assert (a + t + b)[|a| + i..|a| + i + |pat|] == t[i..i + |pat|];
    assert OccursAt(a + t + b, pat, |a| + i);
  }

  lemma ContainsItself(s: string)
    ensures Contains(s, s)
  {
    assert OccursAt(s, s, 0);
  }

  lemma ContainsLeft(a: string, b: string, pat: string)
    requires Contains(a, pat)
    ensures Contains(a + b, pat)
  {
    ContainsInMiddle([], a, b, pat);
    assert [] + a + b == a + b;
  }

  lemma ContainsRight(a: string, b: string, pat: string)
    requires Contains(b, pat)
    ensures Contains(a + b, pat)
  {
    ContainsInMiddle(a, b, [], pat);
    assert a + b + [] == a + b;
  }

  /** A text in which `pat` does not occur is left as it is by `replace`. */
  lemma {:induction false} ReplaceAbsent(s: string, pat: string, rep: string)
    requires pat != "" && !Contains(s, pat)
    ensures ReplaceAll(s, pat, rep) == s
    decreases |s|
  {
    if |s| >= |pat| {
      assert !OccursAt(s, pat, 0);
      forall i | OccursAt(s[1..], pat, i) ensures OccursAt(s, pat, i + 1) {
        assert s[1..][i..i + |pat|] == s[i + 1..i + 1 + |pat|];
      }
      ReplaceAbsent(s[1..], pat, rep);
    }
  }

  /** An occurrence of a text is also an occurrence of each of its prefixes. */
  lemma ContainsPrefix(s: string, pat: string, n: nat)
    requires n <= |pat| && Contains(s, pat)
    ensures Contains(s, pat[..n])
  {
    var i :| OccursAt(s, pat, i);
    assert s[i..i + n] == s[i..i + |pat|][..n];
    assert OccursAt(s, pat[..n], i);
  }

  /** `replace` replaces the leftmost occurrence and resumes the search right
      after it: with `ReplaceAbsent`, this determines `replace` on every text. */
  lemma {:induction false} ReplaceAtFirst(u: string, pat: string, v: string, rep: string)
    requires pat != ""
    requires forall i :: 0 <= i < |u| ==> !OccursAt(u + pat + v, pat, i)
    ensures ReplaceAll(u + pat + v, pat, rep) == u + rep + ReplaceAll(v, pat, rep)
    decreases |u|
  {
    var s := u + pat + v;
    if u == [] {
      assert s == pat + v;
      assert s[..|pat|] == pat && s[|pat|..] == v;
    } else {
      assert !OccursAt(s, pat, 0);
      assert s[1..] == u[1..] + pat + v;
      forall i | 0 <= i < |u[1..]| ensures !OccursAt(u[1..] + pat + v, pat, i) {
        assert s[1..][i..i + |pat|] == s[i + 1..i + 1 + |pat|];
        assert !OccursAt(s, pat, i + 1);
      }
      ReplaceAtFirst(u[1..], pat, v, rep);
      assert [s[0]] + (u[1..] + rep + ReplaceAll(v, pat, rep)) == u + rep + ReplaceAll(v, pat, rep);
    }
  }

  /** A text framed by a fixed head and tail: the head at 0, the text right
      after it and the tail after that. Both request prompts have this form. */
  lemma FrameLayout(head: string, x: string, tail: string)
    ensures OccursAt(head + x + tail, head, 0)
    ensures OccursAt(head + x + tail, x, |head|)
    ensures OccursAt(head + x + tail, tail, |head| + |x|)
  {
    var p := head + x + tail;
    assert p[..|head|] == head;
    assert p[|head|..|head| + |x|] == x;
    assert p[|head| + |x|..|p|] == tail;
  }

  /** The framed text can be read back from the frame, so different texts
      give different frames. */
  lemma FrameInjective(head: string, x: string, y: string, tail: string)
    requires head + x + tail == head + y + tail
    ensures x == y
  {
    FrameLayout(head, x, tail);
    FrameLayout(head, y, tail);
  }
}
