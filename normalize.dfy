/**
 * Text normalisation for join keys: Python's `str.strip()` (over the
 * characters `str.isspace()` accepts), `str.lower()` (over ASCII) and the
 * `trim` helper of app.py, which maps `None` to the empty string.
 */
module Normalize {
  import opened Wrappers

  /** The characters Python's `str.isspace()` accepts; `str.strip()` removes these. */
  predicate IsSpace(c: char) {
    || c == ' ' || c == '\t' || c == '\n' || c == '\r'
    || c == '\U{000B}' || c == '\U{000C}'
    || ('\U{001C}' <= c <= '\U{001F}')
    || c == '\U{0085}' || c == '\U{00A0}' || c == '\U{1680}'
    || ('\U{2000}' <= c <= '\U{200A}')
    || c == '\U{2028}' || c == '\U{2029}' || c == '\U{202F}'
    || c == '\U{205F}' || c == '\U{3000}'
  }

  predicate AllSpace(s: string) {
    forall i :: 0 <= i < |s| ==> IsSpace(s[i])
  }

  /** Neither the first nor the last character is whitespace. */
  predicate NoEdgeSpace(s: string) {
    s == [] || (!IsSpace(s[0]) && !IsSpace(s[|s| - 1]))
  }

  /** `s.lstrip()`: the suffix left after dropping the leading whitespace. */
  function StripLeft(s: string): (r: string)
    ensures |r| <= |s| && r == s[|s| - |r|..]
    ensures AllSpace(s[..|s| - |r|])
    ensures r == [] || !IsSpace(r[0])
  {
    if s != [] && IsSpace(s[0]) then StripLeft(s[1..]) else s
  }

  /** `s.rstrip()`: the prefix left after dropping the trailing whitespace. */
  function StripRight(s: string): (r: string)
    ensures |r| <= |s| && r == s[..|r|]
    ensures AllSpace(s[|r|..])
    ensures r == [] || !IsSpace(r[|r| - 1])
  {
    if s != [] && IsSpace(s[|s| - 1]) then
      var front := s[..|s| - 1];
      var r := StripRight(front);
      assert s[..|r|] == front[..|r|];
      assert s[|r|..] == front[|r|..] + [s[|s| - 1]];
      r
    else s
  }

  /** `s.strip()`. */
  function Strip(s: string): string {
    StripRight(StripLeft(s))
  }

  /** `trim` (app.py:22-23): `(s or "").strip()`. */
  function Trim(s: Option<string>): (r: string)
    ensures s.None? ==> r == ""
    ensures NoEdgeSpace(r)
    ensures s.Some? ==> |r| <= |s.value|
  {
    match s
    case None => ""
    case Some(text) =>
      var l := StripLeft(text);
      var r := StripRight(l);
      assert r == [] || !IsSpace(l[0]);
      r
  }

  /** What `trim` keeps of a text is an infix of it with only whitespace around it. */
  lemma TrimIsInfix(text: string) returns (i: nat)
    ensures i + |Trim(Some(text))| <= |text|
    ensures text[i..i + |Trim(Some(text))|] == Trim(Some(text))
    ensures AllSpace(text[..i]) && AllSpace(text[i + |Trim(Some(text))|..])
  {
    var l := StripLeft(text);
    var r := StripRight(l);
    i := |text| - |l|;
    assert text[i..] == l;
    assert l[..|r|] == text[i..i + |r|];
    assert l[|r|..] == text[i + |r|..];
  }

  /** ASCII `str.lower()` on one character. */
  function LowerChar(c: char): char {
    if 'A' <= c <= 'Z' then (c as int - 'A' as int + 'a' as int) as char else c
  }

  /** `s.lower()`, over ASCII letters. */
  function Lower(s: string): (r: string)
    ensures |r| == |s|
  {
    seq(|s|, i requires 0 <= i < |s| => LowerChar(s[i]))
  }

  /** The join key of a lookup label or an uploaded cell: trimmed, and lowercased when `lower` is set. */
  function Key(s: string, lower: bool): string {
    if lower then Lower(Trim(Some(s))) else Trim(Some(s))
  }

  lemma {:induction false} StripLeftOfPadded(p: string, m: string)
    requires AllSpace(p) && (m == [] || !IsSpace(m[0]))
    ensures StripLeft(p + m) == m
  {
    if p != [] {
      assert (p + m)[1..] == p[1..] + m;
      StripLeftOfPadded(p[1..], m);
    } else {
      assert p + m == m;
    }
  }

  lemma {:induction false} StripRightOfPadded(m: string, q: string)
    requires AllSpace(q) && (m == [] || !IsSpace(m[|m| - 1]))
    ensures StripRight(m + q) == m
  {
    if q != [] {
      assert (m + q)[..|m + q| - 1] == m + q[..|q| - 1];
      StripRightOfPadded(m, q[..|q| - 1]);
    } else {
      assert m + q == m;
    }
  }

  /**
   * `strip` is characterised by what it keeps: padding any text without edge
   * whitespace by whitespace on both sides, `strip` gives that text back.
   */
  lemma StripPadded(p: string, m: string, q: string)
    requires AllSpace(p) && AllSpace(q) && NoEdgeSpace(m)
    ensures Strip(p + m + q) == m
  {
    assert p + m + q == p + (m + q);
    if m == [] {
      assert m + q == q;
      StripLeftOfPadded(p + q, []);
      assert p + q + [] == p + q;
      StripRightOfPadded([], []);
    } else {
      StripLeftOfPadded(p, m + q);
      StripRightOfPadded(m, q);
    }
  }

  /** `trim` maps `None` to `""` and is idempotent. */
  lemma TrimIdempotent(s: Option<string>)
    ensures Trim(None) == ""
    ensures Trim(Some(Trim(s))) == Trim(s)
  {
    TrimOfTrimmed(Trim(s));
  }

  lemma LowerKeepsSpace(c: char)
    ensures IsSpace(LowerChar(c)) <==> IsSpace(c)
  {
  }

  /** Lowercasing does not move the whitespace edges of a text. */
  lemma LowerNoEdgeSpace(s: string)
    requires NoEdgeSpace(s)
    ensures NoEdgeSpace(Lower(s))
  {
    if s != [] {
      LowerKeepsSpace(s[0]);
      LowerKeepsSpace(s[|s| - 1]);
    }
  }

  lemma LowerIdempotent(s: string)
    ensures Lower(Lower(s)) == Lower(s)
  {
  }

  /**
   * A normalised key normalises to itself (app.py:122-132): the email key
   * `trim(x).lower()` and the tag key, with or without lowercasing.
   */
  lemma KeyIdempotent(s: string, lower: bool)
    ensures Key(Key(s, lower), lower) == Key(s, lower)
  {
    var t := Trim(Some(s));
    TrimIdempotent(Some(s));
    if lower {
      var k := Lower(t);
      LowerNoEdgeSpace(t);
      TrimOfTrimmed(k);
      LowerIdempotent(t);
    }
  }

  /** A text without edge whitespace is left as it is by `trim`. */
  lemma TrimOfTrimmed(s: string)
    requires NoEdgeSpace(s)
    ensures Trim(Some(s)) == s
  {
    assert [] + s + [] == s;
    StripPadded([], s, []);
  }
}
