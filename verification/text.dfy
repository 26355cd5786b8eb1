/** Whitespace and `String.prototype.trim`, as the contact-form validator uses them.

    ECMAScript's `trim` and the regular-expression class `\s` remove or match the
    same characters: the WhiteSpace and LineTerminator productions of ECMA-262
    (sections 12.2 and 12.3). Strings are sequences of characters here; UTF-16
    code units are not modelled.
 */
module Text {

  /** WhiteSpace (tab, vertical tab, form feed, zero-width no-break space and every
      code point of Unicode category Zs) or LineTerminator (LF, CR, LS, PS). */
  predicate IsWhitespace(c: char) {
    || c == '\t' || c == '\U{000B}' || c == '\U{000C}' || c == '\U{FEFF}'
    || c == ' ' || c == '\U{00A0}' || c == '\U{1680}'
    || ('\U{2000}' <= c <= '\U{200A}')
    || c == '\U{202F}' || c == '\U{205F}' || c == '\U{3000}'
    || c == '\n' || c == '\r' || c == '\U{2028}' || c == '\U{2029}'
  }

  predicate AllWhitespace(s: string) {
    forall i :: 0 <= i < |s| ==> IsWhitespace(s[i])
  }

  predicate NoWhitespace(s: string) {
    forall i :: 0 <= i < |s| ==> !IsWhitespace(s[i])
  }

  /** A string that neither starts nor ends with whitespace. */
  predicate Bordered(s: string) {
    s == [] || (!IsWhitespace(s[0]) && !IsWhitespace(s[|s| - 1]))
  }

  /** `[i, j)` is a trim window of `s`: everything before `i` and from `j` on is
      whitespace, and the slice between has no whitespace at either end. */
  predicate TrimWindow(s: string, i: int, j: int) {
    0 <= i <= j <= |s| && AllWhitespace(s[..i]) && AllWhitespace(s[j..]) && Bordered(s[i..j])
  }

  /** Reference definition of trimming: `r` is the slice of `s` under a trim window. */
  ghost predicate IsTrimOf(r: string, s: string) {
    exists i, j :: TrimWindow(s, i, j) && r == s[i..j]
  }

  /** Drops the leading whitespace. */
  function TrimStart(s: string): (r: string)
    ensures |r| <= |s| && r == s[|s| - |r|..]
    ensures AllWhitespace(s[..|s| - |r|])
    ensures r == [] || !IsWhitespace(r[0])
  {
    if s == [] || !IsWhitespace(s[0]) then s else TrimStart(s[1..])
  }

  /** Drops the trailing whitespace. */
  function TrimEnd(s: string): (r: string)
    ensures |r| <= |s| && r == s[..|r|]
    ensures AllWhitespace(s[|r|..])
    ensures r == [] || !IsWhitespace(r[|r| - 1])
  {
    if s == [] || !IsWhitespace(s[|s| - 1]) then s else TrimEnd(s[..|s| - 1])
  }

  /** `String.prototype.trim`. */
  function Trim(s: string): (r: string)
    ensures IsTrimOf(r, s)
  {
    var t := TrimStart(s);
    var r := TrimEnd(t);
    var i := |s| - |t|;
    assert r == s[i..i + |r|];
    assert s[i + |r|..] == t[|r|..];
    r
  }

  /** Only one string is the trim of `s`: the reference definition pins it down. */
  lemma TrimOfIsUnique(r1: string, r2: string, s: string)
    requires IsTrimOf(r1, s) && IsTrimOf(r2, s)
    ensures r1 == r2
  {
    var i1, j1 :| TrimWindow(s, i1, j1) && r1 == s[i1..j1];
    var i2, j2 :| TrimWindow(s, i2, j2) && r2 == s[i2..j2];
    TrimWindowIsUnique(s, i1, j1, i2, j2);
  }

  /** Two trim windows of the same string select the same text. */
  lemma TrimWindowIsUnique(s: string, i1: int, j1: int, i2: int, j2: int)
    requires TrimWindow(s, i1, j1) && TrimWindow(s, i2, j2)
    ensures s[i1..j1] == s[i2..j2]
  {
    if i1 < j1 {
      SolidCharOutsidePadding(s, i1, i2, j2);
      SolidCharOutsidePadding(s, j1 - 1, i2, j2);
    }
    if i2 < j2 {
      SolidCharOutsidePadding(s, i2, i1, j1);
      SolidCharOutsidePadding(s, j2 - 1, i1, j1);
    }
  }

  /** A non-whitespace character of `s` lies inside every trim window `[i, j)`. */
  lemma SolidCharOutsidePadding(s: string, k: int, i: int, j: int)
    requires 0 <= i <= j <= |s| && 0 <= k < |s| && !IsWhitespace(s[k])
    requires AllWhitespace(s[..i]) && AllWhitespace(s[j..])
    ensures i <= k < j
  {
  }

  /** Trimming twice is trimming once. */
  lemma TrimIdempotent(s: string)
    ensures Trim(Trim(s)) == Trim(s)
  {
    var t := Trim(s);
    var i, j :| TrimWindow(s, i, j) && t == s[i..j];
    assert TrimWindow(t, 0, |t|) && t == t[0..|t|];
    TrimOfIsUnique(Trim(t), t, t);
  }

  /** Whitespace added around a string does not change its trim. */
  lemma TrimIgnoresPadding(a: string, s: string, b: string)
    requires AllWhitespace(a) && AllWhitespace(b)
    ensures Trim(a + s + b) == Trim(s)
  {
    var t := Trim(s);
    var i, j :| TrimWindow(s, i, j) && t == s[i..j];
    var p := a + s + b;
    SlicesOfPadded(a, s, b, i, j);
    AllWhitespaceConcat(a, s[..i]);
    AllWhitespaceConcat(s[j..], b);
    assert TrimWindow(p, |a| + i, |a| + j);
    TrimOfIsUnique(Trim(p), t, p);
  }

  lemma SlicesOfPadded(a: string, s: string, b: string, i: int, j: int)
    requires 0 <= i <= j <= |s|
    ensures (a + s + b)[..|a| + i] == a + s[..i]
    ensures (a + s + b)[|a| + i..|a| + j] == s[i..j]
    ensures (a + s + b)[|a| + j..] == s[j..] + b
  {
  }

  lemma AllWhitespaceConcat(x: string, y: string)
    requires AllWhitespace(x) && AllWhitespace(y)
    ensures AllWhitespace(x + y)
  {
    forall k | 0 <= k < |x + y| ensures IsWhitespace((x + y)[k]) {
      if k < |x| { assert (x + y)[k] == x[k]; } else { assert (x + y)[k] == y[k - |x|]; }
    }
  }

  /** A string without any whitespace is its own trim. */
  lemma TrimKeepsSolidText(s: string)
    requires NoWhitespace(s)
    ensures Trim(s) == s
  {
    assert TrimWindow(s, 0, |s|) && s == s[0..|s|];
    TrimOfIsUnique(Trim(s), s, s);
  }

  /** The trim is empty exactly when the whole string is whitespace. */
  lemma TrimEmptyIffBlank(s: string)
    ensures Trim(s) == [] <==> AllWhitespace(s)
  {
    var t := Trim(s);
    var i, j :| TrimWindow(s, i, j) && t == s[i..j];
    if t == [] {
      forall k | 0 <= k < |s| ensures IsWhitespace(s[k]) {
        if k < i { assert s[..i][k] == s[k]; } else { assert s[j..][k - j] == s[k]; }
      }
    }
  }

  /** Trimming only removes characters. */
  lemma TrimNoLonger(s: string)
    ensures |Trim(s)| <= |s|
  {
    var t := Trim(s);
    var i, j :| TrimWindow(s, i, j) && t == s[i..j];
  }

  /** A character absent from `s` is absent from its trim. */
  lemma TrimKeepsAbsentChar(s: string, c: char)
    requires c !in s
    ensures c !in Trim(s)
  {
    var t := Trim(s);
    var i, j :| TrimWindow(s, i, j) && t == s[i..j];
  }
}
