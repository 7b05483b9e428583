/**
 * The string operations the mock report applies to its query:
 * `String.prototype.trim` and `String.prototype.toLowerCase`, on strings of
 * Unicode scalar values.
 */
module JsText {

  /** ECMAScript white space and line terminators, the characters `trim` removes. */
  predicate IsWhitespace(c: char)
  {
    c == '\t' || c == '\n' || c == '\U{B}' || c == '\U{C}' || c == '\r' || c == ' '
    || c == '\U{A0}' || c == '\U{1680}' || ('\U{2000}' <= c <= '\U{200A}')
    || c == '\U{2028}' || c == '\U{2029}' || c == '\U{202F}' || c == '\U{205F}'
    || c == '\U{3000}' || c == '\U{FEFF}'
  }

  predicate AllWhitespace(s: string)
  {
    forall i :: 0 <= i < |s| ==> IsWhitespace(s[i])
  }

  /** `s` without its leading white space. */
  function TrimStart(s: string): (r: string)
    ensures |r| <= |s| && r == s[|s| - |r|..]
    ensures AllWhitespace(s[..|s| - |r|])
    ensures r == [] || !IsWhitespace(r[0])
  {
    if s != [] && IsWhitespace(s[0]) then TrimStart(s[1..]) else s
  }

  /** `s` without its trailing white space. */
  function TrimEnd(s: string): (r: string)
    ensures |r| <= |s| && r == s[..|r|]
    ensures AllWhitespace(s[|r|..])
    ensures r == [] || !IsWhitespace(r[|r| - 1])
  {
    if s != [] && IsWhitespace(s[|s| - 1]) then TrimEnd(s[..|s| - 1]) else s
  }

  /**
   * `String.prototype.trim`: neither end of the result is white space, and
   * the result is empty exactly when `s` is all white space.
   */
  function Trim(s: string): (r: string)
    ensures |r| <= |s|
    ensures r == [] || (!IsWhitespace(r[0]) && !IsWhitespace(r[|r| - 1]))
    ensures r == [] <==> AllWhitespace(s)
  {
    var t := TrimStart(s);
    var r := TrimEnd(t);
    assert t == [] ==> s == s[..|s| - |t|];
    r
  }

  /** `toLowerCase` on one character, for the ASCII letters. */
  function LowerChar(c: char): (r: char)
    ensures !('A' <= r <= 'Z')
    ensures 'A' <= c <= 'Z' ==> r as int == c as int + 32
    ensures 'A' <= c <= 'Z' || r == c
  {
    if 'A' <= c <= 'Z' then (c as int - 'A' as int + 'a' as int) as char else c
  }

  /** `String.prototype.toLowerCase`, for the ASCII letters. */
  function ToLower(s: string): (r: string)
    ensures |r| == |s|
    ensures forall i :: 0 <= i < |s| ==> r[i] == LowerChar(s[i])
  {
    if s == [] then [] else [LowerChar(s[0])] + ToLower(s[1..])
  }

  /** Leading white space does not survive `TrimStart`. */
  lemma {:induction false} TrimStartPadded(w: string, s: string)
    requires AllWhitespace(w)
    ensures TrimStart(w + s) == TrimStart(s)
    decreases |w|
  {
    if w != [] {
      var ws := w + s;
      assert ws[0] == w[0] && IsWhitespace(ws[0]);
      assert ws[1..] == w[1..] + s;
      assert TrimStart(ws) == TrimStart(ws[1..]);
      TrimStartPadded(w[1..], s);
    } else {
      assert w + s == s;
    }
  }

  /** Trailing white space does not survive `TrimEnd`. */
  lemma {:induction false} TrimEndPadded(s: string, w: string)
    requires AllWhitespace(w)
    ensures TrimEnd(s + w) == TrimEnd(s)
    decreases |w|
  {
    if w != [] {
      var sw := s + w;
      assert sw[|sw| - 1] == w[|w| - 1] && IsWhitespace(sw[|sw| - 1]);
      assert sw[..|sw| - 1] == s + w[..|w| - 1];
      assert TrimEnd(sw) == TrimEnd(sw[..|sw| - 1]);
      TrimEndPadded(s, w[..|w| - 1]);
    } else {
      assert s + w == s;
    }
  }

  /** `TrimStart` leaves trailing white space where it was, unless it removes everything. */
  lemma {:induction false} TrimStartAppend(s: string, w: string)
    requires AllWhitespace(w)
    ensures TrimStart(s + w) == if TrimStart(s) == [] then [] else TrimStart(s) + w
    decreases |s|
  {
    if s == [] {
      assert s + w == w;
      TrimStartPadded(w, []);
      assert w + [] == w;
    } else if IsWhitespace(s[0]) {
      assert (s + w)[1..] == s[1..] + w;
      TrimStartAppend(s[1..], w);
    }
  }

  /** `trim` ignores any white space added before or after the text. */
  lemma TrimPadded(w1: string, s: string, w2: string)
    requires AllWhitespace(w1) && AllWhitespace(w2)
    ensures Trim(w1 + s + w2) == Trim(s)
  {
    assert w1 + s + w2 == w1 + (s + w2);
    TrimStartPadded(w1, s + w2);
    assert TrimStart(w1 + s + w2) == TrimStart(s + w2);
    TrimStartAppend(s, w2);
    if TrimStart(s) != [] {
      TrimEndPadded(TrimStart(s), w2);
      assert TrimEnd(TrimStart(s + w2)) == TrimEnd(TrimStart(s));
    } else {
      assert TrimStart(s + w2) == [];
    }
    assert Trim(w1 + s + w2) == TrimEnd(TrimStart(w1 + s + w2));
    assert Trim(s) == TrimEnd(TrimStart(s));
  }

  /** `trim` keeps a contiguous slice of `s` and removes only white space around it. */
  lemma TrimInfix(s: string) returns (i: int, j: int)
    ensures 0 <= i <= j <= |s| && Trim(s) == s[i..j]
    ensures AllWhitespace(s[..i]) && AllWhitespace(s[j..])
  {
    var t := TrimStart(s);
    i := |s| - |t|;
    var r := TrimEnd(t);
    j := i + |r|;
    SuffixSlices(s, i, |r|);
    assert Trim(s) == r == t[..|r|];
    assert AllWhitespace(t[|r|..]);
  }

  /** Slicing a suffix of `s` is slicing `s` itself. */
  lemma SuffixSlices(s: string, i: int, k: int)
    requires 0 <= i <= |s| && 0 <= k <= |s| - i
    ensures s[i..][..k] == s[i..i + k] && s[i..][k..] == s[i + k..]
  {
  }

  /** Trimming a trimmed string changes nothing. */
  lemma TrimIdempotent(s: string)
    ensures Trim(Trim(s)) == Trim(s)
  {
  }

  /** Lowering case changes no white space and makes no new white space. */
  lemma LowerCharWhitespace(c: char)
    ensures IsWhitespace(LowerChar(c)) <==> IsWhitespace(c)
  {
  }

  /** Lowering case and trimming can be done in either order. */
  lemma {:induction false} ToLowerTrim(s: string)
    ensures ToLower(Trim(s)) == Trim(ToLower(s))
  {
    ToLowerTrimStart(s);
    ToLowerTrimEnd(TrimStart(s));
  }

  lemma {:induction false} ToLowerTrimStart(s: string)
    ensures ToLower(TrimStart(s)) == TrimStart(ToLower(s))
    decreases |s|
  {
    if s != [] {
      LowerCharWhitespace(s[0]);
      assert ToLower(s)[1..] == ToLower(s[1..]);
      ToLowerTrimStart(s[1..]);
    }
  }

  lemma {:induction false} ToLowerTrimEnd(s: string)
    ensures ToLower(TrimEnd(s)) == TrimEnd(ToLower(s))
    decreases |s|
  {
    if s != [] {
      var init := s[..|s| - 1];
      LowerCharWhitespace(s[|s| - 1]);
      ToLowerInit(s);
      TrimEndStep(s);
      TrimEndStep(ToLower(s));
      ToLowerTrimEnd(init);
    }
  }

  /** Lower-casing all but the last character, and the last one, of a non-empty string. */
  lemma ToLowerInit(s: string)
    requires s != []
    ensures ToLower(s)[..|s| - 1] == ToLower(s[..|s| - 1])
    ensures ToLower(s)[|s| - 1] == LowerChar(s[|s| - 1])
  {
  }

  /** One step of `TrimEnd` on a non-empty string. */
  lemma TrimEndStep(s: string)
    requires s != []
    ensures TrimEnd(s) == if IsWhitespace(s[|s| - 1]) then TrimEnd(s[..|s| - 1]) else s
  {
  }
}
