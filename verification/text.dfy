/**
  String helpers with the meaning of the Python built-ins the planner uses:
  `str.lower` (ASCII letters only), `str.strip`, `str.isspace`, the substring
  test `t in s`, and `sep.join(xs)`.
*/
module Text {

  /** Python's `str.isspace`: the characters `\s` matches and `strip()` removes. */
  predicate IsSpace(c: char) {
    || c == ' ' || c == '\t' || c == '\n' || c == '\r'
    || c == '\U{B}' || c == '\U{C}'
    || ('\U{1C}' <= c <= '\U{1F}')
    || c == '\U{85}' || c == '\U{A0}' || c == '\U{1680}'
    || ('\U{2000}' <= c <= '\U{200A}')
    || c == '\U{2028}' || c == '\U{2029}' || c == '\U{202F}' || c == '\U{205F}' || c == '\U{3000}'
  }

  predicate IsUpper(c: char) { 'A' <= c <= 'Z' }

  function LowerChar(c: char): char {
    if IsUpper(c) then (c as int + 32) as char else c
  }

  /** `s.lower()` on the ASCII letters; every other character is kept. */
  function Lower(s: string): (r: string)
    ensures |r| == |s|
    ensures forall i :: 0 <= i < |s| ==> r[i] == LowerChar(s[i])
  {
    seq(|s|, i requires 0 <= i < |s| => LowerChar(s[i]))
  }

  /** A string that `Lower` leaves unchanged. */
  predicate NoUpper(s: string) {
    forall i :: 0 <= i < |s| ==> !IsUpper(s[i])
  }

  lemma LowerOfNoUpper(s: string)
    requires NoUpper(s)
    ensures Lower(s) == s
  {
  }

  /** `t` occurs in `s` starting at index `i`. */
  predicate OccursAt(s: string, t: string, i: int) {
    0 <= i && i + |t| <= |s| && s[i..i + |t|] == t
  }

  /** Python's substring test `t in s`. */
  predicate Contains(s: string, t: string) {
    exists i | 0 <= i <= |s| - |t| :: OccursAt(s, t, i)
  }

  lemma ContainsAt(s: string, t: string, i: int)
    requires OccursAt(s, t, i)
    ensures Contains(s, t)
  {
  }

  /** Lower-casing keeps every occurrence of a lower-case word. */
  lemma ContainsLower(s: string, t: string)
    requires NoUpper(t) && Contains(s, t)
    ensures Contains(Lower(s), t)
  {
    var i :| 0 <= i <= |s| - |t| && OccursAt(s, t, i);
    assert Lower(s)[i..i + |t|] == t by {
      forall k | 0 <= k < |t|
        ensures Lower(s)[i..i + |t|][k] == t[k]
      {
        assert s[i + k] == t[k];
      }
    }
    ContainsAt(Lower(s), t, i);
  }

  /** An occurrence inside a piece is an occurrence inside the whole. */
  lemma ContainsInside(pre: string, mid: string, post: string, t: string)
    requires Contains(mid, t)
    ensures Contains(pre + mid + post, t)
  {
    var i :| 0 <= i <= |mid| - |t| && OccursAt(mid, t, i);
    var w := pre + mid + post;
    assert w[|pre| + i..|pre| + i + |t|] == mid[i..i + |t|];
    ContainsAt(w, t, |pre| + i);
  }

  /** `sep.join(xs)`. */
  function Join(sep: string, xs: seq<string>): string
    decreases |xs|
  {
    if |xs| == 0 then ""
    else if |xs| == 1 then xs[0]
    else xs[0] + sep + Join(sep, xs[1..])
  }

  /** Every element of `xs` is a piece of `sep.join(xs)`. */
  lemma {:induction false} JoinHasPiece(sep: string, xs: seq<string>, k: nat)
    requires k < |xs|
    ensures exists pre, post :: Join(sep, xs) == pre + xs[k] + post
    decreases |xs|
  {
    if |xs| == 1 {
      assert Join(sep, xs) == "" + xs[0] + "";
    } else if k == 0 {
      assert Join(sep, xs) == "" + xs[0] + (sep + Join(sep, xs[1..]));
    } else {
      JoinHasPiece(sep, xs[1..], k - 1);
      var pre, post :| Join(sep, xs[1..]) == pre + xs[1..][k - 1] + post;
      assert Join(sep, xs) == (xs[0] + sep + pre) + xs[k] + post;
    }
  }

  /** A word inside one element of `xs` occurs in `sep.join(xs)`. */
  lemma ContainsInJoin(sep: string, xs: seq<string>, k: nat, t: string)
    requires k < |xs| && Contains(xs[k], t)
    ensures Contains(Join(sep, xs), t)
  {
    JoinHasPiece(sep, xs, k);
    var pre, post :| Join(sep, xs) == pre + xs[k] + post;
    ContainsInside(pre, xs[k], post, t);
  }

  /** Python's `s.lstrip()`. */
  function TrimStart(s: string): (r: string)
    decreases |s|
  {
    if |s| > 0 && IsSpace(s[0]) then TrimStart(s[1..]) else s
  }

  /** Python's `s.rstrip()`. */
  function TrimEnd(s: string): (r: string)
    decreases |s|
  {
    if |s| > 0 && IsSpace(s[|s| - 1]) then TrimEnd(s[..|s| - 1]) else s
  }

  /** Python's `s.strip()`. */
  function Strip(s: string): string {
    TrimEnd(TrimStart(s))
  }

  lemma StripNoSpace(s: string)
    requires forall i :: 0 <= i < |s| ==> !IsSpace(s[i])
    ensures Strip(s) == s
  {
  }

  /** A string that neither starts nor ends with white space is its own strip. */
  lemma StripUnchanged(s: string)
    requires |s| > 0 ==> !IsSpace(s[0]) && !IsSpace(s[|s| - 1])
    ensures Strip(s) == s
  {
  }

  lemma {:induction false} TrimStartShape(s: string)
    ensures |TrimStart(s)| > 0 ==> !IsSpace(TrimStart(s)[0])
    ensures exists k :: 0 <= k <= |s| && TrimStart(s) == s[k..]
    decreases |s|
  {
    if |s| > 0 && IsSpace(s[0]) {
      TrimStartShape(s[1..]);
      var k :| 0 <= k <= |s[1..]| && TrimStart(s[1..]) == s[1..][k..];
      assert TrimStart(s) == s[k + 1..];
    } else {
      assert TrimStart(s) == s[0..];
    }
  }

  lemma {:induction false} TrimEndShape(s: string)
    ensures |TrimEnd(s)| > 0 ==> !IsSpace(TrimEnd(s)[|TrimEnd(s)| - 1])
    ensures exists k :: 0 <= k <= |s| && TrimEnd(s) == s[..k]
    decreases |s|
  {
    if |s| > 0 && IsSpace(s[|s| - 1]) {
      TrimEndShape(s[..|s| - 1]);
      var k :| 0 <= k <= |s[..|s| - 1]| && TrimEnd(s[..|s| - 1]) == s[..|s| - 1][..k];
      assert TrimEnd(s) == s[..k];
    } else {
      assert TrimEnd(s) == s[..|s|];
    }
  }

  /** A stripped string neither starts nor ends with white space. */
  lemma StripEnds(s: string)
    ensures |Strip(s)| > 0 ==> !IsSpace(Strip(s)[0]) && !IsSpace(Strip(s)[|Strip(s)| - 1])
  {
    var a := TrimStart(s);
    TrimStartShape(s);
    TrimEndShape(a);
    var k :| 0 <= k <= |a| && TrimEnd(a) == a[..k];
    if |Strip(s)| > 0 {
      assert Strip(s)[0] == a[0];
    }
  }

  /** Stripping twice is stripping once. */
  lemma StripIdempotent(s: string)
    ensures Strip(Strip(s)) == Strip(s)
  {
    StripEnds(s);
  }
}
