/**
  Identifier slugs (mealplanner/cli.py `slugify`): lower-case, `&` spelled
  `and`, `/` and white-space runs turned into hyphens, everything outside
  `[a-z0-9-]` dropped, at most 40 characters, and a random `r-xxxxxx` token
  when nothing is left.
*/
module Slug {
  import opened Text

  const MaxSlugLength: nat := 40

  predicate IsSlugChar(c: char) {
    ('a' <= c <= 'z') || ('0' <= c <= '9') || c == '-'
  }

  /** A string that `slugify` could have produced. */
  predicate IsSlug(s: string) {
    0 < |s| <= MaxSlugLength && forall i :: 0 <= i < |s| ==> IsSlugChar(s[i])
  }

  predicate IsHexDigit(c: char) {
    ('0' <= c <= '9') || ('a' <= c <= 'f')
  }

  /** What `secrets.token_hex(nbytes)` returns: `2 * nbytes` lower-case hex digits. */
  predicate IsHexToken(t: string, nbytes: nat) {
    |t| == 2 * nbytes && forall i :: 0 <= i < |t| ==> IsHexDigit(t[i])
  }

  /** `s.replace(c, rep)` for a one-character pattern. */
  function ReplaceChar(s: string, c: char, rep: string): string
    decreases |s|
  {
    if |s| == 0 then ""
    else (if s[0] == c then rep else [s[0]]) + ReplaceChar(s[1..], c, rep)
  }

  function DropSpaces(s: string): (r: string)
    ensures |r| <= |s|
    decreases |s|
  {
    if |s| > 0 && IsSpace(s[0]) then DropSpaces(s[1..]) else s
  }

  /** `re.sub(r"\s+", "-", s)`: every maximal white-space run becomes one hyphen. */
  function CollapseSpaces(s: string): string
    decreases |s|
  {
    if |s| == 0 then ""
    else if IsSpace(s[0]) then "-" + CollapseSpaces(DropSpaces(s[1..]))
    else [s[0]] + CollapseSpaces(s[1..])
  }

  /** `re.sub(r"[^a-z0-9-]+", "", s)`. */
  function KeepSlugChars(s: string): (r: string)
    ensures forall i :: 0 <= i < |r| ==> IsSlugChar(r[i])
    decreases |s|
  {
    if |s| == 0 then ""
    else (if IsSlugChar(s[0]) then [s[0]] else "") + KeepSlugChars(s[1..])
  }

  /** Every step of `slugify` before the truncation. */
  function SlugText(s: string): string {
    var cleaned := Strip(Lower(s));
    var spelled := ReplaceChar(ReplaceChar(cleaned, '&', "and"), '/', "-");
    KeepSlugChars(CollapseSpaces(spelled))
  }

  function FallbackSlug(token: string): string {
    "r-" + token
  }

  /**
    `slugify(s)`, with `fallback` the value `secrets.token_hex(3)` would
    return. The result is always a well-formed slug; it is the random
    fallback exactly when the cleaned text is empty, and otherwise the
    first 40 characters of the cleaned text.
  */
  function Slugify(s: string, fallback: string): (r: string)
    requires IsHexToken(fallback, 3)
    ensures IsSlug(r)
    ensures |SlugText(s)| == 0 ==> r == FallbackSlug(fallback)
    ensures |SlugText(s)| > 0 ==> |r| <= |SlugText(s)| && r == SlugText(s)[..|r|]
    ensures |SlugText(s)| > 0 ==> |r| == |SlugText(s)| || |r| == MaxSlugLength
  {
    var t := SlugText(s);
    if |t| > 0 then
      if |t| <= MaxSlugLength then t else t[..MaxSlugLength]
    else
      FallbackSlug(fallback)
  }

  lemma {:induction false} ReplaceCharAbsent(s: string, c: char, rep: string)
    requires forall i :: 0 <= i < |s| ==> s[i] != c
    ensures ReplaceChar(s, c, rep) == s
    decreases |s|
  {
    if |s| > 0 {
      ReplaceCharAbsent(s[1..], c, rep);
      assert s == [s[0]] + s[1..];
    }
  }

  lemma {:induction false} CollapseNoSpace(s: string)
    requires forall i :: 0 <= i < |s| ==> !IsSpace(s[i])
    ensures CollapseSpaces(s) == s
    decreases |s|
  {
    if |s| > 0 {
      CollapseNoSpace(s[1..]);
      assert s == [s[0]] + s[1..];
    }
  }

  lemma {:induction false} KeepAllSlugChars(s: string)
    requires forall i :: 0 <= i < |s| ==> IsSlugChar(s[i])
    ensures KeepSlugChars(s) == s
    decreases |s|
  {
    if |s| > 0 {
      KeepAllSlugChars(s[1..]);
      assert s == [s[0]] + s[1..];
    }
  }

  lemma {:induction false} CollapseAfterWord(a: string, b: string)
    requires forall i :: 0 <= i < |a| ==> !IsSpace(a[i])
    ensures CollapseSpaces(a + b) == a + CollapseSpaces(b)
    decreases |a|
  {
    if |a| > 0 {
      CollapseAfterWord(a[1..], b);
      assert (a + b)[1..] == a[1..] + b;
      assert a == [a[0]] + a[1..];
    } else {
      assert a + b == b;
    }
  }

  lemma {:induction false} KeepAppend(a: string, b: string)
    ensures KeepSlugChars(a + b) == KeepSlugChars(a) + KeepSlugChars(b)
    decreases |a|
  {
    if |a| > 0 {
      KeepAppend(a[1..], b);
      assert (a + b)[1..] == a[1..] + b;
    } else {
      assert a + b == b;
    }
  }

  /** A slug passes through `slugify` unchanged. */
  lemma SlugIsFixedPoint(s: string, fallback: string)
    requires IsSlug(s) && IsHexToken(fallback, 3)
    ensures Slugify(s, fallback) == s
  {
    LowerOfNoUpper(s);
    StripNoSpace(s);
    ReplaceCharAbsent(s, '&', "and");
    ReplaceCharAbsent(s, '/', "-");
    CollapseNoSpace(s);
    KeepAllSlugChars(s);
    assert SlugText(s) == s;
  }

  /**
    `slugify` is idempotent. The second call's random token is never used,
    since the first call's result is already a non-empty slug.
  */
  lemma SlugifyIdempotent(s: string, fallback: string, fallback': string)
    requires IsHexToken(fallback, 3) && IsHexToken(fallback', 3)
    ensures Slugify(Slugify(s, fallback), fallback') == Slugify(s, fallback)
  {
    SlugIsFixedPoint(Slugify(s, fallback), fallback');
  }

  lemma CollapseSpaceThenWord(b: string)
    requires |b| > 0 && !IsSpace(b[0])
    ensures CollapseSpaces(" " + b) == "-" + CollapseSpaces(b)
  {
    assert (" " + b)[1..] == b;
  }

  lemma KeepThenDropped(a: string, b: string)
    requires KeepSlugChars(a) == a && KeepSlugChars(b) == ""
    ensures KeepSlugChars(a + b) == a
  {
    KeepAppend(a, b);
  }

  lemma ExampleLower()
    ensures Strip(Lower("Spicy Kale Bowl!")) == "spicy kale bowl!"
  {
    assert Lower("Spicy Kale Bowl!") == "spicy kale bowl!";
    StripUnchanged("spicy kale bowl!");
  }

  predicate IsWord(w: string) {
    |w| > 0 && forall i :: 0 <= i < |w| ==> !IsSpace(w[i])
  }

  /** A space before a word becomes a hyphen. */
  lemma CollapseSpaceWord(c: string)
    requires IsWord(c)
    ensures CollapseSpaces(" " + c) == "-" + c
  {
    CollapseNoSpace(c);
    CollapseSpaceThenWord(c);
  }

  /** Two space-led words become two hyphen-led words. */
  lemma CollapseTwoWords(b: string, c: string)
    requires IsWord(b) && IsWord(c)
    ensures CollapseSpaces(" " + b + " " + c) == "-" + b + "-" + c
  {
    var sc := " " + c;
    var bc := b + sc;
    CollapseSpaceWord(c);
    CollapseAfterWord(b, sc);
    assert bc[0] == b[0];
    CollapseSpaceThenWord(bc);
    assert " " + b + " " + c == " " + bc;
    assert "-" + b + "-" + c == "-" + (b + ("-" + c));
  }

  /** Words separated by single spaces come out separated by single hyphens. */
  lemma CollapseThreeWords(a: string, b: string, c: string)
    requires IsWord(a) && IsWord(b) && IsWord(c)
    ensures CollapseSpaces(a + " " + b + " " + c) == a + "-" + b + "-" + c
  {
    var rest := " " + b + " " + c;
    CollapseTwoWords(b, c);
    CollapseAfterWord(a, rest);
    assert a + " " + b + " " + c == a + rest;
    assert a + "-" + b + "-" + c == a + ("-" + b + "-" + c);
  }

  lemma ExampleWords()
    ensures IsWord("spicy") && IsWord("kale") && IsWord("bowl!")
  {
  }

  lemma ExampleJoins()
    ensures "spicy" + " " + "kale" + " " + "bowl!" == "spicy kale bowl!"
    ensures "spicy" + "-" + "kale" + "-" + "bowl!" == "spicy-kale-bowl!"
  {
  }

  lemma ExampleCollapse()
    ensures CollapseSpaces("spicy kale bowl!") == "spicy-kale-bowl!"
  {
    ExampleWords();
    ExampleJoins();
    CollapseThreeWords("spicy", "kale", "bowl!");
  }

  lemma ExampleKept()
    ensures KeepSlugChars("spicy-kale-bowl") == "spicy-kale-bowl"
  {
    var a := "spicy-kale-bowl";
    assert forall i :: 0 <= i < |a| ==> IsSlugChar(a[i]);
    KeepAllSlugChars(a);
  }

  lemma ExampleDropped()
    ensures KeepSlugChars("!") == ""
  {
    var b := "!";
    assert !IsSlugChar(b[0]) && b[1..] == "";
  }

  lemma ExampleKeep()
    ensures KeepSlugChars("spicy-kale-bowl!") == "spicy-kale-bowl"
  {
    ExampleKept();
    ExampleDropped();
    ExampleBang();
    KeepThenDropped("spicy-kale-bowl", "!");
  }

  lemma ExampleBang()
    ensures "spicy-kale-bowl" + "!" == "spicy-kale-bowl!"
  {
  }

  lemma ExampleNoAmpersandOrSlash()
    ensures ReplaceChar(ReplaceChar("spicy kale bowl!", '&', "and"), '/', "-") == "spicy kale bowl!"
  {
    var a := "spicy kale bowl!";
    assert forall i :: 0 <= i < |a| ==> a[i] != '&' && a[i] != '/';
    ReplaceCharAbsent(a, '&', "and");
    ReplaceCharAbsent(a, '/', "-");
  }

  /** The worked example: punctuation dropped, spaces become hyphens, letters lower-cased. */
  lemma SlugifyExample(fallback: string)
    requires IsHexToken(fallback, 3)
    ensures Slugify("Spicy Kale Bowl!", fallback) == "spicy-kale-bowl"
  {
    ExampleLower();
    ExampleNoAmpersandOrSlash();
    ExampleCollapse();
    ExampleKeep();
    assert SlugText("Spicy Kale Bowl!") == "spicy-kale-bowl";
  }
}
