/** `normalizeCandidateBase` (lib/getItems.tsx): a display name or file base turned into an
    image-matching slug. The text is lower-cased and trimmed, four trailing tier tokens
    are cut in a fixed order (a dashed roman numeral, a bare or parenthesised roman
    numeral, an "mk" mark, a roman numeral word), every run of characters outside
    `[a-z0-9]` becomes one underscore, and underscores at either end are dropped. Each
    regular expression of the program is written out as the string function it computes
    on a text anchored at its end. */
module Slug {
  import opened Basics
  import opened JsStrings
  import opened JsValues
  import opened Localize

  /** `[ivx]` under the `i` flag. */
  predicate IsRoman(c: char)
  {
    c == 'i' || c == 'v' || c == 'x' || c == 'I' || c == 'V' || c == 'X'
  }

  /** `[-–—]`: hyphen, en dash, em dash. */
  predicate IsDash(c: char)
  {
    c == '-' || c == '–' || c == '—'
  }

  /** The length of the longest suffix of `s[..i]` whose characters all satisfy `p`. */
  function RunTo(s: string, p: char -> bool, i: nat): (n: nat)
    requires i <= |s|
    ensures n <= i
    ensures n < i ==> !p(s[i - n - 1])
    decreases i
  {
    if i == 0 || !p(s[i - 1]) then 0 else RunTo(s, p, i - 1) + 1
  }

  /** The length of the longest suffix of `s` whose characters all satisfy `p`. */
  function Run(s: string, p: char -> bool): (n: nat)
    ensures n <= |s|
    ensures n < |s| ==> !p(s[|s| - n - 1])
  {
    RunTo(s, p, |s|)
  }

  lemma {:induction false} RunToAll(s: string, p: char -> bool, i: nat)
    requires i <= |s|
    ensures forall k :: i - RunTo(s, p, i) <= k < i ==> p(s[k])
    decreases i
  {
    if i > 0 && p(s[i - 1]) {
      RunToAll(s, p, i - 1);
    }
  }

  /** Every character of the run satisfies `p`. */
  lemma RunAll(s: string, p: char -> bool)
    ensures forall k :: |s| - Run(s, p) <= k < |s| ==> p(s[k])
  {
    RunToAll(s, p, |s|);
  }

  /** `s.replace(/\s*[-–—]\s*[ivx]{1,5}$/i, "")`: a roman numeral of one to five letters
      after a dash at the end, with the white space around the dash. */
  function StripDashedNumeral(s: string): (r: string)
    ensures r <= s
  {
    var n := Run(s, IsRoman);
    if n < 1 || n > 5 then s
    else
      var a := TrimEnd(s[..|s| - n]);
      if a != [] && IsDash(a[|a| - 1]) then TrimEnd(a[..|a| - 1]) else s
  }

  /** `s.replace(/\s*\(?[ivx]{1,5}\)?$/i, "")`: up to five roman letters at the end, with
      an optional closing parenthesis after them and, when all the letters of the final
      run are taken, an optional opening parenthesis and white space before them. No word
      boundary is required, so any word ending in those letters loses them. */
  function StripRomanTail(s: string): (r: string)
    ensures r <= s
  {
    var body := if s != [] && s[|s| - 1] == ')' then s[..|s| - 1] else s;
    var n := Run(body, IsRoman);
    if n == 0 then s
    else if n > 5 then body[..|body| - 5]
    else
      var a := body[..|body| - n];
      TrimEnd(if a != [] && a[|a| - 1] == '(' then a[..|a| - 1] else a)
  }

  predicate EndsWithMk(s: string)
  {
    |s| >= 2 && (s[|s| - 2] == 'm' || s[|s| - 2] == 'M') && (s[|s| - 1] == 'k' || s[|s| - 1] == 'K')
  }

  /** `s.replace(/\s*(?:mk\.?\s*\d+|mk\.?\s*[ivx]+|mk\s*\d+|mk\s*[ivx]+)$/i, "")`: an "mk"
      mark, an optional dot and white space, then a final run of digits or of roman
      letters. */
  function StripMark(s: string): (r: string)
    ensures r <= s
  {
    if s == [] then s
    else
      var n := if IsDigit(s[|s| - 1]) then Run(s, IsDigit) else Run(s, IsRoman);
      if n == 0 then s
      else
        var a := TrimEnd(s[..|s| - n]);
        var b := if a != [] && a[|a| - 1] == '.' then a[..|a| - 1] else a;
        if EndsWithMk(b) then TrimEnd(b[..|b| - 2]) else s
  }

  /** `s.replace(/\s*(?:\bI\b|\bII\b|\bIII\b|\bIV\b|\bV\b)$/i, "")`: a final word that is
      one of the numerals I to V, with the white space before it. */
  function StripNumeralWord(s: string): (r: string)
    ensures r <= s
  {
    var n := Run(s, IsWordChar);
    var w := ToLower(s[|s| - n..]);
    if w == "i" || w == "ii" || w == "iii" || w == "iv" || w == "v" then TrimEnd(s[..|s| - n]) else s
  }

  /** `s.replace(/[^a-z0-9]+/g, "_")`: each maximal run of other characters becomes a single
      underscore. */
  function Underscored(s: string): (r: string)
    ensures forall k :: 0 <= k < |r| ==> IsLowerAlnum(r[k]) || r[k] == '_'
    ensures forall k :: 0 <= k < |r| - 1 ==> !(r[k] == '_' && r[k + 1] == '_')
    ensures s != [] ==> r != [] && (r[|r| - 1] == '_' <==> !IsLowerAlnum(s[|s| - 1]))
    ensures s != [] ==> (r[0] == '_' <==> !IsLowerAlnum(s[0]))
    decreases |s|
  {
    if s == [] then []
    else
      var init := s[..|s| - 1];
      var r := Underscored(init);
      assert init != [] ==> init[0] == s[0];
      if IsLowerAlnum(s[|s| - 1]) then r + [s[|s| - 1]]
      else if r != [] && r[|r| - 1] == '_' then r
      else r + ['_']
  }

  /** The length of the longest prefix of `s` whose characters all satisfy `p`. */
  function LeadingRun(s: string, p: char -> bool): (n: nat)
    ensures n <= |s|
    ensures forall k :: 0 <= k < n ==> p(s[k])
    ensures n < |s| ==> !p(s[n])
    decreases |s|
  {
    if s == [] || !p(s[0]) then 0 else LeadingRun(s[1..], p) + 1
  }

  predicate IsUnderscore(c: char)
  {
    c == '_'
  }

  /** `s.replace(/^_+|_+$/g, "")`: the text between the leading and the trailing run of
      underscores. */
  function TrimUnderscores(s: string): (r: string)
    ensures r == [] || (r[0] != '_' && r[|r| - 1] != '_')
  {
    var lead := LeadingRun(s, IsUnderscore);
    RunAll(s, IsUnderscore);
    if lead == |s| then [] else s[lead..|s| - Run(s, IsUnderscore)]
  }

  /** The text the slug starts from: falsy gives nothing; an object or array gives
      `en ?? en-US ?? its first string value ?? ""`; anything else is `String(s)`. */
  function BaseText(v: Value): string
  {
    if !Truthy(v) then ""
    else if IsObjectLike(v) then ToStrOpt(Coalesce(PickLocalized(v), Some(JStr(""))))
    else ToStr(v.value)
  }

  /** The four tier rewrites, in program order, on the lower-cased, trimmed text. */
  function StripTiers(s: string): string
  {
    StripNumeralWord(StripMark(StripRomanTail(StripDashedNumeral(s))))
  }

  /** The slug of a text. */
  function SlugOf(s: string): string
  {
    TrimUnderscores(Underscored(StripTiers(Trim(ToLower(s)))))
  }

  /** `normalizeCandidateBase(s)`. */
  function NormalizeCandidateBase(v: Value): string
  {
    if !Truthy(v) then "" else SlugOf(BaseText(v))
  }

  /** A slug: lower-case letters, digits and single underscores between them. */
  predicate IsSlug(s: string)
  {
    (forall k :: 0 <= k < |s| ==> IsLowerAlnum(s[k]) || s[k] == '_') &&
    (s == [] || (s[0] != '_' && s[|s| - 1] != '_')) &&
    (forall k :: 0 <= k < |s| - 1 ==> !(s[k] == '_' && s[k + 1] == '_'))
  }

  /** The last two rewrites make a slug of any text. */
  lemma SlugOfAnyText(s: string)
    ensures IsSlug(TrimUnderscores(Underscored(s)))
  {
    var u := Underscored(s);
    var lead := LeadingRun(u, IsUnderscore);
    if lead < |u| {
      RunAll(u, IsUnderscore);
      var r := u[lead..|u| - Run(u, IsUnderscore)];
      assert forall k :: 0 <= k < |r| ==> r[k] == u[lead + k];
    }
  }

  /** Whatever the input, the result is a slug, and a falsy input gives the empty slug. */
  lemma NormalizeIsSlug(v: Value)
    ensures IsSlug(NormalizeCandidateBase(v))
    ensures !Truthy(v) ==> NormalizeCandidateBase(v) == ""
  {
    if Truthy(v) {
      SlugOfAnyText(StripTiers(Trim(ToLower(BaseText(v)))));

    }
  }

  /** The slug step leaves a slug unchanged. */
  lemma {:induction false} UnderscoredOfSlugChars(s: string)
    requires forall k :: 0 <= k < |s| ==> IsLowerAlnum(s[k]) || s[k] == '_'
    requires forall k :: 0 <= k < |s| - 1 ==> !(s[k] == '_' && s[k + 1] == '_')
    ensures Underscored(s) == s
    decreases |s|
  {
    if s != [] {
      UnderscoredOfSlugChars(s[..|s| - 1]);
    }
  }

  lemma TrimUnderscoresOfSlug(s: string)
    requires s == [] || (s[0] != '_' && s[|s| - 1] != '_')
    ensures TrimUnderscores(s) == s
  {
    if s != [] {
      assert LeadingRun(s, IsUnderscore) == 0;
      assert Run(s, IsUnderscore) == 0;
    }
  }

  /** Slugging is idempotent: the final two rewrites leave their own output alone. */
  lemma SlugStepIdempotent(s: string)
    ensures var r := TrimUnderscores(Underscored(s)); TrimUnderscores(Underscored(r)) == r
  {
    var r := TrimUnderscores(Underscored(s));
    SlugOfAnyText(s);
    UnderscoredOfSlugChars(r);
    TrimUnderscoresOfSlug(r);
  }

  /** The tier rewrites only ever cut text off the end. */
  lemma StripTiersKeepsPrefix(s: string)
    ensures StripTiers(s) <= s
  {
    var a := StripDashedNumeral(s);
    var b := StripRomanTail(a);
    var c := StripMark(b);
    assert StripNumeralWord(c) <= c <= b <= a <= s;
  }

  /** Letters and digits pass through the underscore step unchanged. */
  lemma {:induction false} UnderscoredAppendAlnum(x: string, b: string)
    requires forall k :: 0 <= k < |b| ==> IsLowerAlnum(b[k])
    ensures Underscored(x + b) == Underscored(x) + b
    decreases |b|
  {
    if b == [] {
      assert x + b == x;
    } else {
      var n := |b| - 1;
      assert (x + b)[..|x + b| - 1] == x + b[..n];
      assert (x + b)[|x + b| - 1] == b[n];
      UnderscoredAppendAlnum(x, b[..n]);
      assert Underscored(x) + b[..n] + [b[n]] == Underscored(x) + b;
    }
  }

  /** A single lower-case word is its own slug. */
  lemma PlainWordSlug(w: string)
    requires w != [] && forall k :: 0 <= k < |w| ==> IsLowerAlnum(w[k])
    ensures TrimUnderscores(Underscored(w)) == w
  {
    UnderscoredOfSlugChars(w);
    TrimUnderscoresOfSlug(w);
  }

  lemma {:induction false} RunToOfAppend(a: string, b: string, p: char -> bool, i: nat)
    requires forall k :: 0 <= k < |b| ==> p(b[k])
    requires a == [] || !p(a[|a| - 1])
    requires |a| <= i <= |a| + |b|
    ensures RunTo(a + b, p, i) == i - |a|
    decreases i
  {
    if i > |a| {
      assert (a + b)[i - 1] == b[i - 1 - |a|];
      RunToOfAppend(a, b, p, i - 1);
    } else if a != [] {
      assert (a + b)[i - 1] == a[|a| - 1];
    }
  }

  /** The run at the end of `a + b` is exactly `b` when `b` is all run and `a` does not
      end in one. */
  lemma RunOfAppend(a: string, b: string, p: char -> bool)
    requires forall k :: 0 <= k < |b| ==> p(b[k])
    requires a == [] || !p(a[|a| - 1])
    ensures Run(a + b, p) == |b|
  {
    RunToOfAppend(a, b, p, |a + b|);
  }

  /** Trailing blanks after a text that does not end in one are trimmed off. */
  lemma {:induction false} TrimEndOfPadded(a: string, b: string)
    requires forall k :: 0 <= k < |b| ==> IsSpace(b[k])
    requires a == [] || !IsSpace(a[|a| - 1])
    ensures TrimEnd(a + b) == a
    decreases |b|
  {
    if b == [] {
      assert a + b == a;
    } else {
      assert (a + b)[..|a + b| - 1] == a + b[..|b| - 1];
      TrimEndOfPadded(a, b[..|b| - 1]);
    }
  }

  /** A final run of roman letters not preceded by a dash survives the dashed-numeral
      rewrite. */
  lemma UndashedNumeralKept(p: string, r: string)
    requires |r| >= 1 && forall k :: 0 <= k < |r| ==> IsRoman(r[k])
    requires p == [] || !IsRoman(p[|p| - 1])
    requires TrimEnd(p) == [] || !IsDash(TrimEnd(p)[|TrimEnd(p)| - 1])
    ensures StripDashedNumeral(p + r) == p + r
  {
    var s := p + r;
    assert Run(s, IsRoman) == |r| by { RunOfAppend(p, r, IsRoman); }
    assert s[..|s| - |r|] == p;
  }

  /** The roman-tail rewrite on a text that ends in one to five roman letters after a
      text `a` that does not end in an opening parenthesis. */
  lemma StripRomanTailShort(s: string, n: nat, a: string)
    requires s != [] && s[|s| - 1] != ')' && Run(s, IsRoman) == n && 1 <= n <= 5
    requires s[..|s| - n] == a && (a == [] || a[|a| - 1] != '(')
    ensures StripRomanTail(s) == TrimEnd(a)
  {
  }

  /** The roman-tail rewrite cuts a final run of one to five roman letters, and the white
      space before it. */
  lemma RomanTailCut(p: string, r: string)
    requires 1 <= |r| <= 5 && forall k :: 0 <= k < |r| ==> IsRoman(r[k])
    requires p == [] || (!IsRoman(p[|p| - 1]) && p[|p| - 1] != '(')
    ensures StripRomanTail(p + r) == TrimEnd(p)
  {
    var s := p + r;
    assert s[|s| - 1] != ')' by { assert s[|s| - 1] == r[|r| - 1]; }
    assert Run(s, IsRoman) == |r| by { RunOfAppend(p, r, IsRoman); }
    assert s[..|s| - |r|] == p;
    StripRomanTailShort(s, |r|, p);
  }

  /** The roman-tail rewrite needs no word boundary: a word that ends in one to five
      roman letters loses them ("Helix" becomes "hel"). */
  lemma RomanLettersDropped(w: string, r: string)
    requires 1 <= |r| <= 5 && forall k :: 0 <= k < |r| ==> IsRoman(r[k])
    requires w != [] && !IsRoman(w[|w| - 1]) && !IsSpace(w[|w| - 1]) && !IsDash(w[|w| - 1]) && w[|w| - 1] != '('
    ensures StripRomanTail(StripDashedNumeral(w + r)) == w
  {
    assert w + [] == w;
    TrimEndOfPadded(w, []);
    UndashedNumeralKept(w, r);
    RomanTailCut(w, r);
  }

  /** A text ending in "mk" has no mark numeral and no numeral word to cut. */
  lemma BareMarkKept(a: string)
    ensures StripNumeralWord(StripMark(a + " mk")) == a + " mk"
  {
    var m := a + " mk";
    assert m[|m| - 1] == 'k';
    assert StripMark(m) == m;
    assert m == (a + " ") + "mk";
    RunOfAppend(a + " ", "mk", IsWordChar);
    assert m[|m| - 2..] == "mk";
    assert ToLower("mk") == "mk";
  }

  /** A mark followed by a roman numeral loses the numeral to the roman-tail rewrite
      before the mark rewrite runs, so the mark itself stays ("Arc Mk III" becomes
      "arc mk"). */
  lemma RomanMarkKept(a: string, r: string)
    requires 1 <= |r| <= 5 && forall k :: 0 <= k < |r| ==> IsRoman(r[k])
    ensures StripTiers(a + " mk " + r) == a + " mk"
  {
    var m := a + " mk";
    assert a + " mk " + r == (m + " ") + r;
    assert (m + " ")[|m + " "| - 1] == ' ';
    TrimEndOfPadded(m, " ");
    UndashedNumeralKept(m + " ", r);
    RomanTailCut(m + " ", r);
    BareMarkKept(a);
  }

  /** The mark rewrite on a text that ends in a run of digits after an "mk" mark. */
  lemma StripMarkDigits(s: string, n: nat, b: string)
    requires s != [] && IsDigit(s[|s| - 1]) && Run(s, IsDigit) == n && n >= 1
    requires TrimEnd(s[..|s| - n]) == b && EndsWithMk(b) && b[|b| - 1] != '.'
    ensures StripMark(s) == TrimEnd(b[..|b| - 2])
  {
  }

  /** The mark rewrite cuts digits after a text `m` that ends in "mk", with the white
      space between them. */
  lemma DigitsAfterMarkCut(m: string, d: string)
    requires d != [] && forall k :: 0 <= k < |d| ==> IsDigit(d[k])
    requires EndsWithMk(m) && m[|m| - 1] != '.'
    ensures StripMark(m + " " + d) == TrimEnd(m[..|m| - 2])
  {
    var s := (m + " ") + d;
    assert IsDigit(s[|s| - 1]) by { assert s[|s| - 1] == d[|d| - 1]; }
    assert Run(s, IsDigit) == |d| by { RunOfAppend(m + " ", d, IsDigit); }
    assert TrimEnd(s[..|s| - |d|]) == m by {
      assert s[..|s| - |d|] == m + " ";
      TrimEndOfPadded(m, " ");
    }
    StripMarkDigits(s, |d|, m);
  }

  /** The mark rewrite cuts "mk", the white space around it and the digits after it. */
  lemma DigitMarkCut(a: string, d: string)
    requires d != [] && forall k :: 0 <= k < |d| ==> IsDigit(d[k])
    requires a == [] || !IsSpace(a[|a| - 1])
    ensures StripMark(a + " mk " + d) == a
  {
    var m := a + " mk";
    assert a + " mk " + d == m + " " + d;
    assert TrimEnd(m[..|m| - 2]) == a by {
      assert m[..|m| - 2] == a + " ";
      TrimEndOfPadded(a, " ");
    }
    DigitsAfterMarkCut(m, d);
  }

  /** A mark followed by digits is cut with the white space before it ("Vita Mk 2"
      becomes "vita"). */
  lemma ArabicMarkCut(a: string, d: string)
    requires d != [] && forall k :: 0 <= k < |d| ==> IsDigit(d[k])
    requires a == [] || !IsSpace(a[|a| - 1])
    ensures StripMark(StripRomanTail(StripDashedNumeral(a + " mk " + d))) == a
  {
    var s := a + " mk " + d;
    assert s[|s| - 1] == d[|d| - 1];
    assert Run(s, IsRoman) == 0;
    DigitMarkCut(a, d);
  }
}
