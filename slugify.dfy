/** `slugify` and `genSlug` (src/utils/slugify.ts). Each `replace` of the chain is one pass
    over the string; the NFKD normalisation that starts the chain is not modelled, so the input
    stands for the already normalised string. */
module Slugify {
  import opened Wrappers
  import opened Js
  import opened Records
  import opened Store
  import opened Strings

  /** `toLowerCase`, on ASCII letters. */
  function LowerAll(s: string): (r: string)
    ensures |r| == |s|
  {
    if s == [] then [] else [Lower(s[0])] + LowerAll(s[1..])
  }

  function TrimStart(s: string): (r: string)
    ensures |r| <= |s| && r == s[|s| - |r|..]
    ensures |r| > 0 ==> !IsSpace(r[0])
    ensures forall j | 0 <= j < |s| - |r| :: IsSpace(s[j])
  {
    if |s| > 0 && IsSpace(s[0]) then TrimStart(s[1..]) else s
  }

  function TrimEnd(s: string): (r: string)
    ensures |r| <= |s| && r == s[..|r|]
    ensures |r| > 0 ==> !IsSpace(r[|r| - 1])
    ensures forall j | |r| <= j < |s| :: IsSpace(s[j])
  {
    if |s| > 0 && IsSpace(s[|s| - 1]) then TrimEnd(s[..|s| - 1]) else s
  }

  /** `trim`: white space is removed from both ends. */
  function Trim(s: string): (r: string)
    ensures |r| <= |s|
  {
    TrimEnd(TrimStart(s))
  }

  /** `replace(/\s+/g, '-')`: each maximal run of white space becomes one `-`; `inRun` says
      whether the character before `s` was white space. */
  function SpacesToDash(s: string, inRun: bool): (r: string)
    ensures |r| <= |s|
  {
    if s == [] then []
    else if IsSpace(s[0]) then (if inRun then [] else "-") + SpacesToDash(s[1..], true)
    else [s[0]] + SpacesToDash(s[1..], false)
  }

  /** `replace(/[^\w\-]+/g, '')`: everything but word characters and `-` is removed. */
  function KeepWordChars(s: string): (r: string)
    ensures |r| <= |s|
  {
    if s == [] then []
    else (if IsWord(s[0]) || s[0] == '-' then [s[0]] else []) + KeepWordChars(s[1..])
  }

  /** `replace(/\_/g, '-')`. */
  function UnderscoreToDash(s: string): (r: string)
    ensures |r| == |s|
  {
    if s == [] then [] else [if s[0] == '_' then '-' else s[0]] + UnderscoreToDash(s[1..])
  }

  /** No two adjacent dashes. */
  predicate NoDoubleDash(s: string) {
    forall i | 0 <= i < |s| - 1 :: !(s[i] == '-' && s[i + 1] == '-')
  }

  /** `replace(/\-\-+/g, '-')`: each run of dashes becomes one dash; `afterDash` says
      whether the character before `s` was a dash that was kept. */
  function CollapseDashes(s: string, afterDash: bool): (r: string)
    ensures |r| <= |s|
  {
    if s == [] then []
    else if s[0] == '-' then (if afterDash then [] else "-") + CollapseDashes(s[1..], true)
    else [s[0]] + CollapseDashes(s[1..], false)
  }

  /** `replace(/\-$/g, '')`: one trailing dash is removed. */
  function DropTrailingDash(s: string): (r: string)
    ensures |r| <= |s|
  {
    if |s| > 0 && s[|s| - 1] == '-' then s[..|s| - 1] else s
  }

  function Slugify(str: string): string {
    var lowered := LowerAll(str);
    var trimmed := Trim(lowered);
    var dashed := SpacesToDash(trimmed, false);
    var kept := KeepWordChars(dashed);
    var unscored := UnderscoreToDash(kept);
    DropTrailingDash(CollapseDashes(unscored, false))
  }

  predicate IsSlugChar(c: char) {
    IsLower(c) || IsDigit(c) || c == '-'
  }

  /** A slug: lower-case ASCII letters, digits and single dashes, not ending with a dash. */
  predicate IsSlug(s: string) {
    (forall i | 0 <= i < |s| :: IsSlugChar(s[i])) && NoDoubleDash(s) && (|s| > 0 ==> s[|s| - 1] != '-')
  }

  /** The characters of `s` that satisfy `P`. */
  predicate All(s: string, P: char -> bool) {
    forall i | 0 <= i < |s| :: P(s[i])
  }

  // What each pass guarantees about the characters it returns.

  lemma {:induction false} LowerAllChars(s: string)
    ensures All(LowerAll(s), c => !IsUpper(c))
  {
    if s != [] {
      LowerAllChars(s[1..]);
    }
  }

  lemma {:induction false} TrimStartChars(s: string, P: char -> bool)
    requires All(s, P)
    ensures All(TrimStart(s), P)
  {
    if |s| > 0 && IsSpace(s[0]) {
      TrimStartChars(s[1..], P);
    }
  }

  lemma {:induction false} TrimEndChars(s: string, P: char -> bool)
    requires All(s, P)
    ensures All(TrimEnd(s), P)
  {
    if |s| > 0 && IsSpace(s[|s| - 1]) {
      TrimEndChars(s[..|s| - 1], P);
    }
  }

  lemma {:induction false} SpacesToDashChars(s: string, inRun: bool, P: char -> bool)
    requires All(s, P) && P('-')
    ensures All(SpacesToDash(s, inRun), P)
  {
    if s != [] {
      SpacesToDashChars(s[1..], IsSpace(s[0]), P);
    }
  }

  lemma {:induction false} KeepWordCharsChars(s: string, P: char -> bool)
    requires All(s, P)
    ensures All(KeepWordChars(s), c => P(c) && (IsWord(c) || c == '-'))
  {
    if s != [] {
      KeepWordCharsChars(s[1..], P);
    }
  }

  lemma {:induction false} UnderscoreToDashChars(s: string, P: char -> bool)
    requires All(s, P) && P('-')
    ensures All(UnderscoreToDash(s), c => P(c) && c != '_')
  {
    if s != [] {
      UnderscoreToDashChars(s[1..], P);
    }
  }

  lemma {:induction false} CollapseDashesShape(s: string, afterDash: bool, P: char -> bool)
    requires All(s, P)
    ensures var r := CollapseDashes(s, afterDash);
      All(r, P) && NoDoubleDash(r) && (afterDash && |r| > 0 ==> r[0] != '-')
  {
    if s != [] {
      CollapseDashesShape(s[1..], s[0] == '-', P);
    }
  }

  lemma DropTrailingDashShape(s: string, P: char -> bool)
    requires All(s, P) && NoDoubleDash(s)
    ensures var r := DropTrailingDash(s);
      All(r, P) && NoDoubleDash(r) && (|r| > 0 ==> r[|r| - 1] != '-')
  {
  }

  /** Every output of `slugify` is a slug: no white space, no `_`, no upper case, no `--` and no
      trailing dash. */
  lemma SlugifyIsSlug(str: string)
    ensures IsSlug(Slugify(str))
  {
    var noUpper := c => !IsUpper(c);
    var lowered := LowerAll(str);
    LowerAllChars(str);
    TrimStartChars(lowered, noUpper);
    TrimEndChars(TrimStart(lowered), noUpper);
    var dashed := SpacesToDash(Trim(lowered), false);
    SpacesToDashChars(Trim(lowered), false, noUpper);
    var kept := KeepWordChars(dashed);
    KeepWordCharsChars(dashed, noUpper);
    var wordOrDash := c => !IsUpper(c) && (IsWord(c) || c == '-');
    var unscored := UnderscoreToDash(kept);
    UnderscoreToDashChars(kept, wordOrDash);
    var slugChar := c => IsSlugChar(c);
    assert All(unscored, slugChar);
    CollapseDashesShape(unscored, false, slugChar);
    DropTrailingDashShape(CollapseDashes(unscored, false), slugChar);
  }

  // The passes leave a slug alone.

  lemma {:induction false} LowerAllKeeps(s: string)
    requires forall i | 0 <= i < |s| :: !IsUpper(s[i])
    ensures LowerAll(s) == s
  {
    if s != [] {
      LowerAllKeeps(s[1..]);
    }
  }

  lemma {:induction false} SpacesToDashKeeps(s: string, inRun: bool)
    requires forall i | 0 <= i < |s| :: !IsSpace(s[i])
    ensures SpacesToDash(s, inRun) == s
  {
    if s != [] {
      SpacesToDashKeeps(s[1..], false);
    }
  }

  lemma {:induction false} KeepWordCharsKeeps(s: string)
    requires forall i | 0 <= i < |s| :: IsWord(s[i]) || s[i] == '-'
    ensures KeepWordChars(s) == s
  {
    if s != [] {
      KeepWordCharsKeeps(s[1..]);
    }
  }

  lemma {:induction false} UnderscoreToDashKeeps(s: string)
    requires forall i | 0 <= i < |s| :: s[i] != '_'
    ensures UnderscoreToDash(s) == s
  {
    if s != [] {
      UnderscoreToDashKeeps(s[1..]);
    }
  }

  lemma {:induction false} CollapseDashesKeeps(s: string, afterDash: bool)
    requires NoDoubleDash(s)
    requires afterDash && |s| > 0 ==> s[0] != '-'
    ensures CollapseDashes(s, afterDash) == s
  {
    if s != [] {
      CollapseDashesKeeps(s[1..], s[0] == '-');
    }
  }

  /** A slug is its own slug, as the library's tests show for `potato` and `potato-potato`. */
  lemma SlugUnchanged(s: string)
    requires IsSlug(s)
    ensures Slugify(s) == s
  {
    assert Trim(LowerAll(s)) == s by {
      assert forall i | 0 <= i < |s| :: !IsUpper(s[i]) && !IsSpace(s[i]);
      LowerTrimKeeps(s);
    }
    SpacesToDashKeeps(s, false);
    KeepWordCharsKeeps(s);
    SlugAfterKeep(s, s);
  }

  /** `slugify` is idempotent. */
  lemma SlugifyIdempotent(str: string)
    ensures Slugify(Slugify(str)) == Slugify(str)
  {
    SlugifyIsSlug(str);
    SlugUnchanged(Slugify(str));
  }

  // Concatenation through the passes.

  lemma {:induction false} LowerAllAppend(x: string, y: string)
    ensures LowerAll(x + y) == LowerAll(x) + LowerAll(y)
  {
    if x == [] {
      assert x + y == y;
    } else {
      assert (x + y)[0] == x[0] && (x + y)[1..] == x[1..] + y;
      LowerAllAppend(x[1..], y);
    }
  }

  lemma {:induction false} TrimStartSpaces(sp: string, y: string)
    requires forall i | 0 <= i < |sp| :: IsSpace(sp[i])
    ensures TrimStart(sp + y) == TrimStart(y)
  {
    if sp == [] {
      assert sp + y == y;
    } else {
      assert (sp + y)[0] == sp[0] && (sp + y)[1..] == sp[1..] + y;
      TrimStartSpaces(sp[1..], y);
    }
  }

  /** Leading white space is ignored, as in `  potato   potato`. */
  lemma LeadingSpaces(sp: string, str: string)
    requires forall i | 0 <= i < |sp| :: IsSpace(sp[i])
    ensures Slugify(sp + str) == Slugify(str)
  {
    LowerAllAppend(sp, str);
    LowerAllKeeps(sp);
    TrimStartSpaces(sp, LowerAll(str));
  }

  /** What stays of `s` after dropping everything but word characters and `-`, when `s` has no
      upper-case letters: punctuation. */
  predicate IsPunctuation(c: char) {
    !IsWord(c) && c != '-' && !IsSpace(c)
  }

  lemma {:induction false} SpacesToDashAppend(x: string, y: string, inRun: bool)
    ensures SpacesToDash(x + y, inRun) ==
      SpacesToDash(x, inRun) + SpacesToDash(y, if x == [] then inRun else IsSpace(x[|x| - 1]))
  {
    if x == [] {
      assert x + y == y;
    } else {
      assert (x + y)[0] == x[0] && (x + y)[1..] == x[1..] + y;
      SpacesToDashAppend(x[1..], y, IsSpace(x[0]));
    }
  }

  lemma {:induction false} SpaceRunToDash(sp: string)
    requires |sp| > 0 && forall i | 0 <= i < |sp| :: IsSpace(sp[i])
    ensures SpacesToDash(sp, false) == "-"
  {
    SpaceRunVanishes(sp[1..]);
  }

  lemma {:induction false} SpaceRunVanishes(sp: string)
    requires forall i | 0 <= i < |sp| :: IsSpace(sp[i])
    ensures SpacesToDash(sp, true) == ""
  {
    if sp != [] {
      SpaceRunVanishes(sp[1..]);
    }
  }

  lemma {:induction false} KeepWordCharsAppend(x: string, y: string)
    ensures KeepWordChars(x + y) == KeepWordChars(x) + KeepWordChars(y)
  {
    if x == [] {
      assert x + y == y;
    } else {
      var h := if IsWord(x[0]) || x[0] == '-' then [x[0]] else [];
      calc {
        KeepWordChars(x + y);
        { assert (x + y)[0] == x[0] && (x + y)[1..] == x[1..] + y; }
        h + KeepWordChars(x[1..] + y);
        { KeepWordCharsAppend(x[1..], y); }
        h + (KeepWordChars(x[1..]) + KeepWordChars(y));
        (h + KeepWordChars(x[1..])) + KeepWordChars(y);
      }
    }
  }

  lemma {:induction false} PunctuationVanishes(p: string)
    requires forall i | 0 <= i < |p| :: IsPunctuation(p[i])
    ensures KeepWordChars(p) == ""
  {
    if p != [] {
      PunctuationVanishes(p[1..]);
    }
  }

  /** Once the passes up to the removal of non-word characters have given a slug, the rest
      leave it alone. */
  lemma SlugAfterKeep(str: string, kept: string)
    requires KeepWordChars(SpacesToDash(Trim(LowerAll(str)), false)) == kept
    requires IsSlug(kept)
    ensures Slugify(str) == kept
  {
    UnderscoreToDashKeeps(kept);
    CollapseDashesKeeps(kept, false);
  }

  /** A string with no upper-case letter that neither starts nor ends with white space is
      unaffected by lowering and trimming. */
  lemma LowerTrimKeeps(s: string)
    requires forall i | 0 <= i < |s| :: !IsUpper(s[i])
    requires |s| > 0 ==> !IsSpace(s[0]) && !IsSpace(s[|s| - 1])
    ensures Trim(LowerAll(s)) == s
  {
    LowerAllKeeps(s);
    assert TrimStart(s) == s;
    assert TrimEnd(s) == s;
  }

  lemma JoinedDashed(a: string, p: string, sp: string, b: string)
    requires |a| > 0 && forall i | 0 <= i < |a| :: !IsSpace(a[i])
    requires forall i | 0 <= i < |p| :: !IsSpace(p[i])
    requires |sp| > 0 && forall i | 0 <= i < |sp| :: IsSpace(sp[i])
    requires forall i | 0 <= i < |b| :: !IsSpace(b[i])
    ensures SpacesToDash(a + p + sp + b, false) == a + p + "-" + b
  {
    var ap := a + p;
    assert ap[|ap| - 1] == (if p == [] then a[|a| - 1] else p[|p| - 1]);
    assert forall i | 0 <= i < |ap| :: !IsSpace(ap[i]) by {
      forall i | 0 <= i < |ap| ensures !IsSpace(ap[i]) {
        if i < |a| { assert ap[i] == a[i]; } else { assert ap[i] == p[i - |a|]; }
      }
    }
    SpacesToDashAppend(ap + sp, b, false);
    SpacesToDashAppend(ap, sp, false);
    SpacesToDashKeeps(ap, false);
    SpaceRunToDash(sp);
    SpacesToDashKeeps(b, true);
  }

  lemma JoinedKept(a: string, p: string, b: string)
    requires forall i | 0 <= i < |a| :: IsWord(a[i]) || a[i] == '-'
    requires forall i | 0 <= i < |p| :: IsPunctuation(p[i])
    requires forall i | 0 <= i < |b| :: IsWord(b[i]) || b[i] == '-'
    ensures KeepWordChars(a + p + "-" + b) == a + "-" + b
  {
    KeepWordCharsAppend(a + p + "-", b);
    KeepWordCharsAppend(a + p, "-");
    KeepWordCharsAppend(a, p);
    KeepWordCharsKeeps(a);
    KeepWordCharsKeeps(b);
    KeepWordCharsKeeps("-");
    PunctuationVanishes(p);
    assert KeepWordChars(a + p) == a;
    assert KeepWordChars(a + p + "-") == a + "-";
  }

  lemma JoinedIsSlug(a: string, b: string)
    requires IsSlug(a) && IsSlug(b) && |a| > 0 && |b| > 0 && b[0] != '-'
    ensures IsSlug(a + "-" + b)
  {
    var joined := a + "-" + b;
    forall i | 0 <= i < |joined| ensures IsSlugChar(joined[i]) {
      if i < |a| { assert joined[i] == a[i]; }
      else if i > |a| { assert joined[i] == b[i - |a| - 1]; }
    }
    forall i | 0 <= i < |joined| - 1 ensures !(joined[i] == '-' && joined[i + 1] == '-') {
      if i + 1 < |a| { assert joined[i] == a[i] && joined[i + 1] == a[i + 1]; }
      else if i > |a| { assert joined[i] == b[i - |a| - 1] && joined[i + 1] == b[i - |a|]; }
    }
    assert joined[|joined| - 1] == b[|b| - 1];
  }

  /** Two slugs separated by punctuation and then white space are joined by one dash, as in
      `multiple, words`. */
  lemma JoinedSlugs(a: string, p: string, sp: string, b: string)
    requires IsSlug(a) && IsSlug(b) && |a| > 0 && |b| > 0 && b[0] != '-'
    requires forall i | 0 <= i < |p| :: IsPunctuation(p[i]) && !IsUpper(p[i])
    requires |sp| > 0 && forall i | 0 <= i < |sp| :: IsSpace(sp[i])
    ensures Slugify(a + p + sp + b) == a + "-" + b
  {
    var s := a + p + sp + b;
    JoinedLowerTrim(a, p, sp, b);
    JoinedDashed(a, p, sp, b);
    JoinedKept(a, p, b);
    JoinedIsSlug(a, b);
    SlugAfterKeep(s, a + "-" + b);
  }

  /** The joined string has no capital and no white space at either end. */
  lemma JoinedLowerTrim(a: string, p: string, sp: string, b: string)
    requires IsSlug(a) && IsSlug(b) && |a| > 0 && |b| > 0
    requires forall i | 0 <= i < |p| :: !IsUpper(p[i])
    requires forall i | 0 <= i < |sp| :: IsSpace(sp[i])
    ensures Trim(LowerAll(a + p + sp + b)) == a + p + sp + b
  {
    JoinedNoUpper(a, p, sp, b);
    JoinedEnds(a, p, sp, b);
    LowerTrimKeeps(a + p + sp + b);
  }

  lemma JoinedNoUpper(a: string, p: string, sp: string, b: string)
    requires IsSlug(a) && IsSlug(b)
    requires forall i | 0 <= i < |p| :: !IsUpper(p[i])
    requires forall i | 0 <= i < |sp| :: IsSpace(sp[i])
    ensures forall i | 0 <= i < |a + p + sp + b| :: !IsUpper((a + p + sp + b)[i])
  {
    assert forall i | 0 <= i < |a| :: !IsUpper(a[i]);
    assert forall i | 0 <= i < |sp| :: !IsUpper(sp[i]);
    assert forall i | 0 <= i < |b| :: !IsUpper(b[i]);
    NoUpperAppend(a, p);
    NoUpperAppend(a + p, sp);
    NoUpperAppend(a + p + sp, b);
  }

  lemma JoinedEnds(a: string, p: string, sp: string, b: string)
    requires IsSlug(a) && IsSlug(b) && |a| > 0 && |b| > 0
    ensures var s := a + p + sp + b; !IsSpace(s[0]) && !IsSpace(s[|s| - 1])
  {
    var s := a + p + sp + b;
    assert s[0] == a[0];
    assert s[|s| - 1] == b[|b| - 1];
  }

  lemma NoUpperAppend(x: string, y: string)
    requires forall i | 0 <= i < |x| :: !IsUpper(x[i])
    requires forall i | 0 <= i < |y| :: !IsUpper(y[i])
    ensures forall i | 0 <= i < |x + y| :: !IsUpper((x + y)[i])
  {
  }

  /** Trailing punctuation is dropped, as in `words!`. */
  lemma TrailingPunctuation(a: string, p: string)
    requires IsSlug(a) && |a| > 0
    requires forall i | 0 <= i < |p| :: IsPunctuation(p[i]) && !IsUpper(p[i])
    ensures Slugify(a + p) == a
  {
    var s := a + p;
    assert forall i | 0 <= i < |s| :: !IsUpper(s[i]) && !IsSpace(s[i]) by {
      forall i | 0 <= i < |s| ensures !IsUpper(s[i]) && !IsSpace(s[i]) {
        if i < |a| { assert s[i] == a[i]; } else { assert s[i] == p[i - |a|]; }
      }
    }
    LowerTrimKeeps(s);
    SpacesToDashKeeps(s, false);
    assert KeepWordChars(s) == a by {
      KeepWordCharsAppend(a, p);
      KeepWordCharsKeeps(a);
      PunctuationVanishes(p);
    }
    SlugAfterKeep(s, a);
  }

  /** `genSlug`: the slug base is `slugify(resourceName)`; the slug adds `-(n + 1)` when `n`
      rows already hold that base in the column `slugBaseColumnName` (default `slugBase`). */
  function GenSlug(resourceName: string, table: seq<Row>, slugBaseColumnName: Option<string>): (r: (string, string))
    ensures r.0 == Slugify(resourceName)
  {
    var column := slugBaseColumnName.GetOr("slugBase");
    var slugBase := Slugify(resourceName);
    var occurrences := Count(table, CountOptions(None, AttrEq(column, Str(slugBase))));
    (slugBase, slugBase + (if occurrences > 0 then "-" + NatToString(occurrences + 1) else ""))
  }

  /** A slug followed by a dash and a non-empty run of digits is a slug. */
  lemma NumberedSlug(slugBase: string, digits: string)
    requires IsSlug(slugBase) && |digits| > 0 && forall i | 0 <= i < |digits| :: IsDigit(digits[i])
    ensures IsSlug(slugBase + "-" + digits)
  {
    var slug := slugBase + "-" + digits;
    forall i | 0 <= i < |slug| ensures IsSlugChar(slug[i]) {
      if i > |slugBase| {
        assert slug[i] == digits[i - |slugBase| - 1];
      }
    }
    forall i | 0 <= i < |slug| - 1 ensures !(slug[i] == '-' && slug[i + 1] == '-') {
      if i + 1 > |slugBase| {
        assert slug[i + 1] == digits[i - |slugBase|];
      } else if i + 1 == |slugBase| {
        assert slug[i] == slugBase[|slugBase| - 1];
      } else {
        assert slug[i] == slugBase[i] && slug[i + 1] == slugBase[i + 1];
      }
    }
    assert slug[|slug| - 1] == digits[|digits| - 1];
  }

  /** The slug is the base exactly when no row holds the base; otherwise it is the base, a dash
      and the occurrence count plus one. Either way it is a slug. */
  lemma GenSlugSuffix(resourceName: string, table: seq<Row>, slugBaseColumnName: Option<string>)
    ensures var (slugBase, slug) := GenSlug(resourceName, table, slugBaseColumnName);
      var column := slugBaseColumnName.GetOr("slugBase");
      var n := Count(table, CountOptions(None, AttrEq(column, Str(slugBase))));
      (slug == slugBase <==> !exists i | 0 <= i < |table| :: Satisfies(table[i], AttrEq(column, Str(slugBase)))) &&
      (n > 0 ==> slug == slugBase + "-" + NatToString(n + 1)) &&
      IsSlug(slug)
  {
    var slugBase := Slugify(resourceName);
    var column := slugBaseColumnName.GetOr("slugBase");
    var q := CountOptions(None, AttrEq(column, Str(slugBase)));
    CountPositive(table, q);
    SlugifyIsSlug(resourceName);
    SuffixedSlug(slugBase, Count(table, q));
  }

  /** The count-based suffix: none for a count of zero, else a dash and the count plus one;
      either way the result is a slug. */
  lemma SuffixedSlug(slugBase: string, n: nat)
    requires IsSlug(slugBase)
    ensures var slug := slugBase + (if n > 0 then "-" + NatToString(n + 1) else "");
      (slug == slugBase <==> n == 0) && (n > 0 ==> slug == slugBase + "-" + NatToString(n + 1)) && IsSlug(slug)
  {
    if n > 0 {
      var digits := NatToString(n + 1);
      assert slugBase + ("-" + digits) == slugBase + "-" + digits;
      NumberedSlug(slugBase, digits);
    } else {
      assert slugBase + "" == slugBase;
    }
  }

  /** A first `b` takes its slug as is. */
  lemma GenSlugFirst(b: string)
    requires IsSlug(b)
    ensures GenSlug(b, [], None) == (b, b)
  {
    SlugUnchanged(b);
    assert b + "" == b;
  }

  /** One row holds the base `b`. */
  lemma OneRowHolds(b: string, row1: Row)
    requires row1 == [("slugBase", Str(b)), ("slug", Str(b))]
    ensures Count([row1], CountOptions(None, AttrEq("slugBase", Str(b)))) == 1
  {
    GetEntry(row1, 0);
    assert Satisfies(row1, AttrEq("slugBase", Str(b)));
    assert [row1][1..] == [];
  }

  /** A second `b` is numbered 2. */
  lemma GenSlugSecond(b: string, row1: Row)
    requires IsSlug(b) && row1 == [("slugBase", Str(b)), ("slug", Str(b))]
    ensures GenSlug(b, [row1], None) == (b, b + "-2")
  {
    SlugUnchanged(b);
    OneRowHolds(b, row1);
    GenSlugOf(b, [row1], b, 1);
    SecondSuffix(b);
  }

  /** `genSlug` with the default column, given the slug base and its count. */
  lemma GenSlugOf(resourceName: string, table: seq<Row>, slugBase: string, n: nat)
    requires Slugify(resourceName) == slugBase
    requires Count(table, CountOptions(None, AttrEq("slugBase", Str(slugBase)))) == n
    ensures GenSlug(resourceName, table, None) == (slugBase, slugBase + if n > 0 then "-" + NatToString(n + 1) else "")
  {
  }

  /** The suffix of a second occurrence. */
  lemma SecondSuffix(b: string)
    ensures b + ("-" + NatToString(1 + 1)) == b + "-2"
  {
    var d := NatToString(2);
    assert d == "2" by {
      assert d == ["0123456789"[2]];
    }
    assert "-" + d == "-2";
  }

  /** The name `b 2` slugifies to `b-2`. */
  lemma NumberedNameSlug(b: string)
    requires IsSlug(b) && |b| > 0
    ensures Slugify(b + " 2") == b + "-2"
  {
    assert IsSlug("2") by {
      assert NoDoubleDash("2");
    }
    assert b + "" + " " + "2" == b + " 2" by {
      assert b + "" == b;
    }
    assert b + "-" + "2" == b + "-2";
    JoinedSlugs(b, "", " ", "2");
  }

  /** No row whose base is `b` holds the base `b-2`. */
  lemma NoRowHoldsNumbered(b: string, row1: Row, row2: Row)
    requires row1 == [("slugBase", Str(b)), ("slug", Str(b))]
    requires row2 == [("slugBase", Str(b)), ("slug", Str(b + "-2"))]
    ensures Count([row1, row2], CountOptions(None, AttrEq("slugBase", Str(b + "-2")))) == 0
  {
    assert |b + "-2"| == |b| + 2;
    GetEntry(row1, 0);
    GetEntry(row2, 0);
    var w := AttrEq("slugBase", Str(b + "-2"));
    assert !Satisfies(row1, w) && !Satisfies(row2, w);
    assert Matching([row1, row2], w) == [] by {
      assert [row1, row2][1..] == [row2];
      assert [row2][1..] == [];
    }
  }

  /** The slug is count based, not unique. The name `b` of a slug `b` (say `potato`) given
      twice makes the rows `b` and `b-2`, both with the base `b` (`GenSlugFirst`,
      `GenSlugSecond`); then the name `b 2` has the base `b-2`, which no row holds, and so
      gets the slug `b-2` that the second row already has. */
  lemma GenSlugRepeats(b: string, row1: Row, row2: Row)
    requires IsSlug(b) && |b| > 0
    requires row1 == [("slugBase", Str(b)), ("slug", Str(b))]
    requires row2 == [("slugBase", Str(b)), ("slug", Str(b + "-2"))]
    ensures GenSlug(b + " 2", [row1, row2], None) == (b + "-2", b + "-2")
  {
    NumberedNameSlug(b);
    NoRowHoldsNumbered(b, row1, row2);
    GenSlugOf(b + " 2", [row1, row2], b + "-2", 0);
    assert b + "-2" + "" == b + "-2";
  }
}
