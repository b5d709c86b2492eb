/** Character classes of JavaScript regular expressions without the `u` flag, ASCII case
    mapping, and `camelize` (src/utils/string.ts). */
module Strings {
  import opened Wrappers
  import opened Js
  import opened Seqs

  /** `\s`: the ECMAScript white space and line terminator characters. */
  predicate IsSpace(c: char) {
    c == ' ' || c == '\t' || c == '\n' || c == '\r' || c == '\U{B}' || c == '\U{C}' ||
    c == '\U{A0}' || c == '\U{1680}' || ('\U{2000}' <= c <= '\U{200A}') ||
    c == '\U{2028}' || c == '\U{2029}' || c == '\U{202F}' || c == '\U{205F}' ||
    c == '\U{3000}' || c == '\U{FEFF}'
  }

  predicate IsUpper(c: char) {
    'A' <= c <= 'Z'
  }

  predicate IsLower(c: char) {
    'a' <= c <= 'z'
  }

  /** `\w`: ASCII letters, digits and `_`. */
  predicate IsWord(c: char) {
    IsUpper(c) || IsLower(c) || IsDigit(c) || c == '_'
  }

  /** `toLowerCase` and `toUpperCase` on ASCII letters; other characters are unchanged. */
  function Lower(c: char): (d: char)
    ensures IsUpper(c) ==> IsLower(d)
    ensures !IsUpper(c) ==> d == c
  {
    if IsUpper(c) then (c as int + 32) as char else c
  }

  function Upper(c: char): (d: char)
    ensures IsLower(c) ==> IsUpper(d)
    ensures !IsLower(c) ==> d == c
  {
    if IsLower(c) then (c as int - 32) as char else c
  }

  //////////////////////////////////////////////////////////////////////////
  // camelize: str.replace(/^([A-Z])|[\s-_]+(\w)/g, …)

  /** `[\s-_]`: since `\s` is a class escape, the `-` is literal, so the class is white
      space, `-` and `_`. */
  predicate IsSeparator(c: char) {
    IsSpace(c) || c == '-' || c == '_'
  }

  /** The length of the longest run of separators starting at `i`. */
  function SeparatorRun(s: string, i: nat): (k: nat)
    requires i <= |s|
    ensures i + k <= |s|
    decreases |s| - i
  {
    if i < |s| && IsSeparator(s[i]) then 1 + SeparatorRun(s, i + 1) else 0
  }

  /** The run is all separators and is not followed by one. */
  lemma {:induction false} SeparatorRunMaximal(s: string, i: nat)
    requires i <= |s|
    ensures var k := SeparatorRun(s, i);
      (forall j | i <= j < i + k :: IsSeparator(s[j])) && (i + k < |s| ==> !IsSeparator(s[i + k]))
    decreases |s| - i
  {
    if i < |s| && IsSeparator(s[i]) {
      SeparatorRunMaximal(s, i + 1);
    }
  }

  /** A word character follows the first `l` separators of the run at `i`. */
  predicate WordAfter(s: string, i: nat, l: nat) {
    i + l < |s| && IsWord(s[i + l])
  }

  /** Backtracking of the greedy `[\s-_]+` before `(\w)`: the longest `l` in `1..j` such that
      a word character follows the first `l` separators, if any. */
  function Backtrack(s: string, i: nat, j: nat): (r: Option<nat>)
    ensures r.Some? ==> 1 <= r.value <= j && WordAfter(s, i, r.value)
    decreases j
  {
    if j == 0 then None
    else if WordAfter(s, i, j) then Some(j)
    else Backtrack(s, i, j - 1)
  }

  /** Backtracking finds the longest length a word character follows, and none when there is
      no such length. */
  lemma {:induction false} BacktrackLongest(s: string, i: nat, j: nat)
    ensures var r := Backtrack(s, i, j);
      (r.Some? ==> forall l | r.value < l <= j :: !WordAfter(s, i, l)) &&
      (r.None? ==> forall l | 1 <= l <= j :: !WordAfter(s, i, l))
    decreases j
  {
    if j > 0 && !WordAfter(s, i, j) {
      BacktrackLongest(s, i, j - 1);
    }
  }

  /** The match of the pattern at position `i`, as the length it consumes and the character
      the callback returns: the lowered first capital at position 0, or the upper-cased word
      character after a separator run. */
  function MatchAt(s: string, i: nat): (m: Option<(nat, char)>)
    requires i <= |s|
    ensures m.Some? ==> 1 <= m.value.0 && i + m.value.0 <= |s|
  {
    if i == 0 && |s| > 0 && IsUpper(s[0]) then Some((1, Lower(s[0])))
    else
      var run := SeparatorRun(s, i);
      match Backtrack(s, i, run)
      case None => None
      case Some(l) => Some((l + 1, Upper(s[i + l])))
  }

  /** The global replacement from position `i` on: a match is replaced and the scan resumes
      after it; elsewhere the character is kept. */
  function CamelizeFrom(s: string, i: nat): (r: string)
    requires i <= |s|
    ensures |r| <= |s| - i
    decreases |s| - i
  {
    if i == |s| then ""
    else
      match MatchAt(s, i)
      case Some((len, c)) => [c] + CamelizeFrom(s, i + len)
      case None => [s[i]] + CamelizeFrom(s, i + 1)
  }

  function Camelize(str: string): (r: string)
    ensures |r| <= |str|
  {
    CamelizeFrom(str, 0)
  }

  /** A leading capital is lowered. */
  lemma LeadingCapital(str: string)
    requires |str| > 0 && IsUpper(str[0])
    ensures Camelize(str) == [Lower(str[0])] + CamelizeFrom(str, 1)
    ensures IsLower(Camelize(str)[0])
  {
  }

  /** A maximal separator run followed by a word character becomes that character in upper case. */
  lemma RunThenWord(s: string, i: nat, e: nat)
    requires 0 < i < e < |s|
    requires forall j | i <= j < e :: IsSeparator(s[j])
    requires !IsSeparator(s[e]) && IsWord(s[e])
    ensures CamelizeFrom(s, i) == [Upper(s[e])] + CamelizeFrom(s, e + 1)
  {
    var k := e - i;
    RunLength(s, i, k);
    MatchAfterRun(s, i, k);
    ReplaceStep(s, i, k + 1, Upper(s[e]), e + 1);
  }

  /** Past position 0, a whole run followed by a word character is a match. */
  lemma MatchAfterRun(s: string, i: nat, k: nat)
    requires 0 < i && 1 <= k && i + k < |s|
    requires SeparatorRun(s, i) == k && IsWord(s[i + k])
    ensures MatchAt(s, i) == Some((k + 1, Upper(s[i + k])))
  {
    assert Backtrack(s, i, k) == Some(k);
  }

  /** At a match, the replacement is emitted and the scan resumes after the match. */
  lemma ReplaceStep(s: string, i: nat, len: nat, c: char, next: nat)
    requires i < |s| && MatchAt(s, i) == Some((len, c)) && next == i + len
    ensures next <= |s| && CamelizeFrom(s, i) == [c] + CamelizeFrom(s, next)
  {
  }

  lemma {:induction false} RunLength(s: string, i: nat, k: nat)
    requires i + k < |s|
    requires forall j | i <= j < i + k :: IsSeparator(s[j])
    requires !IsSeparator(s[i + k])
    ensures SeparatorRun(s, i) == k
    decreases k
  {
    if k > 0 {
      RunLength(s, i + 1, k - 1);
    }
  }

  /** A character that is not a separator, and not a capital at position 0, is copied. */
  lemma CopyStep(s: string, i: nat)
    requires i < |s| && !IsSeparator(s[i])
    requires i == 0 ==> !IsUpper(s[0])
    ensures CamelizeFrom(s, i) == [s[i]] + CamelizeFrom(s, i + 1)
  {
    assert SeparatorRun(s, i) == 0;
    assert MatchAt(s, i).None?;
  }

  /** A string with no separators and no leading capital is unchanged. */
  lemma {:induction false} NoSeparatorsUnchanged(s: string, i: nat)
    requires i <= |s|
    requires forall j | i <= j < |s| :: !IsSeparator(s[j])
    requires i == 0 && |s| > 0 ==> !IsUpper(s[0])
    ensures CamelizeFrom(s, i) == s[i..]
    decreases |s| - i
  {
    if i < |s| {
      CopyStep(s, i);
      NoSeparatorsUnchanged(s, i + 1);
      assert s[i..] == [s[i]] + s[i + 1..];
    }
  }

  /** A trailing run of white space and `-` (no `_`, which is also a word character) stays. */
  lemma {:induction false} TrailingRunStays(s: string, i: nat)
    requires 0 < i <= |s|
    requires forall j | i <= j < |s| :: IsSpace(s[j]) || s[j] == '-'
    ensures CamelizeFrom(s, i) == s[i..]
    decreases |s| - i
  {
    if i < |s| {
      var run := SeparatorRun(s, i);
      assert Backtrack(s, i, run).None?;
      TrailingRunStays(s, i + 1);
    }
  }

  /** The examples of the library's own test-suite. */
  lemma CamelizeHello()
    ensures Camelize("hello") == "hello"
  {
    NoSeparatorsUnchanged("hello", 0);
  }

  /** Two separator-free words joined by a run of separators: the run is dropped and the
      second word's first letter is upper-cased, as in `hello world`, `hello_world` and
      `hello    world`, which all give `helloWorld`. */
  lemma JoinedWords(a: string, sep: string, b: string)
    requires forall j | 0 <= j < |a| :: !IsSeparator(a[j])
    requires 0 < |a| && !IsUpper(a[0])
    requires 0 < |sep| && forall j | 0 <= j < |sep| :: IsSeparator(sep[j])
    requires 0 < |b| && IsWord(b[0]) && forall j | 0 <= j < |b| :: !IsSeparator(b[j])
    ensures Camelize(a + sep + b) == a + [Upper(b[0])] + b[1..]
  {
    var s := a + sep + b;
    var e := |a| + |sep|;
    assert s[..|a|] == a && s[e + 1..] == b[1..] && s[e] == b[0];
    CamelizeSplit(s, |a|, e);
  }

  /** Camelizing a string made of a separator-free word, a run of separators, a word
      character and then no separators. */
  lemma CamelizeSplit(s: string, p: nat, e: nat)
    requires 0 < p < e < |s|
    requires forall j | 0 <= j < p :: !IsSeparator(s[j])
    requires !IsUpper(s[0])
    requires forall j | p <= j < e :: IsSeparator(s[j])
    requires IsWord(s[e]) && forall j | e <= j < |s| :: !IsSeparator(s[j])
    ensures Camelize(s) == s[..p] + [Upper(s[e])] + s[e + 1..]
  {
    NoSeparatorsThenRun(s, 0, p);
    RunThenWord(s, p, e);
    NoSeparatorsUnchanged(s, e + 1);
    assert s[0..p] == s[..p];
    Associative(s[..p], [Upper(s[e])], s[e + 1..]);
  }

  /** Characters before the first separator are copied (no leading capital). */
  lemma {:induction false} NoSeparatorsThenRun(s: string, i: nat, e: nat)
    requires i <= e <= |s|
    requires forall j | i <= j < e :: !IsSeparator(s[j])
    requires i == 0 && e > 0 ==> !IsUpper(s[0])
    ensures CamelizeFrom(s, i) == s[i..e] + CamelizeFrom(s, e)
    decreases e - i
  {
    if i < e {
      CopyStep(s, i);
      NoSeparatorsThenRun(s, i + 1, e);
      ConsSlice(s[i..e], CamelizeFrom(s, e));
      assert s[i..e][1..] == s[i + 1..e];
    }
  }
}
