/** The value validators `hasLength`, `isBetween` and `isEmail` (src/utils/validators.ts). A
    bound is given as an optional number; JavaScript's `!min` test makes an absent bound and a
    bound of 0 impose nothing. */
module Validators {
  import opened Wrappers
  import opened Strings
  import opened Js

  /** A bound takes effect when it is truthy: present and non-zero. */
  predicate Active(bound: Option<int>) {
    bound.Some? && bound.value != 0
  }

  /** `(!min || x >= min) && (!max || x <= max)`. */
  predicate WithinBounds(min: Option<int>, max: Option<int>, x: int) {
    (!Active(min) || x >= min.value) && (!Active(max) || x <= max.value)
  }

  /** `hasLength({ min, max })`: the validator on the string's `length`, which counts
      UTF-16 code units. */
  function HasLength(min: Option<int>, max: Option<int>): (f: string -> bool) {
    (value: string) => WithinBounds(min, max, Utf16Length(value))
  }

  /** `isBetween({ min, max })`: the validator on the number itself (integers only here). */
  function IsBetween(min: Option<int>, max: Option<int>): (f: int -> bool) {
    (value: int) => WithinBounds(min, max, value)
  }

  /** `hasLength({})` accepts every string, and a bound of 0 is the same as no bound. */
  lemma HasLengthUnbounded(value: string)
    ensures HasLength(None, None)(value)
    ensures HasLength(Some(0), Some(0))(value)
  {
  }

  lemma HasLengthMeaning(min: Option<int>, max: Option<int>, value: string)
    ensures HasLength(min, max)(value) <==>
      (min.Some? && min.value != 0 ==> Utf16Length(value) >= min.value) &&
      (max.Some? && max.value != 0 ==> Utf16Length(value) <= max.value)
  {
  }

  /** On a string of the Basic Multilingual Plane the bounds are on its number of
      characters; a character outside it counts twice. */
  lemma HasLengthBmp(min: Option<int>, max: Option<int>, value: string)
    requires forall i | 0 <= i < |value| :: (value[i] as int) < 0x10000
    ensures HasLength(min, max)(value) <==> WithinBounds(min, max, |value|)
  {
    Utf16LengthBmp(value);
  }

  lemma IsBetweenMeaning(min: Option<int>, max: Option<int>, value: int)
    ensures IsBetween(min, max)(value) <==>
      (min.Some? && min.value != 0 ==> value >= min.value) &&
      (max.Some? && max.value != 0 ==> value <= max.value)
    ensures IsBetween(None, None)(value) && IsBetween(Some(0), Some(0))(value)
  {
  }

  predicate NoSpace(s: string) {
    forall k | 0 <= k < |s| :: !IsSpace(s[k])
  }

  /** The shape `/^\S+@\S+\.\S+$/` describes: an `@` at `i` and a `.` at `j`, with a non-empty
      part before the `@`, between them and after the `.`, and no white space anywhere. The
      parts may themselves hold `@` and `.`. */
  predicate EmailAt(s: string, i: int, j: int) {
    0 < i && i + 1 < j && j + 1 < |s| && s[i] == '@' && s[j] == '.'
  }

  ghost predicate EmailShape(s: string) {
    NoSpace(s) && exists i, j :: EmailAt(s, i, j)
  }

  /** The first `@` at or after `k`. */
  function FirstAt(s: string, k: nat): (r: Option<nat>)
    requires k <= |s|
    ensures r.Some? ==> k <= r.value < |s| && s[r.value] == '@'
    ensures forall m | k <= m < |s| && s[m] == '@' :: r.Some? && r.value <= m
    decreases |s| - k
  {
    if k == |s| then None else if s[k] == '@' then Some(k) else FirstAt(s, k + 1)
  }

  /** The last `.` before `k`. */
  function LastDot(s: string, k: nat): (r: Option<nat>)
    requires k <= |s|
    ensures r.Some? ==> r.value < k && s[r.value] == '.'
    ensures forall m | 0 <= m < k && s[m] == '.' :: r.Some? && m <= r.value
  {
    if k == 0 then None else if s[k - 1] == '.' then Some(k - 1) else LastDot(s, k - 1)
  }

  /** `isEmail()`: the first `@` after the first character and the last `.` before the last
      character decide the match. */
  function IsEmail(): (f: string -> bool) {
    (s: string) => NoSpace(s) && |s| >= 2 &&
      var at := FirstAt(s, 1);
      var dot := LastDot(s, |s| - 1);
      at.Some? && dot.Some? && at.value + 1 < dot.value
  }

  /** `isEmail` accepts exactly the strings of the shape `a@b.c`. */
  lemma IsEmailMeaning(s: string)
    ensures IsEmail()(s) <==> EmailShape(s)
  {
    if EmailShape(s) {
      var i, j :| EmailAt(s, i, j);
      assert FirstAt(s, 1).Some? && FirstAt(s, 1).value <= i;
      assert LastDot(s, |s| - 1).Some? && j <= LastDot(s, |s| - 1).value;
    }
    if IsEmail()(s) {
      assert EmailAt(s, FirstAt(s, 1).value, LastDot(s, |s| - 1).value);
    }
  }
}
