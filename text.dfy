/**
  The JavaScript string built-ins the core relies on: `trim`, `includes`,
  `startsWith` and the case folding behind a regular expression's `/i` flag.
  Whitespace is the fixed ASCII set and case folding is ASCII-only.
 */
module Text {

  /** The characters `String.prototype.trim` removes (ASCII part). */
  predicate IsSpace(c: char) {
    c == ' ' || c == '\t' || c == '\n' || c == '\r' || c == '\U{000B}' || c == '\U{000C}'
  }

  /** Every character of `s` at a position in `[lo, hi)` is whitespace. */
  ghost predicate SpaceIn(s: string, lo: int, hi: int) {
    forall k :: 0 <= lo <= k < hi <= |s| ==> IsSpace(s[k])
  }

  ghost predicate AllSpace(s: string) {
    SpaceIn(s, 0, |s|)
  }

  /** `r` sits at index `i` of `s` with only whitespace around it. */
  ghost predicate Framed(s: string, r: string, i: int) {
    0 <= i <= |s| - |r| && s[i..i + |r|] == r && SpaceIn(s, 0, i) && SpaceIn(s, i + |r|, |s|)
  }

  /** No whitespace at either end. */
  ghost predicate Tight(r: string) {
    r != [] ==> !IsSpace(r[0]) && !IsSpace(r[|r| - 1])
  }

  /** The first position at or after `i` that is not whitespace (`|s|` if none). */
  function SkipSpace(s: string, i: nat): (j: nat)
    requires i <= |s|
    ensures i <= j <= |s| && SpaceIn(s, i, j)
    ensures j < |s| ==> !IsSpace(s[j])
    decreases |s| - i
  {
    if i < |s| && IsSpace(s[i]) then SkipSpace(s, i + 1) else i
  }

  /** The end of `s[lo..hi]` once its trailing whitespace is dropped. */
  function SkipSpaceBack(s: string, lo: nat, hi: nat): (e: nat)
    requires lo <= hi <= |s|
    ensures lo <= e <= hi && SpaceIn(s, e, hi)
    ensures lo < e ==> !IsSpace(s[e - 1])
    decreases hi
  {
    if lo < hi && IsSpace(s[hi - 1]) then SkipSpaceBack(s, lo, hi - 1) else hi
  }

  /** `String.prototype.trim`: `s` without its leading and trailing whitespace. */
  function Trim(s: string): (r: string)
    ensures exists i :: Framed(s, r, i)
    ensures Tight(r)
    ensures r == [] <==> AllSpace(s)
  {
    var a := SkipSpace(s, 0);
    var e := SkipSpaceBack(s, a, |s|);
    var r := s[a..e];
    assert Framed(s, r, a);
    if a < e then
      assert r[0] == s[a] && r[|r| - 1] == s[e - 1];
      r
    else
      r
  }

  /** Trimming is idempotent: a trimmed string has nothing left to trim. */
  lemma TrimIdempotent(s: string)
    ensures Trim(Trim(s)) == Trim(s)
  {
  }

  ghost predicate OccursAt(s: string, p: string, i: int) {
    0 <= i && i + |p| <= |s| && s[i..i + |p|] == p
  }

  /** `String.prototype.startsWith`. */
  function StartsWith(s: string, prefix: string): (b: bool)
    ensures b <==> OccursAt(s, prefix, 0)
    ensures b ==> |prefix| <= |s| && forall k :: 0 <= k < |prefix| ==> s[k] == prefix[k]
  {
    |prefix| <= |s| && s[..|prefix|] == prefix
  }

  /** `String.prototype.includes`, a left-to-right search. */
  function Contains(s: string, p: string): (b: bool)
    ensures b <==> exists i :: OccursAt(s, p, i)
    decreases |s|
  {
    if |p| > |s| then
      assert forall i :: !OccursAt(s, p, i);
      false
    else if s[..|p|] == p then
      assert OccursAt(s, p, 0);
      true
    else
      var b := Contains(s[1..], p);
      assert forall i :: 0 <= i ==> OccursAt(s[1..], p, i) == OccursAt(s, p, i + 1);
      assert b ==> exists i :: OccursAt(s, p, i) by {
        if b {
          var i :| OccursAt(s[1..], p, i);
          assert OccursAt(s, p, i + 1);
        }
      }
      assert (exists i :: OccursAt(s, p, i)) ==> b by {
        if i :| OccursAt(s, p, i) {
          assert i != 0;
          assert OccursAt(s[1..], p, i - 1);
        }
      }
      b
  }

  function LowerChar(c: char): char {
    if 'A' <= c <= 'Z' then (c as int + 32) as char else c
  }

  /** `String.prototype.toLowerCase`, ASCII letters only. */
  function Lower(s: string): (r: string)
    ensures |r| == |s|
    ensures forall k :: 0 <= k < |r| ==> !('A' <= r[k] <= 'Z')
    ensures forall k :: 0 <= k < |r| ==>
              if 'A' <= s[k] <= 'Z' then r[k] as int == s[k] as int + 32 else r[k] == s[k]
  {
    seq(|s|, k requires 0 <= k < |s| => LowerChar(s[k]))
  }

  /** Lower-casing a lower-cased string changes nothing. */
  lemma LowerIdempotent(s: string)
    ensures Lower(Lower(s)) == Lower(s)
  {
  }

  /** A case-insensitive regular expression for the lower-case literal `p`. */
  function MatchesIgnoringCase(s: string, p: string): (b: bool)
    ensures b <==> exists i :: OccursAt(Lower(s), p, i)
  {
    Contains(Lower(s), p)
  }
}
