/**
 * The JavaScript string operations the front-end relies on: `includes`,
 * `indexOf`, `split` with a non-empty separator, `Array.prototype.pop` on the
 * pieces, and `toLowerCase` (ASCII letters only).
 */
module JsStrings {
  import opened Types

  /** `pat` occurs in `s` starting at position `i`. */
  predicate OccursAt(s: string, pat: string, i: nat) {
    i + |pat| <= |s| && s[i..i + |pat|] == pat
  }

  lemma OccursAtTail(s: string, pat: string, j: nat)
    requires |s| > 0
    ensures OccursAt(s, pat, j + 1) <==> OccursAt(s[1..], pat, j)
  {
    if j + 1 + |pat| <= |s| {
      assert s[1..][j..j + |pat|] == s[j + 1..j + 1 + |pat|];
    }
  }

  /** An occurrence that lies inside the prefix `s[..k]` is an occurrence in `s`, and back. */
  lemma OccursInPrefix(s: string, pat: string, k: nat, j: nat)
    requires k <= |s| && j + |pat| <= k
    ensures OccursAt(s[..k], pat, j) <==> OccursAt(s, pat, j)
  {
    assert s[..k][j..j + |pat|] == s[j..j + |pat|];
  }

  /** `s.indexOf(pat)`: the first position where `pat` occurs, if any. */
  function IndexOf(s: string, pat: string): (r: Option<nat>)
    ensures r.Some? ==> OccursAt(s, pat, r.value)
    ensures r.Some? ==> forall j: nat :: j < r.value ==> !OccursAt(s, pat, j)
    ensures r.None? ==> forall j: nat :: !OccursAt(s, pat, j)
    decreases |s|
  {
    if |s| < |pat| then None
    else if s[..|pat|] == pat then Some(0)
    else
      var rest := IndexOf(s[1..], pat);
      assert !OccursAt(s, pat, 0);
      assert forall j: nat :: 1 <= j ==> (OccursAt(s, pat, j) <==> OccursAt(s[1..], pat, j - 1)) by {
        forall j: nat | 1 <= j ensures OccursAt(s, pat, j) <==> OccursAt(s[1..], pat, j - 1) {
          OccursAtTail(s, pat, j - 1);
        }
      }
      match rest
      case None => None
      case Some(k) => Some(k + 1)
  }

  /** `s.includes(pat)`. */
  predicate Includes(s: string, pat: string)
    ensures Includes(s, pat) <==> exists i: nat :: OccursAt(s, pat, i)
  {
    match IndexOf(s, pat)
    case Some(i) => assert OccursAt(s, pat, i); true
    case None => false
  }

  /** Whatever contains `p + q` contains `p`. */
  lemma IncludesPrefixOfPattern(s: string, p: string, q: string)
    requires Includes(s, p + q)
    ensures Includes(s, p)
  {
    var i: nat :| OccursAt(s, p + q, i);
    assert s[i..i + |p|] == (p + q)[..|p|] == p;
    assert OccursAt(s, p, i);
  }

  /** A pattern longer than the string cannot occur in it. */
  lemma NotIncludesLonger(s: string, pat: string)
    requires |s| < |pat|
    ensures !Includes(s, pat)
  {
  }

  /** A string that lacks some character of `pat` cannot contain `pat`. */
  lemma NotIncludesByChar(s: string, pat: string, k: nat)
    requires k < |pat| && pat[k] !in s
    ensures !Includes(s, pat)
  {
    forall i: nat | i + |pat| <= |s| ensures !OccursAt(s, pat, i) {
      assert s[i..i + |pat|][k] == s[i + k];
    }
  }

  /** `s.split(sep)` for a non-empty separator: the pieces between successive occurrences. */
  function Split(s: string, sep: string): (parts: seq<string>)
    requires sep != ""
    ensures |parts| >= 1
    decreases |s|
  {
    match IndexOf(s, sep)
    case None => [s]
    case Some(p) => [s[..p]] + Split(s[p + |sep|..], sep)
  }

  /** `parts.join(sep)`. */
  function Join(parts: seq<string>, sep: string): string
    requires |parts| >= 1
  {
    if |parts| == 1 then parts[0] else parts[0] + sep + Join(parts[1..], sep)
  }

  /** Splitting and joining again gives back the original string. */
  lemma {:induction false} JoinSplit(s: string, sep: string)
    requires sep != ""
    ensures Join(Split(s, sep), sep) == s
    decreases |s|
  {
    match IndexOf(s, sep)
    case None =>
    case Some(p) =>
      var rest := s[p + |sep|..];
      JoinSplit(rest, sep);
      calc {
        Join(Split(s, sep), sep);
        s[..p] + sep + Join(Split(rest, sep), sep);
        s[..p] + sep + rest;
        { assert s[p..p + |sep|] == sep; }
        s;
      }
  }

  /** No piece of a split contains the separator. */
  lemma {:induction false} SplitPiecesAvoidSeparator(s: string, sep: string, k: nat)
    requires sep != "" && k < |Split(s, sep)|
    ensures !Includes(Split(s, sep)[k], sep)
    decreases |s|
  {
    match IndexOf(s, sep)
    case None =>
    case Some(p) =>
      if k == 0 {
        if Includes(s[..p], sep) {
          var j: nat :| OccursAt(s[..p], sep, j);
          OccursInPrefix(s, sep, p, j);
          assert false;
        }
      } else {
        SplitPiecesAvoidSeparator(s[p + |sep|..], sep, k - 1);
      }
  }

  /** `parts.pop()` on a non-empty array: its last element. */
  function Last(parts: seq<string>): string
    requires |parts| >= 1
  {
    parts[|parts| - 1]
  }

  /** `last` is the suffix of `s` after its last separator, or all of `s`. */
  predicate IsFinalSegment(s: string, sep: string, last: string) {
    && |last| <= |s|
    && s[|s| - |last|..] == last
    && (|last| == |s| || (|last| + |sep| <= |s| && OccursAt(s, sep, |s| - |last| - |sep|)))
  }

  /**
   * The last piece of `s.split(sep)` is the suffix of `s` after the last
   * separator (all of `s` when there is none) and holds no separator.
   */
  lemma LastPieceIsFinalSegment(s: string, sep: string)
    requires sep != ""
    ensures IsFinalSegment(s, sep, Last(Split(s, sep)))
    ensures !Includes(Last(Split(s, sep)), sep)
  {
    var parts := Split(s, sep);
    SplitPiecesAvoidSeparator(s, sep, |parts| - 1);
    LastPieceIsSuffix(s, sep);
  }

  lemma {:induction false} LastPieceIsSuffix(s: string, sep: string)
    requires sep != ""
    ensures IsFinalSegment(s, sep, Last(Split(s, sep)))
    decreases |s|
  {
    match IndexOf(s, sep)
    case None =>
      assert Split(s, sep) == [s];
    case Some(p) =>
      var rest := s[p + |sep|..];
      var tail := Split(rest, sep);
      assert Split(s, sep) == [s[..p]] + tail;
      LastPieceIsSuffix(rest, sep);
      FinalSegmentAfterSeparator(s, sep, p, Last(tail));
  }

  /** A final segment of the text after a separator is a final segment of the whole. */
  lemma FinalSegmentAfterSeparator(s: string, sep: string, p: nat, last: string)
    requires OccursAt(s, sep, p)
    requires IsFinalSegment(s[p + |sep|..], sep, last)
    ensures IsFinalSegment(s, sep, last)
  {
    var rest := s[p + |sep|..];
    var n := |sep|;
    assert s[|s| - |last|..] == rest[|rest| - |last|..];
    if |last| != |rest| {
      var j := |rest| - |last| - n;
      assert rest[j..j + n] == s[p + n + j..p + n + j + n];
    }
  }

  /** The first piece of `s.split(sep)` is the text before the first separator. */
  lemma FirstPieceIsInitialSegment(s: string, sep: string)
    requires sep != ""
    ensures var first := Split(s, sep)[0];
      && |first| <= |s|
      && first == s[..|first|]
      && (forall j: nat :: j < |first| ==> !OccursAt(s, sep, j))
      && (|first| == |s| || OccursAt(s, sep, |first|))
      && (|Split(s, sep)| > 1 <==> IndexOf(s, sep).Some?)
  {
  }

  /** `c.toLowerCase()` for ASCII letters; other characters are kept. */
  function LowerChar(c: char): char {
    if 'A' <= c <= 'Z' then (c as int + 32) as char else c
  }

  /** `s.toLowerCase()`, character by character. */
  function Lower(s: string): (r: string)
    ensures |r| == |s|
    ensures forall i :: 0 <= i < |s| ==> r[i] == LowerChar(s[i])
  {
    seq(|s|, i requires 0 <= i < |s| => LowerChar(s[i]))
  }

  /** Lower-casing leaves no upper-case ASCII letter and is idempotent. */
  lemma LowerIdempotent(s: string)
    ensures Lower(Lower(s)) == Lower(s)
    ensures forall i :: 0 <= i < |s| ==> !('A' <= Lower(s)[i] <= 'Z')
  {
  }
}
