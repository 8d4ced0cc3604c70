/**
 * Regular-expression substitution as the scripts use it. A pattern is given
 * by its matches: for each start position, the match found there, if any.
 * A match keeps a first group, replaces a middle part and keeps a second
 * group; re.sub scans left to right and resumes after each match, and with
 * count=1 it stops after the first. Also here: the tail `\s*(.+)$` that
 * several line patterns share.
 */
module Rewrite {
  import opened Wrappers
  import opened Text

  /**
   * A match starting at some position: the first group ends at `keep`, the
   * replaced middle runs to `close`, and the second group runs to `end`.
   */
  datatype Hit = Hit(keep: nat, close: nat, end: nat)

  /** Every match found from i on is nonempty and lies between its start and the end of the text. */
  ghost predicate HitsWithin(h: string, hits: nat -> Option<Hit>, i: nat) {
    forall j :: i <= j < |h| && hits(j).Some? ==>
      j <= hits(j).value.keep <= hits(j).value.close <= hits(j).value.end <= |h| && j < hits(j).value.end
  }

  /**
   * re.sub from position i: each leftmost match keeps its two groups and
   * has the text put between them; the scan goes on after the match.
   */
  function SubFrom(h: string, hits: nat -> Option<Hit>, text: string, i: nat): string
    requires i <= |h| && HitsWithin(h, hits, i)
    decreases |h| - i
  {
    if i == |h| then []
    else
      match hits(i)
      case Some(m) => h[i..m.keep] + text + h[m.close..m.end] + SubFrom(h, hits, text, m.end)
      case None => [h[i]] + SubFrom(h, hits, text, i + 1)
  }

  /** Positions where no match starts are copied through. */
  lemma {:induction false} SubFromSkip(h: string, hits: nat -> Option<Hit>, text: string, i: nat, k: nat)
    requires i <= k <= |h| && HitsWithin(h, hits, i)
    requires forall j :: i <= j < k ==> hits(j).None?
    ensures HitsWithin(h, hits, k)
    ensures SubFrom(h, hits, text, i) == h[i..k] + SubFrom(h, hits, text, k)
    decreases k - i
  {
    if i < k {
      SubFromSkip(h, hits, text, i + 1, k);
      assert h[i..k] == [h[i]] + h[i + 1..k];
    }
  }

  /** A match at i keeps its groups, puts the text between them and scanning resumes after it. */
  lemma SubFromAt(h: string, hits: nat -> Option<Hit>, text: string, i: nat, m: Hit)
    requires i < |h| && HitsWithin(h, hits, i) && hits(i) == Some(m)
    ensures HitsWithin(h, hits, m.end)
    ensures SubFrom(h, hits, text, i) == h[i..m.keep] + text + h[m.close..m.end] + SubFrom(h, hits, text, m.end)
  {
  }

  /** With one match, at i, the text is rewritten there alone. */
  lemma SubFromOnce(h: string, hits: nat -> Option<Hit>, text: string, i: nat, m: Hit)
    requires i < |h| && HitsWithin(h, hits, 0) && hits(i) == Some(m)
    requires forall j :: 0 <= j < i ==> hits(j).None?
    requires forall j :: m.end <= j < |h| ==> hits(j).None?
    ensures SubFrom(h, hits, text, 0) == h[..m.keep] + text + h[m.close..]
  {
    SubFromSkip(h, hits, text, 0, i);
    SubFromAt(h, hits, text, i, m);
    SubFromSkip(h, hits, text, m.end, |h|);
    ThreeParts(h, i, m.keep, m.close, m.end, text, SubFrom(h, hits, text, 0), SubFrom(h, hits, text, i), SubFrom(h, hits, text, m.end));
  }

  /** The slice arithmetic behind SubFromOnce. */
  lemma ThreeParts(h: string, i: nat, keep: nat, close: nat, end: nat, text: string, x: string, y: string, z: string)
    requires i <= keep <= close <= end <= |h|
    requires x == h[0..i] + y
    requires y == h[i..keep] + text + h[close..end] + z
    requires z == h[end..|h|] + []
    ensures x == h[..keep] + text + h[close..]
  {
    assert h[0..i] + h[i..keep] == h[..keep];
    assert h[close..end] + h[end..|h|] == h[close..];
  }


  /** re.sub with count=1 from position i: only the first match is rewritten. */
  function SubOnceFrom(h: string, hits: nat -> Option<Hit>, text: string, i: nat): string
    requires i <= |h| && HitsWithin(h, hits, i)
    decreases |h| - i
  {
    if i == |h| then []
    else
      match hits(i)
      case Some(m) => h[i..m.keep] + text + h[m.close..]
      case None => [h[i]] + SubOnceFrom(h, hits, text, i + 1)
  }

  /** Without a match the text comes through unchanged. */
  lemma {:induction false} SubOnceNone(h: string, hits: nat -> Option<Hit>, text: string, i: nat)
    requires i <= |h| && HitsWithin(h, hits, i)
    requires forall j :: i <= j < |h| ==> hits(j).None?
    ensures SubOnceFrom(h, hits, text, i) == h[i..]
    decreases |h| - i
  {
    if i < |h| {
      SubOnceNone(h, hits, text, i + 1);
      assert h[i..] == [h[i]] + h[i + 1..];
    }
  }

  /** The first match, at j, is rewritten and everything else is kept. */
  lemma SubOnceFirst(h: string, hits: nat -> Option<Hit>, text: string, i: nat, j: nat, m: Hit)
    requires i <= j < |h| && HitsWithin(h, hits, i) && hits(j) == Some(m)
    requires forall k :: i <= k < j ==> hits(k).None?
    ensures SubOnceFrom(h, hits, text, i) == h[i..m.keep] + text + h[m.close..]
  {
    SubOnceSkip(h, hits, text, i, j);
    SubOnceAt(h, hits, text, j, m);
    assert h[i..j] + h[j..m.keep] == h[i..m.keep];
  }

  lemma SubOnceAt(h: string, hits: nat -> Option<Hit>, text: string, i: nat, m: Hit)
    requires i < |h| && HitsWithin(h, hits, i) && hits(i) == Some(m)
    ensures SubOnceFrom(h, hits, text, i) == h[i..m.keep] + text + h[m.close..]
  {
  }

  /** Positions where no match starts are copied through and the scan moves on. */
  lemma {:induction false} SubOnceSkip(h: string, hits: nat -> Option<Hit>, text: string, i: nat, k: nat)
    requires i <= k <= |h| && HitsWithin(h, hits, i)
    requires forall j :: i <= j < k ==> hits(j).None?
    ensures HitsWithin(h, hits, k)
    ensures SubOnceFrom(h, hits, text, i) == h[i..k] + SubOnceFrom(h, hits, text, k)
    decreases k - i
  {
    if i < k {
      SubOnceSkip(h, hits, text, i + 1, k);
      assert h[i..k] == [h[i]] + h[i + 1..k];
    }
  }

  /**
   * `(.+)$` at the start of t: the characters up to the first newline, which
   * must be the end of t or its last character.
   */
  function LineEnd(t: string): (r: Option<string>)
    ensures r.Some? ==> |r.value| > 0 && '\n' !in r.value && (t == r.value || t == r.value + "\n")
  {
    var m := FirstFrom(t, '\n', 0);
    FirstFromSpec(t, '\n', 0);
    if m == 0 then None
    else if m == |t| then
      assert t[..m] == t;
      Some(t)
    else if m + 1 == |t| then
      assert t == t[..m] + "\n";
      Some(t[..m])
    else None
  }

  /**
   * `\s*(.+)$` with at least `least` spaces, trying the spaces from the
   * longest run down, as the backtracking matcher does: the group of the
   * first split that matches.
   */
  function SpacedGroup(r: string, k: nat, least: nat): Option<string>
    requires k <= |r|
    decreases k
  {
    if k < least then None
    else
      var g := LineEnd(r[k..]);
      if g.Some? || k == least then g else SpacedGroup(r, k - 1, least)
  }

  function SpaceGroup(r: string, least: nat): Option<string> {
    SpacedGroup(r, LeadingCount(r, IsPySpace), least)
  }

  /** On text without a newline after its spaces, the group is all that follows the spaces. */
  lemma SpaceGroupOf(r: string, least: nat)
    requires least <= LeadingCount(r, IsPySpace) < |r|
    requires '\n' !in r[LeadingCount(r, IsPySpace)..]
    ensures SpaceGroup(r, least) == Some(r[LeadingCount(r, IsPySpace)..])
  {
    var t := r[LeadingCount(r, IsPySpace)..];
    FirstFromNone(t, '\n', 0);
  }

  /** Too few spaces: no match. */
  lemma SpaceGroupShort(r: string, least: nat)
    requires LeadingCount(r, IsPySpace) < least
    ensures SpaceGroup(r, least) == None
  {
  }
}
