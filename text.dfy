/**
 * String helpers shared by the Go tool and the Python scripts: whitespace
 * trimming, substring search, literal replace-all, decimal formatting and
 * parsing, line splitting and joining, and the two escapes the generators use.
 * Strings are sequences of Unicode scalar values; Go's byte-level view of
 * UTF-8 is not modelled (see README).
 */
module Text {
  import opened Wrappers

  // ---------------------------------------------------------------------
  // Whitespace and trimming
  // ---------------------------------------------------------------------

  /** Go's unicode.IsSpace, which strings.TrimSpace uses. */
  predicate IsGoSpace(c: char) {
    c == ' ' || c == '\t' || c == '\n' || c == '\r' || c == '\U{B}' || c == '\U{C}'
    || c == '\U{85}' || c == '\U{A0}' || c == '\U{1680}' || ('\U{2000}' <= c <= '\U{200A}')
    || c == '\U{2028}' || c == '\U{2029}' || c == '\U{202F}' || c == '\U{205F}' || c == '\U{3000}'
  }

  /** Python's str.isspace, which str.strip() and the regex class \s use. */
  predicate IsPySpace(c: char) {
    IsGoSpace(c) || ('\U{1C}' <= c <= '\U{1F}')
  }

  /** How many characters at the front of `s` satisfy `sp`. */
  function LeadingCount(s: string, sp: char -> bool): (n: nat)
    ensures n <= |s|
  {
    if s == [] || !sp(s[0]) then 0 else 1 + LeadingCount(s[1..], sp)
  }

  /** The counted front is all `sp`, and the character after it is not. */
  lemma {:induction false} LeadingCountSpec(s: string, sp: char -> bool)
    ensures forall i :: 0 <= i < LeadingCount(s, sp) ==> sp(s[i])
    ensures LeadingCount(s, sp) < |s| ==> !sp(s[LeadingCount(s, sp)])
  {
    if s != [] && sp(s[0]) {
      LeadingCountSpec(s[1..], sp);
      forall i | 0 < i < LeadingCount(s, sp) ensures sp(s[i]) {
        assert s[i] == s[1..][i - 1];
      }
    }
  }

  /** A run of `sp` characters followed by one that is not is counted exactly. */
  lemma {:induction false} LeadingCountOf(p: string, rest: string, sp: char -> bool)
    requires forall i :: 0 <= i < |p| ==> sp(p[i])
    requires rest == [] || !sp(rest[0])
    ensures LeadingCount(p + rest, sp) == |p|
  {
    if p != [] {
      assert (p + rest)[1..] == p[1..] + rest;
      LeadingCountOf(p[1..], rest, sp);
    }
  }

  /** A count that stops inside s is unchanged by what follows s. */
  lemma {:induction false} LeadingCountPrefix(s: string, rest: string, sp: char -> bool)
    requires LeadingCount(s, sp) < |s|
    ensures LeadingCount(s + rest, sp) == LeadingCount(s, sp)
  {
    if sp(s[0]) {
      assert (s + rest)[1..] == s[1..] + rest;
      LeadingCountPrefix(s[1..], rest, sp);
    }
  }

  /** How many characters at the end of `s` satisfy `sp`. */
  function TrailingCount(s: string, sp: char -> bool): (n: nat)
    ensures n <= |s|
  {
    if s == [] || !sp(s[|s| - 1]) then 0 else 1 + TrailingCount(s[..|s| - 1], sp)
  }

  /** The counted tail is all `sp`, and the character before it is not. */
  lemma {:induction false} TrailingCountSpec(s: string, sp: char -> bool)
    ensures forall i :: |s| - TrailingCount(s, sp) <= i < |s| ==> sp(s[i])
    ensures TrailingCount(s, sp) < |s| ==> !sp(s[|s| - TrailingCount(s, sp) - 1])
  {
    if s != [] && sp(s[|s| - 1]) {
      TrailingCountSpec(s[..|s| - 1], sp);
      forall i | |s| - TrailingCount(s, sp) <= i < |s| - 1 ensures sp(s[i]) {
        assert s[i] == s[..|s| - 1][i];
      }
    }
  }

  function TrimLeftBy(s: string, sp: char -> bool): (r: string) {
    s[LeadingCount(s, sp)..]
  }

  function TrimRightBy(s: string, sp: char -> bool): (r: string) {
    s[..|s| - TrailingCount(s, sp)]
  }

  function TrimBy(s: string, sp: char -> bool): (r: string)
    ensures |r| <= |s|
  {
    TrimRightBy(TrimLeftBy(s, sp), sp)
  }

  /** The trimmed text neither starts nor ends with a space. */
  lemma TrimBySpec(s: string, sp: char -> bool)
    ensures var r := TrimBy(s, sp); r != [] ==> !sp(r[0]) && !sp(r[|r| - 1])
  {
    var l := TrimLeftBy(s, sp);
    LeadingCountSpec(s, sp);
    TrailingCountSpec(l, sp);
  }

  /** strings.TrimSpace */
  function GoTrim(s: string): string { TrimBy(s, IsGoSpace) }

  /** str.strip() */
  function PyStrip(s: string): string { TrimBy(s, IsPySpace) }

  /** A string that has no leading or trailing space is its own trim. */
  lemma TrimOfTrimmed(s: string, sp: char -> bool)
    requires s == [] || (!sp(s[0]) && !sp(s[|s| - 1]))
    ensures TrimBy(s, sp) == s
  {
  }

  /** Trimming spaces put in front of a trimmed text gives the text. */
  lemma TrimAfterSpaces(pre: string, w: string, sp: char -> bool)
    requires forall i :: 0 <= i < |pre| ==> sp(pre[i])
    requires w == [] || (!sp(w[0]) && !sp(w[|w| - 1]))
    ensures TrimBy(pre + w, sp) == w
  {
    LeadingCountOf(pre, w, sp);
    assert (pre + w)[|pre|..] == w;
    TrimOfTrimmed(w, sp);
  }

  // ---------------------------------------------------------------------
  // Prefixes, suffixes and substring search
  // ---------------------------------------------------------------------

  predicate StartsWith(s: string, p: string) {
    |p| <= |s| && s[..|p|] == p
  }

  predicate EndsWith(s: string, p: string) {
    |p| <= |s| && s[|s| - |p|..] == p
  }

  /** p occurs in s starting at position i. */
  predicate OccursAt(s: string, p: string, i: int) {
    0 <= i && i + |p| <= |s| && s[i..i + |p|] == p
  }

  /** First occurrence of p in s at or after position i, or -1. */
  function IndexFrom(s: string, p: string, i: nat): (r: int)
    requires i <= |s|
    ensures r == -1 || i <= r <= |s| - |p|
    decreases |s| - i
  {
    if i + |p| > |s| then -1
    else if s[i..i + |p|] == p then i
    else IndexFrom(s, p, i + 1)
  }

  /** IndexFrom finds an occurrence with none between i and it, or there is none after i. */
  lemma {:induction false} IndexFromSpec(s: string, p: string, i: nat)
    requires i <= |s|
    ensures IndexFrom(s, p, i) == -1 || OccursAt(s, p, IndexFrom(s, p, i))
    ensures IndexFrom(s, p, i) == -1 ==> forall j :: i <= j ==> !OccursAt(s, p, j)
    ensures IndexFrom(s, p, i) != -1 ==> forall j :: i <= j < IndexFrom(s, p, i) ==> !OccursAt(s, p, j)
    decreases |s| - i
  {
    if i + |p| <= |s| && s[i..i + |p|] != p {
      IndexFromSpec(s, p, i + 1);
    }
  }

  /** strings.Index / str.find: the first occurrence of p in s, or -1. */
  function IndexOf(s: string, p: string): (r: int)
    ensures r == -1 || 0 <= r <= |s| - |p|
  {
    IndexFrom(s, p, 0)
  }

  /** IndexOf finds the first occurrence, and -1 means there is none. */
  lemma IndexOfSpec(s: string, p: string)
    ensures IndexOf(s, p) == -1 || OccursAt(s, p, IndexOf(s, p))
    ensures IndexOf(s, p) == -1 <==> forall j :: !OccursAt(s, p, j)
    ensures IndexOf(s, p) != -1 ==> forall j :: j < IndexOf(s, p) ==> !OccursAt(s, p, j)
  {
    IndexFromSpec(s, p, 0);
  }

  /** The first position at or after i that holds c, or |s|. */
  function FirstFrom(s: string, c: char, i: nat): (r: nat)
    requires i <= |s|
    ensures i <= r <= |s|
    decreases |s| - i
  {
    if i == |s| || s[i] == c then i else FirstFrom(s, c, i + 1)
  }

  lemma {:induction false} FirstFromSpec(s: string, c: char, i: nat)
    requires i <= |s|
    ensures forall j :: i <= j < FirstFrom(s, c, i) ==> s[j] != c
    ensures FirstFrom(s, c, i) < |s| ==> s[FirstFrom(s, c, i)] == c
    decreases |s| - i
  {
    if i < |s| && s[i] != c {
      FirstFromSpec(s, c, i + 1);
    }
  }

  /** No c in [i, k) and c at k, or k the end: k is the first c from i. */
  lemma FirstFromIs(s: string, c: char, i: nat, k: nat)
    requires i <= k <= |s|
    requires forall j :: i <= j < k ==> s[j] != c
    requires k < |s| ==> s[k] == c
    ensures FirstFrom(s, c, i) == k
  {
    FirstFromSpec(s, c, i);
  }

  /** p placed after u occurs right there. */
  lemma OccursMiddle(u: string, p: string, v: string)
    ensures OccursAt(u + p + v, p, |u|)
  {
    assert (u + p + v)[|u|..|u| + |p|] == p;
  }

  /** Scanning past u for c stops at the first c after w when w holds none. */
  lemma FirstAfter(u: string, w: string, v: string, c: char)
    requires c !in w && |v| > 0 && v[0] == c
    ensures FirstFrom(u + w + v, c, |u|) == |u| + |w|
  {
    var s := u + w + v;
    forall j | |u| <= j < |u| + |w| ensures s[j] != c {
      assert s[j] == w[j - |u|];
    }
    FirstFromIs(s, c, |u|, |u| + |w|);
  }

  /** p placed at the end of u occurs right there. */
  lemma OccursEnd(u: string, p: string)
    ensures OccursAt(u + p, p, |u|)
  {
    assert (u + p)[|u|..|u| + |p|] == p;
  }

  /** An occurrence stays where it is when text is appended. */
  lemma OccursExtend(a: string, b: string, p: string, k: int)
    requires OccursAt(a, p, k)
    ensures OccursAt(a + b, p, k)
  {
    assert (a + b)[k..k + |p|] == a[k..k + |p|];
  }

  /** A c found inside a is found there when text is appended. */
  lemma {:induction false} FirstFromPrefix(a: string, b: string, c: char, i: nat)
    requires i <= |a| && FirstFrom(a, c, i) < |a|
    ensures FirstFrom(a + b, c, i) == FirstFrom(a, c, i)
    decreases |a| - i
  {
    assert (a + b)[i] == a[i];
    if a[i] != c {
      FirstFromPrefix(a, b, c, i + 1);
    }
  }

  /** Concatenation regrouped. */
  lemma Regroup(x: string, t: string, l: string, p: string)
    ensures x + t + (l + p) == x + t + l + p
  {
  }

  /** a then b placed after pre occur together right there. */
  lemma OccursPair(pre: string, a: string, b: string)
    ensures OccursAt(pre + a + b, a + b, |pre|)
  {
    assert (pre + a + b)[|pre|..|pre| + |a + b|] == a + b;
  }

  /** A longer concatenation regrouped. */
  lemma Regroup5(x: string, t: string, u: string, v: string, w: string, p: string)
    ensures x + t + (u + v + w + p) == x + t + u + v + w + p
  {
  }

  /** The head of a + b up to a point inside a. */
  lemma TakeAppend(a: string, b: string, n: nat)
    requires n <= |a|
    ensures (a + b)[..n] == a[..n]
  {
  }

  /** The tail of a + b from inside a. */
  lemma DropAppend(a: string, b: string, n: nat)
    requires n <= |a|
    ensures (a + b)[n..] == a[n..] + b
  {
  }

  /** Scanning u + w from inside w is scanning w, shifted by |u|. */
  lemma {:induction false} FirstFromShift(u: string, w: string, c: char, k: nat)
    requires k <= |w|
    ensures FirstFrom(u + w, c, |u| + k) == |u| + FirstFrom(w, c, k)
    decreases |w| - k
  {
    if k < |w| {
      assert (u + w)[|u| + k] == w[k];
      if w[k] != c {
        FirstFromShift(u, w, c, k + 1);
      }
    }
  }

  /** A scan that finds no c in u goes on into w. */
  lemma {:induction false} FirstFromJoin(u: string, w: string, c: char, i: nat)
    requires i <= |u| && FirstFrom(u, c, i) == |u|
    ensures FirstFrom(u + w, c, i) == |u| + FirstFrom(w, c, 0)
    decreases |u| - i
  {
    if i == |u| {
      FirstFromShift(u, w, c, 0);
    } else {
      assert (u + w)[i] == u[i];
      FirstFromJoin(u, w, c, i + 1);
    }
  }

  /** Without c the scan runs to the end. */
  lemma FirstFromNone(w: string, c: char, i: nat)
    requires i <= |w| && c !in w
    ensures FirstFrom(w, c, i) == |w|
  {
    FirstFromIs(w, c, i, |w|);
  }

  /** An occurrence inside [lo, hi) is an occurrence in that slice. */
  lemma OccursIn(s: string, lo: nat, hi: nat, p: string, j: int)
    requires lo <= j && j + |p| <= hi <= |s| && OccursAt(s, p, j)
    ensures OccursAt(s[lo..hi], p, j - lo)
  {
    SliceOfSlice(s, lo, hi, j - lo, j - lo + |p|);
  }

  /** What a slice contains, a longer slice from the same start contains. */
  lemma ContainsWiden(s: string, lo: nat, mid: nat, hi: nat, p: string)
    requires lo <= mid <= hi <= |s| && Contains(s[lo..mid], p)
    ensures Contains(s[lo..hi], p)
  {
    ContainsIff(s[lo..mid], p);
    var m :| OccursAt(s[lo..mid], p, m);
    SliceOfSlice(s, lo, mid, m, m + |p|);
    OccursIn(s, lo, hi, p, lo + m);
    OccursContains(s[lo..hi], p, m);
  }

  /** A string that contains p + q contains p. */
  lemma ContainsPrefix(s: string, p: string, q: string)
    requires Contains(s, p + q)
    ensures Contains(s, p)
  {
    ContainsIff(s, p + q);
    var m :| OccursAt(s, p + q, m);
    assert s[m..m + |p|] == s[m..m + |p + q|][..|p|];
    OccursContains(s, p, m);
  }

  /** A slice of a slice is a slice of the whole. */
  lemma SliceOfSlice(s: string, a: nat, b: nat, c: nat, d: nat)
    requires a <= b <= |s| && c <= d <= b - a
    ensures s[a..b][c..d] == s[a + c..a + d]
  {
    var u := s[a..b][c..d];
    var v := s[a + c..a + d];
    assert forall i :: 0 <= i < |u| ==> u[i] == s[a + c + i] == v[i];
  }

  /** strings.Contains / Python's `in` on strings. */
  predicate Contains(s: string, p: string) {
    IndexOf(s, p) >= 0
  }

  lemma ContainsIff(s: string, p: string)
    ensures Contains(s, p) <==> exists j :: OccursAt(s, p, j)
  {
    IndexOfSpec(s, p);
  }

  /** An occurrence at a known position makes s contain p. */
  lemma OccursContains(s: string, p: string, i: int)
    requires OccursAt(s, p, i)
    ensures Contains(s, p)
  {
    IndexOfSpec(s, p);
  }

  /** Go's `<` on strings: lexicographic order of the characters. */
  predicate StringLess(a: string, b: string) {
    if a == [] then b != []
    else if b == [] then false
    else if a[0] != b[0] then a[0] < b[0]
    else StringLess(a[1..], b[1..])
  }

  // ---------------------------------------------------------------------
  // Literal replace-all and character-wise rewriting
  // ---------------------------------------------------------------------

  /** The concatenation of f(c) for every character c of s. */
  function Flat(s: string, f: char -> string): string {
    if s == [] then [] else f(s[0]) + Flat(s[1..], f)
  }

  lemma {:induction false} FlatAppend(a: string, b: string, f: char -> string)
    ensures Flat(a + b, f) == Flat(a, f) + Flat(b, f)
  {
    if a != [] {
      assert (a + b)[0] == a[0] && (a + b)[1..] == a[1..] + b;
      calc {
        Flat(a + b, f);
        f(a[0]) + Flat(a[1..] + b, f);
        { FlatAppend(a[1..], b, f); }
        f(a[0]) + (Flat(a[1..], f) + Flat(b, f));
      }
    } else {
      assert a + b == b;
    }
  }

  /**
   * strings.ReplaceAll / str.replace: every non-overlapping occurrence of
   * `from`, scanning left to right, is replaced by `to`. An empty `from`
   * inserts `to` before every character and at the end, as both languages do.
   */
  function ReplaceAll(s: string, from: string, to: string): string
    decreases |s|
  {
    if |from| == 0 then to + Flat(s, c => [c] + to)
    else if |s| < |from| then s
    else if s[..|from|] == from then to + ReplaceAll(s[|from|..], from, to)
    else [s[0]] + ReplaceAll(s[1..], from, to)
  }

  /** Replacing a pattern that does not occur leaves the text alone. */
  lemma {:induction false} ReplaceAllAbsent(s: string, from: string, to: string)
    requires |from| > 0
    requires forall j :: !OccursAt(s, from, j)
    ensures ReplaceAll(s, from, to) == s
  {
    if |s| >= |from| {
      assert !OccursAt(s, from, 0);
      forall j | 0 <= j ensures !OccursAt(s[1..], from, j) {
        if j + |from| <= |s| - 1 {
          assert s[1..][j..j + |from|] == s[j + 1..j + 1 + |from|];
          assert !OccursAt(s, from, j + 1);
        }
      }
      ReplaceAllAbsent(s[1..], from, to);
    }
  }

  /** A text that is exactly `from` becomes `to`. */
  lemma ReplaceAllWhole(from: string, to: string)
    requires |from| > 0
    ensures ReplaceAll(from, from, to) == to
  {
    assert from[..|from|] == from && from[|from|..] == [];
    assert to + [] == to;
  }

  /** Replacing a pattern by itself leaves the text alone. */
  lemma {:induction false} ReplaceAllSelf(s: string, p: string)
    requires |p| > 0
    ensures ReplaceAll(s, p, p) == s
  {
    if |s| >= |p| {
      if s[..|p|] == p {
        ReplaceAllSelf(s[|p|..], p);
        assert s == p + s[|p|..];
      } else {
        ReplaceAllSelf(s[1..], p);
        assert s == [s[0]] + s[1..];
      }
    }
  }

  /** Replacing a single character is a character-wise rewrite. */
  lemma {:induction false} ReplaceCharIsFlat(s: string, c: char, to: string)
    ensures ReplaceAll(s, [c], to) == Flat(s, x => if x == c then to else [x])
  {
    if s != [] {
      ReplaceCharIsFlat(s[1..], c, to);
    }
  }

  /** Rewriting each character to itself gives the text back. */
  lemma {:induction false} FlatSingletons(s: string, f: char -> string)
    requires forall c :: f(c) == [c]
    ensures Flat(s, f) == s
  {
    if s != [] {
      FlatSingletons(s[1..], f);
      assert s == [s[0]] + s[1..];
    }
  }

  /**
   * A token t of a character-wise rewrite is a unit for replacing `from` when
   * the left-to-right scan can only meet `from` as the whole token: t is
   * `from` itself, or `from`'s first character is not in t, or t starts with
   * that character, never repeats it, and differs from `from` inside t.
   */
  ghost predicate Unit(t: string, from: string) {
    |from| > 0 &&
    (t == from
     || from[0] !in t
     || (|t| > 0 && t[0] == from[0] && from[0] !in t[1..]
         && exists k :: 0 < k < |t| && k < |from| && t[k] != from[k]))
  }

  /** Scanning past a stretch that holds no first character of `from`. */
  lemma {:induction false} ReplaceAllSkip(t: string, rest: string, from: string, to: string)
    requires |from| > 0 && from[0] !in t
    ensures ReplaceAll(t + rest, from, to) == t + ReplaceAll(rest, from, to)
  {
    if t != [] {
      var s := t + rest;
      assert s[0] == t[0];
      assert |s| >= |from| ==> s[..|from|][0] != from[0];
      assert s[1..] == t[1..] + rest;
      ReplaceAllSkip(t[1..], rest, from, to);
    } else {
      assert t + rest == rest;
    }
  }

  /** Replace-all treats a unit token as a whole. */
  lemma ReplaceAllUnit(t: string, rest: string, from: string, to: string)
    requires Unit(t, from)
    ensures ReplaceAll(t + rest, from, to) == (if t == from then to else t) + ReplaceAll(rest, from, to)
  {
    if t == from {
      var s := t + rest;
      assert s[..|from|] == from && s[|from|..] == rest;
    } else if from[0] !in t {
      ReplaceAllSkip(t, rest, from, to);
    } else {
      var k :| 0 < k < |t| && k < |from| && t[k] != from[k];
      ReplaceAllMismatch(t, rest, from, to, k);
    }
  }

  /** A token that starts like `from` but departs from it is scanned past. */
  lemma ReplaceAllMismatch(t: string, rest: string, from: string, to: string, k: nat)
    requires |from| > 0 && |t| > 0 && t[0] == from[0] && from[0] !in t[1..]
    requires 0 < k < |t| && k < |from| && t[k] != from[k]
    ensures ReplaceAll(t + rest, from, to) == t + ReplaceAll(rest, from, to)
  {
    var s := t + rest;
    if |s| < |from| {
      assert ReplaceAll(rest, from, to) == rest;
      assert ReplaceAll(s, from, to) == s;
    } else {
      assert s[..|from|] != from by {
        assert s[..|from|][k] == t[k];
      }
      ReplaceAllPast(s, from, to);
      var u := ReplaceAll(rest, from, to);
      assert s[1..] == t[1..] + rest;
      ReplaceAllSkip(t[1..], rest, from, to);
      assert ReplaceAll(s, from, to) == [t[0]] + (t[1..] + u);
      assert [t[0]] + (t[1..] + u) == t + u;
    }
  }

  /** Where `from` does not start the text, its first character is kept. */
  lemma ReplaceAllPast(s: string, from: string, to: string)
    requires 0 < |from| <= |s| && s[..|from|] != from
    ensures ReplaceAll(s, from, to) == [s[0]] + ReplaceAll(s[1..], from, to)
  {
  }

  /**
   * Replacing `from` in a character-wise rewrite whose tokens (for the
   * characters that occur) are units is again a character-wise rewrite: g
   * turns the tokens equal to `from` into `to` and keeps the others.
   */
  lemma {:induction false} ReplaceAllFlat(s: string, f: char -> string, g: char -> string, from: string, to: string)
    requires |from| > 0
    requires forall c :: c in s ==> Unit(f(c), from)
    requires forall c :: c in s ==> g(c) == (if f(c) == from then to else f(c))
    ensures ReplaceAll(Flat(s, f), from, to) == Flat(s, g)
  {
    if s != [] {
      assert s[0] in s;
      ReplaceAllUnit(f(s[0]), Flat(s[1..], f), from, to);
      ReplaceAllFlat(s[1..], f, g, from, to);
    }
  }

  /**
   * p placed at offset d against t (p[i] over t[i + d]) agrees with t
   * wherever the two overlap.
   */
  ghost predicate Agrees(p: string, t: string, d: int) {
    forall i :: 0 <= i < |p| && 0 <= i + d < |t| ==> p[i] == t[i + d]
  }

  /** p and t cannot be laid over each other at any offset where they meet. */
  ghost predicate Disjoint(p: string, t: string) {
    forall d :: -|p| < d < |t| ==> !Agrees(p, t, d)
  }

  lemma AgreesSym(p: string, t: string, d: int)
    ensures Agrees(p, t, d) <==> Agrees(t, p, -d)
  {
    if Agrees(p, t, d) {
      forall j | 0 <= j < |t| && 0 <= j - d < |p| ensures t[j] == p[j - d] {
        assert p[j - d] == t[(j - d) + d];
      }
    }
    if Agrees(t, p, -d) {
      forall i | 0 <= i < |p| && 0 <= i + d < |t| ensures p[i] == t[i + d] {
        assert t[i + d] == p[(i + d) - d];
      }
    }
  }

  lemma DisjointSym(p: string, t: string)
    requires Disjoint(t, p)
    ensures Disjoint(p, t)
  {
    forall d | -|p| < d < |t| ensures !Agrees(p, t, d) {
      AgreesSym(p, t, d);
    }
  }

  /** An occurrence in a suffix is an occurrence in the whole text. */
  lemma OccursShift(s: string, k: nat, p: string, m: int)
    requires k <= |s| && OccursAt(s[k..], p, m)
    ensures OccursAt(s, p, m + k)
  {
    assert s[m + k..m + k + |p|] == s[k..][m..m + |p|];
  }

  /**
   * A prefix of the rest of p seen at the front of a replaced text is at
   * the front of the original text, unless p overlaps a copy of `to`.
   */
  lemma {:induction false} ReplaceAllHead(s: string, from: string, to: string, p: string, k: nat)
    requires |from| > 0 && |to| > 0 && k <= |p|
    requires OccursAt(ReplaceAll(s, from, to), p[k..], 0)
    ensures OccursAt(s, p[k..], 0) || exists d :: -|p| < d < |to| && Agrees(p, to, d)
    decreases |p| - k
  {
    var r := ReplaceAll(s, from, to);
    if k < |p| && |s| >= |from| {
      if s[..|from|] == from {
        assert r == to + ReplaceAll(s[|from|..], from, to);
        forall i | 0 <= i < |p| && 0 <= i - k < |to| ensures p[i] == to[i - k] {
          assert p[i] == p[k..][i - k] == r[i - k];
        }
        assert Agrees(p, to, -(k as int));
      } else {
        ReplaceAllPast(s, from, to);
        var u := ReplaceAll(s[1..], from, to);
        assert r == [s[0]] + u;
        assert p[k..][1..] == p[k + 1..];
        assert OccursAt(u, p[k + 1..], 0) by {
          assert u[..|p| - k - 1] == r[1..|p| - k];
        }
        ReplaceAllHead(s[1..], from, to, p, k + 1);
        if OccursAt(s[1..], p[k + 1..], 0) {
          assert s[..|p| - k] == [s[0]] + s[1..][..|p| - k - 1];
          assert p[k..] == [p[k]] + p[k + 1..];
        }
      }
    }
  }

  /**
   * An occurrence of p in a replaced text was already in the original, and
   * is not `from` itself, unless p overlaps a copy of `to`.
   */
  lemma {:induction false} ReplaceAllOccurrence(s: string, from: string, to: string, p: string, j: int)
    requires |from| > 0 && |to| > 0 && |p| > 0
    requires OccursAt(ReplaceAll(s, from, to), p, j)
    ensures (p != from && exists m :: OccursAt(s, p, m)) || exists d :: -|p| < d < |to| && Agrees(p, to, d)
    decreases |s|
  {
    var r := ReplaceAll(s, from, to);
    if |s| < |from| {
      assert OccursAt(s, p, j);
    } else if s[..|from|] == from {
      var u := ReplaceAll(s[|from|..], from, to);
      assert r == to + u;
      if j < |to| {
        forall i | 0 <= i < |p| && 0 <= i + j < |to| ensures p[i] == to[i + j] {
          assert p[i] == r[j..j + |p|][i] == r[i + j];
        }
        assert Agrees(p, to, j);
      } else {
        assert u[j - |to|..j - |to| + |p|] == r[j..j + |p|];
        ReplaceAllOccurrence(s[|from|..], from, to, p, j - |to|);
        if exists m :: OccursAt(s[|from|..], p, m) {
          var m :| OccursAt(s[|from|..], p, m);
          OccursShift(s, |from|, p, m);
        }
      }
    } else {
      ReplaceAllPast(s, from, to);
      var u := ReplaceAll(s[1..], from, to);
      assert r == [s[0]] + u;
      if j == 0 {
        assert p[0..] == p;
        ReplaceAllHead(s, from, to, p, 0);
        if OccursAt(s, p, 0) {
          assert s[..|p|] == p;
        }
      } else {
        assert u[j - 1..j - 1 + |p|] == r[j..j + |p|];
        ReplaceAllOccurrence(s[1..], from, to, p, j - 1);
        if exists m :: OccursAt(s[1..], p, m) {
          var m :| OccursAt(s[1..], p, m);
          OccursShift(s, 1, p, m);
        }
      }
    }
  }

  /**
   * Replacing `from` by a `to` that p cannot overlap creates no new
   * occurrence of p, and leaves none of `from` when `from` cannot overlap `to`.
   */
  lemma ReplaceAllNoNew(s: string, from: string, to: string, p: string)
    requires |from| > 0 && |to| > 0 && |p| > 0 && Disjoint(p, to)
    ensures Contains(ReplaceAll(s, from, to), p) ==> Contains(s, p) && p != from
  {
    var r := ReplaceAll(s, from, to);
    ContainsIff(r, p);
    ContainsIff(s, p);
    if Contains(r, p) {
      var j :| OccursAt(r, p, j);
      ReplaceAllOccurrence(s, from, to, p, j);
    }
  }

  // ---------------------------------------------------------------------
  // Decimal digits
  // ---------------------------------------------------------------------

  predicate IsDigit(c: char) { '0' <= c <= '9' }

  predicate AllDigits(s: string) { forall i :: 0 <= i < |s| ==> IsDigit(s[i]) }

  function DigitChar(d: nat): (c: char)
    requires d < 10
    ensures IsDigit(c)
  {
    ('0' as int + d) as char
  }

  function DigitValue(c: char): (d: nat)
    requires IsDigit(c)
    ensures d < 10 && DigitChar(d) == c
  {
    (c as int - '0' as int) as nat
  }

  /** The value of a string of decimal digits (leading zeros allowed). */
  function DigitsValue(s: string): nat
    requires AllDigits(s)
  {
    if s == [] then 0 else 10 * DigitsValue(s[..|s| - 1]) + DigitValue(s[|s| - 1])
  }

  /** strconv.Itoa / str() of a natural number. */
  function NatToString(n: nat): (r: string)
    ensures |r| > 0 && AllDigits(r)
    ensures |r| > 1 ==> r[0] != '0'
  {
    if n < 10 then [DigitChar(n)] else NatToString(n / 10) + [DigitChar(n % 10)]
  }

  /** strconv.Itoa / str() / %d of any integer. */
  function IntToString(n: int): string {
    if n < 0 then "-" + NatToString(-n) else NatToString(n)
  }

  /** Parsing the decimal form of n gives n back. */
  lemma {:induction false} NatToStringValue(n: nat)
    ensures DigitsValue(NatToString(n)) == n
  {
    if n >= 10 {
      var r := NatToString(n);
      assert r[..|r| - 1] == NatToString(n / 10);
      NatToStringValue(n / 10);
    }
  }

  /** Distinct numbers have distinct decimal forms. */
  lemma NatToStringInjective(a: nat, b: nat)
    requires NatToString(a) == NatToString(b)
    ensures a == b
  {
    NatToStringValue(a);
    NatToStringValue(b);
  }

  /** A leading zero does not change the value of a digit string. */
  lemma {:induction false} DigitsValueLeadingZero(s: string)
    requires AllDigits(s)
    ensures AllDigits("0" + s) && DigitsValue("0" + s) == DigitsValue(s)
  {
    if s != [] {
      assert ("0" + s)[..|"0" + s| - 1] == "0" + s[..|s| - 1];
      DigitsValueLeadingZero(s[..|s| - 1]);
    }
  }

  /** `%02d` in Go and `:02d` in Python: at least two characters, zero-padded. */
  function Pad2(n: int): (r: string)
    ensures |r| >= 2
  {
    if n < 0 then "-" + NatToString(-n)
    else if n < 10 then "0" + NatToString(n)
    else NatToString(n)
  }

  /** A non-negative number survives zero-padding and parsing back. */
  lemma Pad2Value(n: nat)
    ensures AllDigits(Pad2(n)) && DigitsValue(Pad2(n)) == n
  {
    NatToStringValue(n);
    if n < 10 {
      DigitsValueLeadingZero(NatToString(n));
    }
  }

  /** The number of decimal digits s starts with. */
  function DigitRun(s: string): (n: nat)
    ensures n <= |s| && AllDigits(s[..n]) && (n < |s| ==> !IsDigit(s[n]))
  {
    if s == [] || !IsDigit(s[0]) then 0
    else
      var n := 1 + DigitRun(s[1..]);
      assert s[..n] == [s[0]] + s[1..][..n - 1];
      n
  }

  /** Digits followed by a non-digit are read up to the non-digit. */
  lemma {:induction false} DigitRunOf(p: string, rest: string)
    requires AllDigits(p) && (rest == [] || !IsDigit(rest[0]))
    ensures DigitRun(p + rest) == |p|
  {
    if p != [] {
      assert (p + rest)[1..] == p[1..] + rest;
      DigitRunOf(p[1..], rest);
    }
  }

  /** The value of s when it is all digits, otherwise None. */
  function ParseDigits(s: string): Option<nat> {
    if s == [] then Some(0)
    else if !IsDigit(s[|s| - 1]) then None
    else
      match ParseDigits(s[..|s| - 1])
      case Some(v) => Some(10 * v + DigitValue(s[|s| - 1]))
      case None => None
  }

  lemma {:induction false} ParseDigitsValue(s: string)
    ensures ParseDigits(s) == if AllDigits(s) then Some(DigitsValue(s)) else None
  {
    if s != [] {
      ParseDigitsValue(s[..|s| - 1]);
      if IsDigit(s[|s| - 1]) && !AllDigits(s[..|s| - 1]) {
        var i :| 0 <= i < |s| - 1 && !IsDigit(s[..|s| - 1][i]);
        assert !IsDigit(s[i]);
      }
    }
  }

  const MinInt64: int := -0x8000_0000_0000_0000
  const MaxInt64: int := 0x7FFF_FFFF_FFFF_FFFF

  /** Go's 64-bit int arithmetic: the exact value taken modulo 2^64 into the int64 range. */
  function WrapInt64(x: int): (r: int)
    ensures MinInt64 <= r <= MaxInt64
    ensures MinInt64 <= x <= MaxInt64 ==> r == x
    ensures (x - r) % 0x1_0000_0000_0000_0000 == 0
  {
    (x - MinInt64) % 0x1_0000_0000_0000_0000 + MinInt64
  }

  /**
   * strconv.Atoi: an optional sign and at least one ASCII digit, within the
   * range of a 64-bit int; anything else is an error (None).
   */
  function GoAtoi(s: string): (r: Option<int>)
    ensures r.Some? ==> -0x8000_0000_0000_0000 <= r.value <= 0x7FFF_FFFF_FFFF_FFFF
  {
    var signed := |s| > 0 && (s[0] == '-' || s[0] == '+');
    var body := if signed then s[1..] else s;
    if |body| == 0 then None
    else
      match ParseDigits(body)
      case None => None
      case Some(d) =>
        var v := if signed && s[0] == '-' then -(d as int) else d as int;
        if v < -0x8000_0000_0000_0000 || v > 0x7FFF_FFFF_FFFF_FFFF then None else Some(v)
  }

  /** Atoi of an unsigned digit string is its value, within the int range. */
  lemma AtoiOfDigits(s: string)
    requires |s| > 0 && AllDigits(s) && DigitsValue(s) <= 0x7FFF_FFFF_FFFF_FFFF
    ensures GoAtoi(s) == Some(DigitsValue(s) as int)
  {
    assert IsDigit(s[0]) && s[0] != '-' && s[0] != '+';
    ParseDigitsValue(s);
    assert ParseDigits(s) == Some(DigitsValue(s));
  }

  /** Atoi reads back what Itoa wrote, within the int range. */
  lemma AtoiOfNat(n: nat)
    requires n <= 0x7FFF_FFFF_FFFF_FFFF
    ensures GoAtoi(NatToString(n)) == Some(n)
  {
    NatToStringValue(n);
    AtoiOfDigits(NatToString(n));
  }

  /** The only numeric strings Atoi accepts carry an optional sign and digits. */
  lemma AtoiRejectsNonNumeric(s: string)
    requires s == [] || (s[0] != '-' && s[0] != '+' && !IsDigit(s[0]))
    ensures GoAtoi(s) == None
  {
    if s != [] {
      ParseDigitsValue(s);
    }
  }

  // ---------------------------------------------------------------------
  // Case mapping
  // ---------------------------------------------------------------------

  /**
   * strings.ToUpper and str.upper() on ASCII and on the Latin-1 small letters
   * (á, é, í, ñ, ó, ú, ...): ÿ and µ map outside Latin-1, ß has no one-letter
   * capital.
   */
  function UpperChar(c: char): char {
    if 'a' <= c <= 'z' || ('\U{E0}' <= c <= '\U{FE}' && c != '\U{F7}') then (c as int - 32) as char
    else if c == '\U{FF}' then '\U{178}'
    else if c == '\U{B5}' then '\U{39C}'
    else c
  }

  function Upper(s: string): (r: string)
    ensures |r| == |s| && forall i :: 0 <= i < |s| ==> r[i] == UpperChar(s[i])
  {
    seq(|s|, i requires 0 <= i < |s| => UpperChar(s[i]))
  }

  /** Upper-casing twice is upper-casing once. */
  lemma UpperIdempotent(s: string)
    ensures Upper(Upper(s)) == Upper(s)
  {
    assert forall i :: 0 <= i < |s| ==> Upper(Upper(s))[i] == Upper(s)[i];
  }

  /** Lower-casing first does not change what upper-casing gives. */
  lemma UpperOfLower(s: string)
    ensures Upper(Lower(s)) == Upper(s)
  {
    assert forall i :: 0 <= i < |s| ==> Upper(Lower(s))[i] == Upper(s)[i];
  }

  /** Without ÿ and µ, whose capitals lie outside Latin-1, upper-casing first does not change what lower-casing gives. */
  lemma LowerOfUpper(s: string)
    requires '\U{FF}' !in s && '\U{B5}' !in s
    ensures Lower(Upper(s)) == Lower(s)
  {
    assert forall i :: 0 <= i < |s| ==> Lower(Upper(s))[i] == Lower(s)[i] by {
      forall i | 0 <= i < |s| ensures Lower(Upper(s))[i] == Lower(s)[i] {
        assert s[i] in s;
      }
    }
  }

  /** str.lower() on ASCII and on the Latin-1 capitals (Á, É, Í, Ñ, Ó, Ú, ...). */
  function LowerChar(c: char): char {
    if 'A' <= c <= 'Z' || ('\U{C0}' <= c <= '\U{DE}' && c != '\U{D7}') then (c as int + 32) as char else c
  }

  function Lower(s: string): (r: string)
    ensures |r| == |s| && forall i :: 0 <= i < |s| ==> r[i] == LowerChar(s[i])
  {
    seq(|s|, i requires 0 <= i < |s| => LowerChar(s[i]))
  }

  // ---------------------------------------------------------------------
  // Sequences
  // ---------------------------------------------------------------------

  /** One more element of a prefix. */
  lemma TakeSnoc<T>(s: seq<T>, i: nat)
    requires i < |s|
    ensures s[..i + 1] == s[..i] + [s[i]]
  {
  }

  /** The parts of a suffix written as four pieces, found back by position. */
  lemma SuffixParts<T>(s: seq<T>, p: nat, w: seq<T>, x: seq<T>, y: seq<T>, z: seq<T>)
    requires p <= |s| && s[p..] == w + x + y + z
    ensures p + |w| + |x| + |y| <= |s|
    ensures s[p..p + |w|] == w
    ensures s[p + |w|..p + |w| + |x|] == x
    ensures s[p + |w| + |x|..p + |w| + |x| + |y|] == y
  {
    var r := s[p..];
    assert forall i :: p <= i < |s| ==> s[i] == r[i - p];
  }

  // ---------------------------------------------------------------------
  // Lines
  // ---------------------------------------------------------------------

  /** str.split(sep) for a one-character separator. */
  function Split(s: string, sep: char): (parts: seq<string>)
    ensures |parts| > 0
    ensures forall k :: 0 <= k < |parts| ==> sep !in parts[k]
    decreases |s|
  {
    var i := FirstFrom(s, sep, 0);
    FirstFromSpec(s, sep, 0);
    assert sep !in s[..i] by {
      forall j | 0 <= j < i ensures s[..i][j] != sep { assert s[..i][j] == s[j]; }
    }
    if i == |s| then [s] else [s[..i]] + Split(s[i + 1..], sep)
  }

  /** sep.join(parts) */
  function Join(parts: seq<string>, sep: string): string {
    if |parts| == 0 then ""
    else if |parts| == 1 then parts[0]
    else parts[0] + sep + Join(parts[1..], sep)
  }

  /** Splitting and joining on the same character gives the text back. */
  lemma {:induction false} JoinSplit(s: string, sep: char)
    ensures Join(Split(s, sep), [sep]) == s
    decreases |s|
  {
    var i := FirstFrom(s, sep, 0);
    FirstFromSpec(s, sep, 0);
    if i < |s| {
      JoinSplit(s[i + 1..], sep);
      assert s == s[..i] + [sep] + s[i + 1..];
    }
  }

  /** A position before which there is no `c` and which holds `c` (or is the end) is FirstFrom's answer. */
  lemma FirstFromUnique(s: string, c: char, r: nat)
    requires r <= |s|
    requires forall j :: 0 <= j < r ==> s[j] != c
    requires r < |s| ==> s[r] == c
    ensures FirstFrom(s, c, 0) == r
  {
    FirstFromSpec(s, c, 0);
  }

  /** The first `c` in `a + rest` is the first of `rest`'s when `a` has none. */
  lemma FirstFromPast(a: string, rest: string, c: char)
    requires c !in a
    ensures FirstFrom(a + rest, c, 0) == |a| + FirstFrom(rest, c, 0)
  {
    var s := a + rest;
    var r := FirstFrom(rest, c, 0);
    FirstFromSpec(rest, c, 0);
    forall j | 0 <= j < |a| + r ensures s[j] != c {
      if j < |a| {
        assert s[j] == a[j];
      } else {
        assert s[j] == rest[j - |a|];
      }
    }
    if |a| + r < |s| {
      assert s[|a| + r] == rest[r];
    }
    FirstFromUnique(s, c, |a| + r);
  }

  /** Splitting a text without the separator gives the text alone. */
  lemma SplitWhole(s: string, sep: char)
    requires sep !in s
    ensures Split(s, sep) == [s]
  {
    FirstFromPast(s, [], sep);
    assert s + [] == s;
  }

  /** Splitting `a + [sep] + rest` when `a` has no separator. */
  lemma SplitFirst(a: string, rest: string, sep: char)
    requires sep !in a
    ensures Split(a + [sep] + rest, sep) == [a] + Split(rest, sep)
  {
    var s := a + [sep] + rest;
    assert s == a + ([sep] + rest);
    FirstFromPast(a, [sep] + rest, sep);
    assert FirstFrom(s, sep, 0) == |a|;
    assert s[..|a|] == a;
    assert s[|a| + 1..] == rest;
  }

  /** Joining parts free of the separator and splitting again gives the parts back. */
  lemma {:induction false} SplitJoin(parts: seq<string>, sep: char)
    requires |parts| > 0
    requires forall k :: 0 <= k < |parts| ==> sep !in parts[k]
    ensures Split(Join(parts, [sep]), sep) == parts
  {
    var a := parts[0];
    assert sep !in a;
    if |parts| == 1 {
      SplitWhole(a, sep);
    } else {
      var rest := Join(parts[1..], [sep]);
      assert Join(parts, [sep]) == a + [sep] + rest;
      SplitFirst(a, rest, sep);
      SplitJoin(parts[1..], sep);
      assert parts == [a] + parts[1..];
    }
  }

  /** Joining one more part onto a non-empty list. */
  lemma {:induction false} JoinSnoc(parts: seq<string>, x: string, sep: string)
    requires |parts| > 0
    ensures Join(parts + [x], sep) == Join(parts, sep) + sep + x
  {
    if |parts| == 1 {
      assert parts + [x] == [parts[0], x];
    } else {
      assert (parts + [x])[1..] == parts[1..] + [x];
      JoinSnoc(parts[1..], x, sep);
    }
  }

  /**
   * fmt.Sprintf with only `%s` verbs (and str.format with only plain
   * fields): the literal pieces with the arguments between them.
   */
  function Format(pieces: seq<string>, args: seq<string>): (r: string)
    requires |pieces| == |args| + 1
    ensures |r| >= |pieces[0]| && r[..|pieces[0]|] == pieces[0]
  {
    if args == [] then pieces[0] else pieces[0] + args[0] + Format(pieces[1..], args[1..])
  }

  /** The k-th argument stands between the k-th and the next piece. */
  lemma {:induction false} FormatAt(pieces: seq<string>, args: seq<string>, k: nat) returns (pre: string, post: string)
    requires |pieces| == |args| + 1 && k < |args|
    ensures Format(pieces, args) == pre + pieces[k] + args[k] + pieces[k + 1] + post
  {
    var rest := Format(pieces[1..], args[1..]);
    if k == 0 {
      pre, post := "", rest[|pieces[1]|..];
      assert rest == pieces[1] + post;
    } else {
      var p, q := FormatAt(pieces[1..], args[1..], k - 1);
      pre, post := pieces[0] + args[0] + p, q;
    }
  }

  /** One argument and its piece taken off the front of a format. */
  lemma FormatFront(pieces: seq<string>, args: seq<string>, k: nat)
    requires |pieces| == |args| + 1 && k < |args|
    ensures Format(pieces[k..], args[k..]) == pieces[k] + args[k] + Format(pieces[k + 1..], args[k + 1..])
  {
    assert pieces[k..][1..] == pieces[k + 1..];
    assert args[k..][1..] == args[k + 1..];
  }

  /** A format with six arguments, written out. */
  lemma Format6(p: seq<string>, args: seq<string>)
    requires |p| == 7 && |args| == 6
    ensures Format(p, args) == p[0] + args[0] + p[1] + args[1] + p[2] + args[2] + p[3] + args[3] + p[4] + args[4]
      + p[5] + args[5] + p[6]
  {
    FormatFront(p, args, 0);
    FormatFront(p, args, 1);
    FormatFront(p, args, 2);
    FormatFront(p, args, 3);
    FormatFront(p, args, 4);
    FormatFront(p, args, 5);
    assert p[0..] == p && args[0..] == args;
    assert Format(p[6..], args[6..]) == p[6];
    Regroup13(p[0], args[0], p[1], args[1], p[2], args[2], p[3], args[3], p[4], args[4], p[5], args[5], p[6]);
  }

  lemma Regroup13(a0: string, a1: string, a2: string, a3: string, a4: string, a5: string, a6: string,
                  a7: string, a8: string, a9: string, a10: string, a11: string, a12: string)
    ensures a0 + a1 + (a2 + a3 + (a4 + a5 + (a6 + a7 + (a8 + a9 + (a10 + a11 + a12)))))
      == a0 + a1 + a2 + a3 + a4 + a5 + a6 + a7 + a8 + a9 + a10 + a11 + a12
  {
  }

  /** The concatenation of a list of strings. */
  function Concat(parts: seq<string>): string {
    if parts == [] then "" else parts[0] + Concat(parts[1..])
  }

  lemma {:induction false} ConcatSnoc(parts: seq<string>, x: string)
    ensures Concat(parts + [x]) == Concat(parts) + x
  {
    if parts != [] {
      assert (parts + [x])[1..] == parts[1..] + [x];
      ConcatSnoc(parts[1..], x);
    }
  }

  // ---------------------------------------------------------------------
  // Escapes
  // ---------------------------------------------------------------------

  function QuoteEscapeChar(c: char): string {
    if c == '"' then "\\\"" else [c]
  }

  /**
   * strings.ReplaceAll(s, `"`, `\"`) in Go and s.replace('"', '\\"') in
   * Python: every double quote gets a backslash in front of it.
   */
  function EscapeQuotes(s: string): string {
    Flat(s, QuoteEscapeChar)
  }

  /** In escaped text every double quote is preceded by a backslash. */
  lemma {:induction false} EscapeQuotesGuarded(s: string)
    ensures forall i :: 0 <= i < |EscapeQuotes(s)| && EscapeQuotes(s)[i] == '"' ==> i > 0 && EscapeQuotes(s)[i - 1] == '\\'
  {
    if s != [] {
      EscapeQuotesGuarded(s[1..]);
      var h := QuoteEscapeChar(s[0]);
      var t := EscapeQuotes(s[1..]);
      assert EscapeQuotes(s) == h + t;
      forall i | 0 <= i < |h + t| && (h + t)[i] == '"' ensures i > 0 && (h + t)[i - 1] == '\\' {
        if i >= |h| {
          assert t[i - |h|] == '"';
          if i - |h| == 0 {
            assert false;
          }
        }
      }
    }
  }

  /** Deleting the backslash in front of every quote undoes EscapeQuotes. */
  lemma {:induction false} UnescapeQuotes(s: string)
    ensures ReplaceAll(EscapeQuotes(s), "\\\"", "\"") == s
  {
    if s != [] {
      UnescapeQuotes(s[1..]);
      var t := EscapeQuotes(s[1..]);
      assert EscapeQuotes(s) == QuoteEscapeChar(s[0]) + t;
      if s[0] == '"' {
        assert ("\\\"" + t)[..2] == "\\\"";
        assert ("\\\"" + t)[2..] == t;
      } else if s[0] == '\\' {
        // The backslash is followed by the escape of the next character,
        // which never starts with a quote.
        assert t == [] || t[0] != '"' by {
          if s[1..] != [] {
            assert t == QuoteEscapeChar(s[1]) + EscapeQuotes(s[2..]);
          }
        }
        assert ([s[0]] + t)[1..] == t;
      } else {
        assert ([s[0]] + t)[1..] == t;
      }
    }
  }

  function HtmlEscapeChar(c: char): string {
    if c == '<' then "&lt;"
    else if c == '>' then "&gt;"
    else if c == '&' then "&amp;"
    else if c == '\'' then "&#39;"
    else if c == '"' then "&#34;"
    else [c]
  }

  /** Go's html.EscapeString: the five markup-significant characters become entities. */
  function HtmlEscape(s: string): string {
    Flat(s, HtmlEscapeChar)
  }

  /** Text without any of the five special characters is left as it is. */
  lemma {:induction false} HtmlEscapePlain(s: string)
    requires forall i :: 0 <= i < |s| ==> s[i] !in {'<', '>', '&', '\'', '"'}
    ensures HtmlEscape(s) == s
  {
    if s != [] {
      HtmlEscapePlain(s[1..]);
      assert s == [s[0]] + s[1..];
    }
  }

  /** Escaping neither empties nor shortens text. */
  lemma {:induction false} HtmlEscapeLength(s: string)
    ensures |HtmlEscape(s)| >= |s|
  {
    if s != [] {
      HtmlEscapeLength(s[1..]);
    }
  }

  /** Escaped text carries no raw markup character. */
  lemma {:induction false} HtmlEscapeNoMarkup(s: string)
    ensures forall i :: 0 <= i < |HtmlEscape(s)| ==> HtmlEscape(s)[i] !in {'<', '>', '"', '\''}
  {
    if s != [] {
      HtmlEscapeNoMarkup(s[1..]);
      assert HtmlEscape(s) == HtmlEscapeChar(s[0]) + HtmlEscape(s[1..]);
    }
  }

  /** Escaping keeps the last character of text that does not end in `=` off `=`. */
  lemma {:induction false} HtmlEscapeEnd(s: string)
    requires s == "" || s[|s| - 1] != '='
    ensures HtmlEscape(s) == "" || HtmlEscape(s)[|HtmlEscape(s)| - 1] != '='
  {
    if s != [] {
      var h := HtmlEscapeChar(s[0]);
      assert HtmlEscape(s) == h + HtmlEscape(s[1..]);
      if |s| == 1 {
        assert HtmlEscape(s[1..]) == "";
        assert h[|h| - 1] != '=';
      } else {
        assert s[1..][|s[1..]| - 1] == s[|s| - 1];
        HtmlEscapeEnd(s[1..]);
        HtmlEscapeLength(s[1..]);
      }
    }
  }
}
