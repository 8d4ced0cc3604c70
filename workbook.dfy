/**
 * The workbook as the scripts read it: sheets with a name and rows of
 * optional cell values (each value taken as its text), the "cap N" sheet
 * names, and the line markers shared by the readers.
 */
module Workbook {
  import opened Wrappers
  import opened Text

  /** A worksheet: its name and its rows of optional cell texts. */
  datatype Sheet = Sheet(name: string, rows: seq<seq<Option<string>>>)

  /** The chapter number of a sheet named "cap <digits>", or None. */
  function SheetChapter(name: string): (r: Option<nat>)
    ensures r.Some? ==> StartsWith(name, "cap ")
  {
    if |name| > 4 && name[..4] == "cap " && AllDigits(name[4..]) then Some(DigitsValue(name[4..]))
    else None
  }

  /** Every chapter number written after "cap " names that chapter. */
  lemma SheetChapterOf(n: nat)
    ensures SheetChapter("cap " + NatToString(n)) == Some(n)
  {
    var name := "cap " + NatToString(n);
    assert name[..4] == "cap " && name[4..] == NatToString(n);
    NatToStringValue(n);
  }

  /** The first cell of a row; an empty row has none. */
  function FirstCell(row: seq<Option<string>>): Option<string> {
    if |row| > 0 then row[0] else None
  }

  predicate IsBullet(c: char) { c == '•' || c == '·' }

  predicate IsBox(c: char) { c == '☐' || c == '□' }

  /** "A." to "D." followed by a space. */
  predicate IsLettered(text: string) {
    |text| >= 3 && 'A' <= text[0] <= 'D' && text[1] == '.' && IsPySpace(text[2])
  }

  /** The values that f yields over xs, in order. */
  function Collected<T, U>(xs: seq<T>, f: T -> Option<U>): seq<U> {
    if xs == [] then []
    else
      var last := f(xs[|xs| - 1]);
      Collected(xs[..|xs| - 1], f) + (if last.Some? then [last.value] else [])
  }

  lemma {:induction false} CollectedAppend<T, U>(a: seq<T>, b: seq<T>, f: T -> Option<U>)
    ensures Collected(a + b, f) == Collected(a, f) + Collected(b, f)
    decreases |b|
  {
    if b == [] {
      assert a + b == a;
    } else {
      var b' := b[..|b| - 1];
      assert (a + b)[..|a + b| - 1] == a + b';
      assert (a + b)[|a + b| - 1] == b[|b| - 1];
      CollectedAppend(a, b', f);
    }
  }

  lemma {:induction false} CollectedIn<T, U>(xs: seq<T>, f: T -> Option<U>, x: U)
    ensures x in Collected(xs, f) <==> exists i :: 0 <= i < |xs| && f(xs[i]) == Some(x)
  {
    if xs != [] {
      var init := xs[..|xs| - 1];
      CollectedIn(init, f, x);
      if exists i :: 0 <= i < |init| && f(init[i]) == Some(x) {
        var i :| 0 <= i < |init| && f(init[i]) == Some(x);
        assert xs[i] == init[i];
      }
      if exists i :: 0 <= i < |xs| && f(xs[i]) == Some(x) {
        var i :| 0 <= i < |xs| && f(xs[i]) == Some(x);
        if i < |init| {
          assert init[i] == xs[i];
        }
      }
    }
  }

  /**
   * A dictionary filled sheet by sheet in workbook order: each "cap N" sheet
   * sets chapter N to what f reads from its rows.
   */
  function ByChapter<T>(sheets: seq<Sheet>, f: seq<seq<Option<string>>> -> T): map<nat, T> {
    if sheets == [] then map[]
    else
      var last := sheets[|sheets| - 1];
      var m := ByChapter(sheets[..|sheets| - 1], f);
      match SheetChapter(last.name)
      case Some(n) => m[n := f(last.rows)]
      case None => m
  }

  /** A chapter has an entry exactly when some sheet is named for it. */
  lemma {:induction false} ByChapterKeys<T>(sheets: seq<Sheet>, f: seq<seq<Option<string>>> -> T, n: nat)
    ensures n in ByChapter(sheets, f) <==> exists i :: 0 <= i < |sheets| && SheetChapter(sheets[i].name) == Some(n)
  {
    if sheets != [] {
      var init := sheets[..|sheets| - 1];
      var last := SheetChapter(sheets[|sheets| - 1].name);
      assert ByChapter(sheets, f).Keys == ByChapter(init, f).Keys + (if last.Some? then {last.value} else {});
      ByChapterKeys(init, f, n);
      if exists i :: 0 <= i < |init| && SheetChapter(init[i].name) == Some(n) {
        var i :| 0 <= i < |init| && SheetChapter(init[i].name) == Some(n);
        assert sheets[i] == init[i];
      }
      if exists i :: 0 <= i < |sheets| && SheetChapter(sheets[i].name) == Some(n) {
        var i :| 0 <= i < |sheets| && SheetChapter(sheets[i].name) == Some(n);
        if i < |init| {
          assert init[i] == sheets[i];
        }
      }
    }
  }

  /** Of several sheets for one chapter, the last one gives its entry. */
  lemma {:induction false} ByChapterLastWins<T>(sheets: seq<Sheet>, f: seq<seq<Option<string>>> -> T, i: nat, n: nat)
    requires i < |sheets| && SheetChapter(sheets[i].name) == Some(n)
    requires forall j :: i < j < |sheets| ==> SheetChapter(sheets[j].name) != Some(n)
    ensures n in ByChapter(sheets, f) && ByChapter(sheets, f)[n] == f(sheets[i].rows)
  {
    var init := sheets[..|sheets| - 1];
    if i < |sheets| - 1 {
      assert init[i] == sheets[i];
      forall j | i < j < |init| ensures SheetChapter(init[j].name) != Some(n) {
        assert init[j] == sheets[j];
      }
      ByChapterLastWins(init, f, i, n);
    }
  }

  /** A trimmed text, possibly empty, has no space at either end. */
  predicate Trimmed(w: string) {
    w == [] || (!IsPySpace(w[0]) && !IsPySpace(w[|w| - 1]))
  }

  /** str.strip() leaves no space at either end. */
  lemma StripTrimmed(s: string)
    ensures Trimmed(PyStrip(s))
  {
    TrimBySpec(s, IsPySpace);
  }
}
