/**
 * Reading chapter pages back into the data model: the chapter number in a
 * file name, text between tags, the entity codec used on option values,
 * question discovery from the title markup, the conditional-question rules,
 * the chapter file path, the next free chapter number and the order in
 * which parsed chapters are listed.
 */
module Parser {
  import opened Wrappers
  import opened Text
  import opened Models
  import opened Sorting

  // ---------------------------------------------------------------------
  // Listing order of parsed chapters
  // ---------------------------------------------------------------------

  /** The comparison handed to sort.Slice: language code first, then number. */
  predicate ChapterLess(a: Chapter, b: Chapter) {
    if a.language != b.language then StringLess(LanguageCode(a.language), LanguageCode(b.language))
    else a.number < b.number
  }

  /** "not after": the ordering the sort establishes. */
  predicate ChapterLe(a: Chapter, b: Chapter) {
    !ChapterLess(b, a)
  }

  /** "en" sorts before "es". */
  lemma CodesOrdered()
    ensures StringLess(LanguageCode(English), LanguageCode(Spanish))
    ensures !StringLess(LanguageCode(Spanish), LanguageCode(English))
  {
    assert LanguageCode(English)[1..] == "n" && LanguageCode(Spanish)[1..] == "s";
  }

  lemma ChapterLeTotalPreorder()
    ensures TotalPreorder(ChapterLe)
  {
    CodesOrdered();
  }

  /**
   * parseAllChapters: the Spanish and the English chapters sorted together.
   * The result holds the same chapters, every English chapter comes before
   * every Spanish one, and within a language numbers do not decrease.
   */
  function SortChapters(chapters: seq<Chapter>): (r: seq<Chapter>)
    ensures multiset(r) == multiset(chapters)
    ensures forall i, j :: 0 <= i < j < |r| && r[i].language == Spanish ==> r[j].language == Spanish
    ensures forall i, j :: 0 <= i < j < |r| && r[i].language == r[j].language ==> r[i].number <= r[j].number
  {
    ChapterLeTotalPreorder();
    SortByPermutation(chapters, ChapterLe);
    SortBySorted(chapters, ChapterLe);
    CodesOrdered();
    SortBy(chapters, ChapterLe)
  }

  // ---------------------------------------------------------------------
  // Chapter number in a file name
  // ---------------------------------------------------------------------

  lemma {:induction false} TrailingDigitsAfter(p: string, d: string)
    requires AllDigits(d)
    requires p != [] && !IsDigit(p[|p| - 1])
    ensures TrailingCount(p + d, IsDigit) == |d|
  {
    if d != [] {
      assert (p + d)[..|p + d| - 1] == p + d[..|d| - 1];
      TrailingDigitsAfter(p, d[..|d| - 1]);
    } else {
      assert p + d == p;
    }
  }

  /**
   * extractChapterNumber: the digits D of a name ending in `_D.html`, or ""
   * for any other name.
   */
  function ExtractChapterNumber(name: string): string {
    if !EndsWith(name, ".html") then ""
    else
      var body := name[..|name| - 5];
      var n := TrailingCount(body, IsDigit);
      if n > 0 && n < |body| && body[|body| - n - 1] == '_' then body[|body| - n..] else ""
  }

  /** What is extracted is empty, or digits D with the name ending in `_D.html`. */
  lemma ExtractChapterNumberShape(name: string)
    ensures var d := ExtractChapterNumber(name);
      d == "" || (AllDigits(d) && EndsWith(name, "_" + d + ".html"))
  {
    var d := ExtractChapterNumber(name);
    if d != "" {
      var body := name[..|name| - 5];
      TrailingCountSpec(body, IsDigit);
      var n := |d|;
      assert name[|name| - (n + 6)..] == [body[|body| - n - 1]] + d + name[|name| - 5..];
    }
  }

  /** Any name of the form `<p>_D.html` yields D. */
  lemma ExtractChapterNumberOf(name: string, p: string, d: string)
    requires |d| > 0 && AllDigits(d)
    requires name == p + "_" + d + ".html"
    ensures ExtractChapterNumber(name) == d
  {
    assert name[..|name| - 5] == (p + "_") + d;
    TrailingDigitsAfter(p + "_", d);
    assert ((p + "_") + d)[|(p + "_") + d| - |d|..] == d;
  }

  /** The chapter number of a file, or the error parseChapterFile reports. */
  function ParseChapterNumber(base: string): (r: Result<int>)
    ensures r.Ok? <==> GoAtoi(ExtractChapterNumber(base)).Some?
    ensures r.Ok? ==> r.value >= 0
  {
    ExtractChapterNumberShape(base);
    match GoAtoi(ExtractChapterNumber(base))
    case Some(n) => Ok(n)
    case None => Failure("invalid chapter number in " + base)
  }

  /** The default chapter name used when a page has no window.chapterName. */
  function DefaultChapterName(lang: Language, num: int): string {
    ChapterLabel(lang) + " " + IntToString(num)
  }

  // ---------------------------------------------------------------------
  // Text between tags
  // ---------------------------------------------------------------------

  /** No occurrence of p inside a stretch of text free of p. */
  lemma {:induction false} SliceFree(s: string, p: string, a: nat, b: nat)
    requires a <= b <= |s|
    requires forall j :: !OccursAt(s, p, j)
    ensures forall j :: !OccursAt(s[a..b], p, j)
  {
    forall j | 0 <= j ensures !OccursAt(s[a..b], p, j) {
      if j + |p| <= b - a {
        var t := s[a..b];
        SliceOfSlice(s, a, b, j, j + |p|);
        assert !OccursAt(s, p, a + j);
      }
    }
  }

  /** The text before the first occurrence of p does not contain p. */
  lemma BeforeFirstFree(s: string, p: string, end: nat)
    requires |p| > 0 && end <= |s| && forall j :: j < end ==> !OccursAt(s, p, j)
    ensures forall j :: !OccursAt(s[..end], p, j)
  {
    forall j | 0 <= j ensures !OccursAt(s[..end], p, j) {
      if j + |p| <= end {
        var t := s[..end];
        SliceOfSlice(s, 0, end, j, j + |p|);
        assert t == s[0..end];
        assert !OccursAt(s, p, j);
      }
    }
  }

  /** Trimming text free of p leaves it free of p. */
  lemma TrimmedFree(s: string, p: string)
    requires forall j :: !OccursAt(s, p, j)
    ensures |p| > 0 ==> !Contains(GoTrim(s), p)
  {
    var r := GoTrim(s);
    var a := LeadingCount(s, IsGoSpace);
    assert r == s[a..a + |r|];
    SliceFree(s, p, a, a + |r|);
    IndexOfSpec(r, p);
  }

  /**
   * extractBetweenTags: the trimmed text between the first `openTag` and the
   * first `closeTag` after it, or "" when either is missing.
   */
  function ExtractBetweenTags(content: string, openTag: string, closeTag: string): string {
    var start := IndexOf(content, openTag);
    if start == -1 then ""
    else
      var s := start + |openTag|;
      var end := IndexOf(content[s..], closeTag);
      if end == -1 then "" else GoTrim(content[s..][..end])
  }

  /** Without an opening tag the result is "". */
  lemma ExtractBetweenTagsWithoutOpen(content: string, openTag: string, closeTag: string)
    requires forall j :: !OccursAt(content, openTag, j)
    ensures ExtractBetweenTags(content, openTag, closeTag) == ""
  {
    IndexOfSpec(content, openTag);
  }

  /** Without a closing tag after the first opening tag the result is "". */
  lemma ExtractBetweenTagsWithoutClose(content: string, openTag: string, closeTag: string, i: nat)
    requires OccursAt(content, openTag, i) && forall k :: k < i ==> !OccursAt(content, openTag, k)
    requires forall k :: i + |openTag| <= k ==> !OccursAt(content, closeTag, k)
    ensures ExtractBetweenTags(content, openTag, closeTag) == ""
  {
    IndexOfIs(content, openTag, i);
    var s := i + |openTag|;
    var rest := content[s..];
    forall k | 0 <= k ensures !OccursAt(rest, closeTag, k) {
      ShiftOccurs(content, closeTag, s, k);
    }
    IndexOfSpec(rest, closeTag);
  }

  /** The result never contains the (non-empty) closing tag. */
  lemma ExtractBetweenTagsExcludesClose(content: string, openTag: string, closeTag: string)
    requires |closeTag| > 0
    ensures !Contains(ExtractBetweenTags(content, openTag, closeTag), closeTag)
  {
    var start := IndexOf(content, openTag);
    if start == -1 {
      IndexOfSpec("", closeTag);
    } else {
      var s := start + |openTag|;
      var end := IndexOf(content[s..], closeTag);
      if end == -1 {
        IndexOfSpec("", closeTag);
      } else {
        IndexOfSpec(content[s..], closeTag);
        BeforeFirstFree(content[s..], closeTag, end);
        TrimmedFree(content[s..][..end], closeTag);
      }
    }
  }

  /** The result is exactly the trimmed text between the two positions. */
  lemma ExtractBetweenTagsAt(content: string, openTag: string, closeTag: string, i: nat, j: nat)
    requires OccursAt(content, openTag, i) && forall k :: k < i ==> !OccursAt(content, openTag, k)
    requires i + |openTag| <= j && OccursAt(content, closeTag, j)
    requires forall k :: i + |openTag| <= k < j ==> !OccursAt(content, closeTag, k)
    ensures ExtractBetweenTags(content, openTag, closeTag) == GoTrim(content[i + |openTag|..j])
  {
    var s := i + |openTag|;
    IndexOfIs(content, openTag, i);
    var rest := content[s..];
    ShiftOccurs(content, closeTag, s, j - s);
    forall k | 0 <= k < j - s ensures !OccursAt(rest, closeTag, k) {
      ShiftOccurs(content, closeTag, s, k);
    }
    IndexOfIs(rest, closeTag, j - s);
    assert rest[..j - s] == content[s..j];
    ExtractBetweenTagsFound(content, openTag, closeTag, i, j - s);
  }

  lemma ExtractBetweenTagsFound(content: string, openTag: string, closeTag: string, i: nat, e: nat)
    requires IndexOf(content, openTag) == i
    requires IndexOf(content[i + |openTag|..], closeTag) == e
    ensures ExtractBetweenTags(content, openTag, closeTag) == GoTrim(content[i + |openTag|..][..e])
  {
  }

  /** An occurrence with none before it is the one IndexOf finds. */
  lemma IndexOfIs(s: string, p: string, i: nat)
    requires OccursAt(s, p, i) && forall k :: k < i ==> !OccursAt(s, p, k)
    ensures IndexOf(s, p) == i
  {
    IndexOfSpec(s, p);
  }

  /** Occurrences in a suffix are occurrences in the whole, shifted. */
  lemma ShiftOccurs(s: string, p: string, a: nat, k: nat)
    requires a <= |s|
    ensures OccursAt(s[a..], p, k) <==> OccursAt(s, p, a + k)
  {
    if k + |p| <= |s| - a {
      var t := s[a..];
      SliceOfSlice(s, a, |s|, k, k + |p|);
      assert t == s[a..|s|];
      assert t[k..k + |p|] == s[a + k..a + k + |p|];
    }
  }

  // ---------------------------------------------------------------------
  // Entity codec for option values
  // ---------------------------------------------------------------------

  /** encodeHTMLEntities: four replace-all passes, `&` first. */
  function EncodeHTMLEntities(s: string): string {
    ReplaceAll(ReplaceAll(ReplaceAll(ReplaceAll(s, "&", "&amp;"), "\"", "&quot;"), "<", "&lt;"), ">", "&gt;")
  }

  /** decodeHTMLEntities: four replace-all passes, `&quot;` then `&amp;` then `&lt;` then `&gt;`. */
  function DecodeHTMLEntities(s: string): string {
    ReplaceAll(ReplaceAll(ReplaceAll(ReplaceAll(s, "&quot;", "\""), "&amp;", "&"), "&lt;", "<"), "&gt;", ">")
  }

  /** Text without `&` holds no entity and decodes to itself. */
  lemma DecodePlain(s: string)
    requires '&' !in s
    ensures DecodeHTMLEntities(s) == s
  {
    ReplaceAllSkip(s, "", "&quot;", "\"");
    ReplaceAllSkip(s, "", "&amp;", "&");
    ReplaceAllSkip(s, "", "&lt;", "<");
    ReplaceAllSkip(s, "", "&gt;", ">");
    assert s + "" == s;
  }

  /** What encoding does to one character. */
  function EntityOf(c: char): string {
    if c == '&' then "&amp;"
    else if c == '"' then "&quot;"
    else if c == '<' then "&lt;"
    else if c == '>' then "&gt;"
    else [c]
  }

  // The intermediate token maps of the passes, one per character of the input.
  function Enc1(c: char): string { if c == '&' then "&amp;" else [c] }
  function Enc2(c: char): string { if c == '"' then "&quot;" else Enc1(c) }
  function Enc3(c: char): string { if c == '<' then "&lt;" else Enc2(c) }
  function Dec1(c: char): string { if c == '"' then "\"" else EntityOf(c) }
  function Dec2(c: char): string { if c == '&' then "&" else Dec1(c) }
  function Dec3(c: char): string { if c == '<' then "<" else Dec2(c) }
  function Same(c: char): string { [c] }

  /** Encoding is the character-wise map EntityOf: the passes do not interfere. */
  lemma EncodeIsCharwise(s: string)
    ensures EncodeHTMLEntities(s) == Flat(s, EntityOf)
  {
    FlatSingletons(s, Same);
    AmpersandPass();
    ReplaceAllFlat(s, Same, Enc1, "&", "&amp;");
    QuotePass();
    ReplaceAllFlat(s, Enc1, Enc2, "\"", "&quot;");
    LessPass();
    ReplaceAllFlat(s, Enc2, Enc3, "<", "&lt;");
    GreaterPass();
    ReplaceAllFlat(s, Enc3, EntityOf, ">", "&gt;");
  }

  // Each encoding pass meets its pattern only as a whole token.

  lemma AmpersandPass()
    ensures forall c :: Unit(Same(c), "&") && Enc1(c) == (if Same(c) == "&" then "&amp;" else Same(c))
  {
    forall c ensures Unit(Same(c), "&") {
      if c != '&' { assert '&' !in Same(c); }
    }
  }

  lemma QuotePass()
    ensures forall c :: Unit(Enc1(c), "\"") && Enc2(c) == (if Enc1(c) == "\"" then "&quot;" else Enc1(c))
  {
    forall c ensures Unit(Enc1(c), "\"") {
      if c != '"' { assert '"' !in Enc1(c); }
    }
  }

  lemma LessPass()
    ensures forall c :: Unit(Enc2(c), "<") && Enc3(c) == (if Enc2(c) == "<" then "&lt;" else Enc2(c))
  {
    forall c ensures Unit(Enc2(c), "<") {
      if c != '<' { assert '<' !in Enc2(c); }
    }
  }

  lemma GreaterPass()
    ensures forall c :: Unit(Enc3(c), ">") && EntityOf(c) == (if Enc3(c) == ">" then "&gt;" else Enc3(c))
  {
    forall c ensures Unit(Enc3(c), ">") {
      if c != '>' { assert '>' !in Enc3(c); }
    }
  }

  /** Encoded text has no raw quote or angle bracket. */
  lemma {:induction false} EncodedHasNoMarkup(s: string)
    ensures forall i :: 0 <= i < |Flat(s, EntityOf)| ==> Flat(s, EntityOf)[i] !in {'"', '<', '>'}
  {
    if s != [] {
      EncodedHasNoMarkup(s[1..]);
    }
  }

  /** Decoding undoes encoding for text without `&`. */
  lemma DecodeEncode(s: string)
    requires '&' !in s
    ensures DecodeHTMLEntities(EncodeHTMLEntities(s)) == s
  {
    EncodeIsCharwise(s);
    QuotEntityPass();
    ReplaceAllFlat(s, EntityOf, Dec1, "&quot;", "\"");
    AmpEntityPass();
    ReplaceAllFlat(s, Dec1, Dec2, "&amp;", "&");
    LtEntityPass();
    ReplaceAllFlat(s, Dec2, Dec3, "&lt;", "<");
    GtEntityPass();
    ReplaceAllFlat(s, Dec3, Same, "&gt;", ">");
    FlatSingletons(s, Same);
  }

  // Each decoding pass meets its entity only as a whole token, for characters other than `&`.

  lemma QuotEntityPass()
    ensures forall c :: c != '&' ==> Unit(EntityOf(c), "&quot;") && Dec1(c) == (if EntityOf(c) == "&quot;" then "\"" else EntityOf(c))
  {
    forall c | c != '&' ensures Unit(EntityOf(c), "&quot;") {
      if c == '<' || c == '>' { assert EntityOf(c)[1] != "&quot;"[1]; }
      else if c != '"' { assert '&' !in EntityOf(c); }
    }
  }

  lemma AmpEntityPass()
    ensures forall c :: c != '&' ==> Unit(Dec1(c), "&amp;") && Dec2(c) == (if Dec1(c) == "&amp;" then "&" else Dec1(c))
  {
    forall c | c != '&' ensures Unit(Dec1(c), "&amp;") {
      if c == '<' || c == '>' { assert Dec1(c)[1] != "&amp;"[1]; }
      else { assert '&' !in Dec1(c); }
    }
  }

  lemma LtEntityPass()
    ensures forall c :: c != '&' ==> Unit(Dec2(c), "&lt;") && Dec3(c) == (if Dec2(c) == "&lt;" then "<" else Dec2(c))
  {
    forall c | c != '&' ensures Unit(Dec2(c), "&lt;") {
      if c == '>' { assert Dec2(c)[1] != "&lt;"[1]; }
      else if c != '<' { assert '&' !in Dec2(c); }
    }
  }

  lemma GtEntityPass()
    ensures forall c :: c != '&' ==> Unit(Dec3(c), "&gt;") && Same(c) == (if Dec3(c) == "&gt;" then ">" else Dec3(c))
  {
    forall c | c != '&' ensures Unit(Dec3(c), "&gt;") {
      if c != '>' { assert '&' !in Dec3(c); }
    }
  }

  /**
   * The round trip fails once `&` is in the text: `&lt;` encodes to
   * `&amp;lt;`, whose `&amp;` is decoded before `&lt;` is, giving `<`.
   */
  lemma DecodeEncodeFailsWithAmpersand(s: string)
    requires s == "&lt;"
    ensures EncodeHTMLEntities(s) == "&amp;lt;"
    ensures DecodeHTMLEntities(EncodeHTMLEntities(s)) == "<" != s
  {
    EncodeIsCharwise(s);
    EncodeLt(s);
    DecodeAmpLt();
  }

  lemma EncodeLt(s: string)
    requires s == "&lt;"
    ensures Flat(s, EntityOf) == "&amp;lt;"
  {
    FlatFour(s, EntityOf);
    assert EntityOf(s[0]) == "&amp;" && EntityOf(s[1]) == "l" && EntityOf(s[2]) == "t" && EntityOf(s[3]) == ";";
  }

  /** Decoding `&amp;lt;`, pass by pass. */
  lemma DecodeAmpLt()
    ensures DecodeHTMLEntities("&amp;lt;") == "<"
  {
    assert ReplaceAll("&amp;lt;", "&quot;", "\"") == "&amp;lt;";
    assert ReplaceAll("&amp;lt;", "&amp;", "&") == "&lt;";
    assert ReplaceAll("&lt;", "&lt;", "<") == "<";
    assert ReplaceAll("<", "&gt;", ">") == "<";
  }

  /** Flat on a four-character string, spelled out. */
  lemma FlatFour(s: string, f: char -> string)
    requires |s| == 4
    ensures Flat(s, f) == f(s[0]) + f(s[1]) + f(s[2]) + f(s[3])
  {
    assert s[1..][1..] == s[2..] && s[2..][1..] == s[3..] && s[3..][1..] == [];
    assert Flat(s[3..], f) == f(s[3]);
    assert Flat(s[2..], f) == f(s[2]) + f(s[3]);
    assert Flat(s[1..], f) == f(s[1]) + (f(s[2]) + f(s[3]));
  }

  // ---------------------------------------------------------------------
  // Conditional questions
  // ---------------------------------------------------------------------

  /**
   * findConditionalParent: question qN depends on q(N-1); "" for q1, for a
   * non-numeric id and for numbers Atoi rejects.
   */
  function FindConditionalParent(qID: string): string {
    var numStr := if StartsWith(qID, "q") then qID[1..] else qID;
    match GoAtoi(numStr)
    case Some(num) => if num <= 1 then "" else "q" + IntToString(num - 1)
    case None => ""
  }

  /** For the ids the tool writes, the parent is the previous question. */
  lemma ParentOfNumberedId(n: nat)
    requires n <= 0x7FFF_FFFF_FFFF_FFFF
    ensures FindConditionalParent("q" + NatToString(n)) == if n <= 1 then "" else "q" + NatToString(n - 1)
  {
    AtoiOfNat(n);
    assert ("q" + NatToString(n))[1..] == NatToString(n);
  }

  /** An id with no number after its `q` has no parent. */
  lemma NoParentWithoutNumber(qID: string)
    requires StartsWith(qID, "q") && (|qID| == 1 || (qID[1] != '-' && qID[1] != '+' && !IsDigit(qID[1])))
    ensures FindConditionalParent(qID) == ""
  {
    AtoiRejectsNonNumeric(qID[1..]);
  }

  const ClassAttr: string := "class=\""

  /**
   * `class="[^"]*hidden[^"]*"` starting at k: the position just after the
   * closing quote when the class value contains "hidden", otherwise -1.
   */
  function HiddenClassEnd(s: string, k: nat): (e: int)
    requires k <= |s|
    ensures e == -1 || k + |ClassAttr| < e <= |s|
  {
    if !StartsWith(s[k..], ClassAttr) then -1
    else
      var v := k + |ClassAttr|;
      var q := IndexOf(s[v..], "\"");
      if q >= 0 && Contains(s[v..v + q], "hidden") then v + q + 1 else -1
  }

  /** Where a `[^>]*` starting at a must stop: the first `>` at or after a, or the end. */
  function TagEnd(s: string, a: nat): (e: nat)
    requires a <= |s|
    ensures a <= e <= |s|
    ensures forall i :: a <= i < e ==> s[i] != '>'
    ensures e < |s| ==> s[e] == '>'
  {
    FirstFromSpec(s, '>', a);
    FirstFrom(s, '>', a)
  }

  /** Some `class="…hidden…"` starts at a position in [a, b]. */
  predicate HiddenClassWithin(s: string, a: nat, b: nat)
    requires a <= b <= |s|
    decreases b - a
  {
    HiddenClassEnd(s, a) >= 0 || (a < b && HiddenClassWithin(s, a + 1, b))
  }

  /** idAttr starts before the tag open at position e is closed. */
  predicate IdWithinTag(s: string, idAttr: string, e: nat)
    requires e <= |s|
  {
    var m := IndexFrom(s, idAttr, e);
    m != -1 && m <= TagEnd(s, e)
  }

  /** `id="<sectionID>"[^>]*class="[^"]*hidden[^"]*"` matches at or after position k. */
  predicate IdThenHiddenClass(s: string, idAttr: string, k: nat)
    requires k <= |s|
    decreases |s| - k
  {
    (OccursAt(s, idAttr, k) && HiddenClassWithin(s, k + |idAttr|, TagEnd(s, k + |idAttr|)))
    || (k < |s| && IdThenHiddenClass(s, idAttr, k + 1))
  }

  /** `class="[^"]*hidden[^"]*"[^>]*id="<sectionID>"` matches at or after position k. */
  predicate HiddenClassThenId(s: string, idAttr: string, k: nat)
    requires k <= |s|
    decreases |s| - k
  {
    (HiddenClassEnd(s, k) >= 0 && IdWithinTag(s, idAttr, HiddenClassEnd(s, k)))
    || (k < |s| && HiddenClassThenId(s, idAttr, k + 1))
  }

  lemma {:induction false} HiddenClassThenIdEarlier(s: string, idAttr: string, j: nat, k: nat)
    requires j <= k <= |s| && HiddenClassThenId(s, idAttr, k)
    ensures HiddenClassThenId(s, idAttr, j)
    decreases k - j
  {
    if j < k {
      HiddenClassThenIdEarlier(s, idAttr, j + 1, k);
    }
  }

  /** The `id="<id>-section"` attribute of a question's section. */
  function SectionIdAttr(id: string): string {
    "id=\"" + id + "-section\""
  }

  /** The section of question `id` is marked hidden in the page. */
  predicate SectionHidden(content: string, id: string) {
    IdThenHiddenClass(content, SectionIdAttr(id), 0) || HiddenClassThenId(content, SectionIdAttr(id), 0)
  }

  const GeneratedSectionClass: string := "question-section conditional-section hidden"

  /**
   * The wrapper the generator writes around a conditional question is seen
   * as hidden by both parsers: by the literal marker extractQuestions looks
   * for and by the class-then-id pattern of detectConditionals.
   */
  lemma GeneratedSectionIsHidden(pre: string, post: string, id: string)
    ensures Contains(pre + HiddenSectionMarker(id) + post, HiddenSectionMarker(id))
    ensures SectionHidden(pre + HiddenSectionMarker(id) + post, id)
  {
    var marker := HiddenSectionMarker(id);
    var s := pre + marker + post;
    assert OccursAt(s, marker, |pre|) by {
      assert s[|pre|..|pre| + |marker|] == marker;
    }
    OccursContains(s, marker, |pre|);
    MarkerHidden(s, |pre|, id, post);
  }

  /** A page holding the marker at position m has the section of id hidden. */
  lemma MarkerHidden(s: string, m: nat, id: string, post: string)
    requires m <= |s| && s[m..] == HiddenSectionMarker(id) + post
    ensures SectionHidden(s, id)
  {
    var k := m + 5;
    MarkerTail(s, m, id, post);
    GeneratedClassThenId(s, k, SectionIdAttr(id), ">" + post);
    HiddenClassThenIdEarlier(s, SectionIdAttr(id), 0, k);
  }

  /** After `<div ` the marker is the class attribute, then the id. */
  lemma MarkerTail(s: string, m: nat, id: string, post: string)
    requires m <= |s| && s[m..] == HiddenSectionMarker(id) + post
    ensures m + 5 <= |s|
    ensures s[m + 5..] == ClassAttr + GeneratedSectionClass + "\"" + (" " + SectionIdAttr(id) + ">" + post)
  {
    assert s[m + 5..] == s[m..][5..];
  }

  lemma GeneratedClassThenId(s: string, k: nat, idAttr: string, post: string)
    requires k <= |s| && s[k..] == ClassAttr + GeneratedSectionClass + "\"" + (" " + idAttr + post)
    requires |idAttr| > 0 && idAttr[0] != ' '
    ensures HiddenClassThenId(s, idAttr, k)
  {
    GeneratedClassIsHidden();
    HiddenClassEndAt(s, k, GeneratedSectionClass, " " + idAttr + post);
    var e := k + |ClassAttr| + |GeneratedSectionClass| + 1;
    assert s[e..] == " " + idAttr + post;
    IdRightAfter(s, idAttr, e, post);
  }

  lemma GeneratedClassIsHidden()
    ensures '"' !in GeneratedSectionClass && Contains(GeneratedSectionClass, "hidden")
  {
    assert OccursAt(GeneratedSectionClass, "hidden", 37);
    OccursContains(GeneratedSectionClass, "hidden", 37);
  }

  /** A class value free of quotes that holds "hidden" ends right after its quote. */
  lemma HiddenClassEndAt(s: string, k: nat, cv: string, rest: string)
    requires k <= |s| && s[k..] == ClassAttr + cv + "\"" + rest
    requires '"' !in cv && Contains(cv, "hidden")
    ensures HiddenClassEnd(s, k) == k + |ClassAttr| + |cv| + 1
  {
    var v := k + |ClassAttr|;
    assert s[k..][..|ClassAttr|] == ClassAttr;
    assert s[v..] == cv + "\"" + rest;
    FirstQuote(cv, rest);
    assert s[v..v + |cv|] == cv;
  }

  /** An attribute one space after position e lies inside the open tag. */
  lemma IdRightAfter(s: string, idAttr: string, e: nat, rest: string)
    requires e <= |s| && s[e..] == " " + idAttr + rest
    requires |idAttr| > 0 && idAttr[0] != ' '
    ensures IdWithinTag(s, idAttr, e)
  {
    assert s[e] == ' ';
    assert OccursAt(s, idAttr, e + 1) by {
      assert s[e + 1..e + 1 + |idAttr|] == s[e..][1..1 + |idAttr|];
    }
    assert !OccursAt(s, idAttr, e) by {
      assert e + |idAttr| <= |s|;
      assert s[e..e + |idAttr|][0] == ' ';
    }
    assert IndexFrom(s, idAttr, e) == e + 1;
  }

  /** The first `"` of c + `"` + rest is the one after c. */
  lemma FirstQuote(c: string, rest: string)
    requires '"' !in c
    ensures IndexOf(c + "\"" + rest, "\"") == |c|
  {
    var s := c + "\"" + rest;
    IndexOfSpec(s, "\"");
    assert OccursAt(s, "\"", |c|) by { assert s[|c|..|c| + 1] == "\""; }
    forall j | 0 <= j < |c| ensures !OccursAt(s, "\"", j) {
      assert s[j..j + 1] == [c[j]];
    }
  }

  /**
   * detectConditionals: every question whose section is marked hidden gets
   * its parent from FindConditionalParent; nothing else changes.
   */
  method DetectConditionals(content: string, questions: array<Question>)
    modifies questions
    ensures forall i :: 0 <= i < questions.Length ==>
      questions[i] == if SectionHidden(content, old(questions[i]).id)
                      then old(questions[i]).(conditionalOn := FindConditionalParent(old(questions[i]).id))
                      else old(questions[i])
  {
    var i := 0;
    while i < questions.Length
      invariant 0 <= i <= questions.Length
      invariant forall k :: 0 <= k < i ==>
        questions[k] == if SectionHidden(content, old(questions[k]).id)
                        then old(questions[k]).(conditionalOn := FindConditionalParent(old(questions[k]).id))
                        else old(questions[k])
      invariant forall k :: i <= k < questions.Length ==> questions[k] == old(questions[k])
    {
      if SectionHidden(content, questions[i].id) {
        questions[i] := questions[i].(conditionalOn := FindConditionalParent(questions[i].id));
      }
      i := i + 1;
    }
  }

  // ---------------------------------------------------------------------
  // Question discovery
  // ---------------------------------------------------------------------

  const TitleOpen: string := "<div class=\"question-title\">"
  const TitleClose: string := "</div>"

  lemma {:induction false} LeadingDigitsBefore(d: string, rest: string)
    requires AllDigits(d)
    requires rest != [] && !IsDigit(rest[0])
    ensures LeadingCount(d + rest, IsDigit) == |d|
  {
    if d != [] {
      assert (d + rest)[1..] == d[1..] + rest;
      LeadingDigitsBefore(d[1..], rest);
    } else {
      assert d + rest == rest;
    }
  }

  /** The `^Q(\d+):` regex on a title: its digits. */
  function TitleDigits(t: string): (r: Option<string>)
    ensures r.Some? ==> |r.value| > 0 && AllDigits(r.value)
  {
    if |t| == 0 || t[0] != 'Q' then None
    else
      var n := LeadingCount(t[1..], IsDigit);
      if n > 0 && 1 + n < |t| && t[1 + n] == ':' then
        var d := t[1..1 + n];
        LeadingCountSpec(t[1..], IsDigit);
        assert forall i :: 0 <= i < |d| ==> d[i] == t[1..][i];
        Some(d)
      else None
  }

  /** The digits found are those of the title's `Q<digits>:` prefix. */
  lemma TitleDigitsShape(t: string)
    requires TitleDigits(t).Some?
    ensures StartsWith(t, "Q" + TitleDigits(t).value + ":")
  {
    var d := TitleDigits(t).value;
    assert t[..|d| + 2] == [t[0]] + t[1..1 + |d|] + [t[1 + |d|]];
  }

  /** A title written as `Q<digits>:<text>` yields those digits. */
  lemma TitleDigitsOf(d: string, text: string)
    requires |d| > 0 && AllDigits(d)
    ensures TitleDigits("Q" + d + ":" + text) == Some(d)
  {
    var t := "Q" + d + ":" + text;
    assert t[1..] == d + (":" + text);
    LeadingDigitsBefore(d, ":" + text);
    assert t[1..1 + |d|] == d;
  }

  /** Text the capture `(Q\d+:[^<]+)` accepts. */
  predicate IsTitleText(t: string) {
    TitleDigits(t).Some? && |t| > 2 + |TitleDigits(t).value| && '<' !in t
  }

  /** The title regex matched at position p: its captured title. */
  function TitleAt(content: string, p: nat): (r: Option<string>)
    requires p <= |content|
    ensures r.Some? ==> IsTitleText(r.value)
    ensures r.Some? ==> p + |TitleOpen| + |r.value| + |TitleClose| <= |content|
  {
    var b := p + |TitleOpen|;
    if b > |content| || content[p..b] != TitleOpen then None
    else
      var lt := FirstFrom(content, '<', b);
      var t := content[b..lt];
      if lt + |TitleClose| <= |content| && content[lt..lt + |TitleClose|] == TitleClose
         && TitleDigits(t).Some? && |t| > 2 + |TitleDigits(t).value| then
        FirstFromSpec(content, '<', b);
        assert forall j :: 0 <= j < |t| ==> t[j] == content[b + j];
        Some(t)
      else None
  }

  /**
   * A match is the title markup: the opening tag, the title (which runs up
   * to the first `<`) and the closing tag.
   */
  lemma TitleAtShape(content: string, p: nat)
    requires p <= |content| && TitleAt(content, p).Some?
    ensures var t := TitleAt(content, p).value;
      content[p..p + |TitleOpen| + |t| + |TitleClose|] == TitleOpen + t + TitleClose
  {
    var t := TitleAt(content, p).value;
    var b := p + |TitleOpen|;
    var e := b + |t| + |TitleClose|;
    assert content[p..e] == content[p..b] + content[b..b + |t|] + content[b + |t|..e];
  }

  /** A question title found by the title regex, with the position of its markup. */
  datatype TitleHit = TitleHit(start: nat, title: string)

  /** Title matches in increasing order inside the page. */
  predicate OrderedHits(content: string, hits: seq<TitleHit>) {
    && (forall k :: 0 <= k < |hits| ==> hits[k].start < |content|)
    && (forall k :: 0 <= k < |hits| - 1 ==> hits[k].start < hits[k + 1].start)
  }

  /** FindAllStringSubmatchIndex for the title regex, scanning from `from`. */
  function TitleHits(content: string, from: nat): (hits: seq<TitleHit>)
    requires from <= |content|
    ensures forall i :: 0 <= i < |hits| ==> from <= hits[i].start
    ensures OrderedHits(content, hits)
    decreases |content| - from
  {
    if from == |content| then []
    else
      match TitleAt(content, from)
      case Some(t) =>
        var e := from + |TitleOpen| + |t| + |TitleClose|;
        [TitleHit(from, t)] + TitleHits(content, e)
      case None => TitleHits(content, from + 1)
  }

  /** Every hit is a match of the title regex at its position. */
  lemma {:induction false} TitleHitsMatch(content: string, from: nat)
    requires from <= |content|
    ensures forall i :: 0 <= i < |TitleHits(content, from)| ==>
      TitleAt(content, TitleHits(content, from)[i].start) == Some(TitleHits(content, from)[i].title)
    decreases |content| - from
  {
    var hits := TitleHits(content, from);
    if from < |content| {
      var m := TitleAt(content, from);
      if m.Some? {
        var e := from + |TitleOpen| + |m.value| + |TitleClose|;
        TitleHitsMatch(content, e);
        var rest := TitleHits(content, e);
        assert hits[1..] == rest;
        assert forall i :: 0 < i < |hits| ==> hits[i] == rest[i - 1];
      } else {
        TitleHitsMatch(content, from + 1);
      }
    }
  }

  /** Each hit ends, closing tag included, before the next one starts. */
  predicate HitsApart(hits: seq<TitleHit>) {
    forall i :: 0 <= i < |hits| - 1 ==>
      hits[i].start + |TitleOpen| + |hits[i].title| + |TitleClose| <= hits[i + 1].start
  }

  /** The scan resumes after the end of a match: matches do not overlap. */
  lemma {:induction false} TitleHitsApart(content: string, from: nat)
    requires from <= |content|
    ensures HitsApart(TitleHits(content, from))
    decreases |content| - from
  {
    var hits := TitleHits(content, from);
    if from < |content| {
      var m := TitleAt(content, from);
      if m.Some? {
        var e := from + |TitleOpen| + |m.value| + |TitleClose|;
        TitleHitsApart(content, e);
        var rest := TitleHits(content, e);
        assert hits[1..] == rest;
        assert forall i :: 0 < i < |hits| ==> hits[i] == rest[i - 1];
      } else {
        TitleHitsApart(content, from + 1);
      }
    }
  }

  /** The text of the i-th question: from its title markup to the next one. */
  function Section(content: string, hits: seq<TitleHit>, i: nat): string
    requires i < |hits| && OrderedHits(content, hits)
  {
    var stop := if i + 1 < |hits| then hits[i + 1].start else |content|;
    content[hits[i].start..stop]
  }

  /** The marker of a section that extractQuestions treats as conditional. */
  function HiddenSectionMarker(qID: string): string {
    "<div " + ClassAttr + GeneratedSectionClass + "\" " + SectionIdAttr(qID) + ">"
  }

  /** The type of a question section: checkbox inputs win over radio inputs. */
  function SectionType(section: string): QuestionType {
    if Contains(section, "type=\"checkbox\"") then Checkbox
    else if Contains(section, "type=\"radio\"") then Radio
    else Untyped
  }

  // ---------------------------------------------------------------------
  // The option pattern
  // ---------------------------------------------------------------------

  /*
   * extractRadioOptions and extractCheckboxOptions match
   *   <input type="T"[^>]*name="ID"[^>]*value="([^"]*)"[^>]*>\s*<label[^>]*>([^<]+)</label>
   * with Go's leftmost-first semantics. Everything from `value="` on can
   * match in one way only. The two greedy `[^>]*` runs before it make the
   * match take, among the `value="` positions after the first `name="ID"`
   * and before the input tag's first `>`, the last one whose remainder
   * matches.
   */

  /** The opening of an option input of type `kind` ("radio" or "checkbox"). */
  function InputOpen(kind: string): string {
    "<input type=\"" + kind + "\""
  }

  function NameAttr(qID: string): string {
    "name=\"" + qID + "\""
  }

  const ValueOpen: string := "value=\""
  const LabelOpen: string := "<label"
  const LabelClose: string := "</label>"

  /** The class \s of Go's regexp syntax. */
  predicate IsReSpace(c: char) {
    c == ' ' || c == '\t' || c == '\n' || c == '\U{C}' || c == '\r'
  }

  /**
   * One match of the option pattern: the captured value and caption, and the
   * text that follows the match.
   */
  datatype OptionHit = OptionHit(value: string, caption: string, after: string)

  /**
   * The pattern from `value="` on, at the head of t: the value runs to the
   * next quote, the input tag ends at the first `>` after it, then white
   * space, a `<label ...>` tag, a non-empty label up to the first `<`, and
   * `</label>`.
   */
  function ValueTail(t: string): (r: Option<OptionHit>)
    ensures r.Some? ==> |r.value.after| < |t|
  {
    if !StartsWith(t, ValueOpen) then None else QuotedValue(t[|ValueOpen|..])
  }

  /** After `value="`: the value runs to the next quote. */
  function QuotedValue(u: string): (r: Option<OptionHit>)
    ensures r.Some? ==> |r.value.after| < |u|
  {
    var q := FirstFrom(u, '"', 0);
    if q == |u| then None else InputTagEnd(u[q + 1..], u[..q])
  }

  /** After the value's closing quote: the input tag ends at the first `>`. */
  function InputTagEnd(u: string, value: string): (r: Option<OptionHit>)
    ensures r.Some? ==> |r.value.after| < |u|
  {
    var g := FirstFrom(u, '>', 0);
    if g == |u| then None else AfterTag(u[g + 1..], value)
  }

  /** After the input tag: `\s*` and the label part. */
  function AfterTag(t: string, value: string): (r: Option<OptionHit>)
    ensures r.Some? ==> |r.value.after| < |t|
  {
    LabelTail(t[ReSpaceRun(t)..], value)
  }

  /** The length of the run of `\s` characters at the head of t. */
  function ReSpaceRun(t: string): (n: nat)
    ensures n <= |t|
  {
    if t == [] || !IsReSpace(t[0]) then 0 else 1 + ReSpaceRun(t[1..])
  }

  lemma {:induction false} ReSpaceRunOf(ws: string, rest: string)
    requires forall i :: 0 <= i < |ws| ==> IsReSpace(ws[i])
    requires rest == [] || !IsReSpace(rest[0])
    ensures ReSpaceRun(ws + rest) == |ws|
  {
    if ws != [] {
      assert (ws + rest)[1..] == ws[1..] + rest;
      ReSpaceRunOf(ws[1..], rest);
    }
  }

  /** The `<label ...>` tag at the head of t, the label and `</label>`. */
  function LabelTail(t: string, value: string): (r: Option<OptionHit>)
    ensures r.Some? ==> |r.value.after| < |t|
  {
    if !StartsWith(t, LabelOpen) then None
    else
      var u := t[|LabelOpen|..];
      var lg := FirstFrom(u, '>', 0);
      if lg == |u| then None
      else
        var u2 := u[lg + 1..];
        var lt := FirstFrom(u2, '<', 0);
        if lt == 0 || !StartsWith(u2[lt..], LabelClose) then None
        else Some(OptionHit(value, u2[..lt], u2[lt + |LabelClose|..]))
  }

  /** The match of the value part at the last position in [lo, hi) of u where there is one. */
  function LastValue(u: string, lo: nat, hi: nat): (r: Option<OptionHit>)
    requires lo <= hi <= |u|
    ensures r.Some? ==> |r.value.after| < |u| - lo
    decreases hi - lo
  {
    if lo == hi then None
    else
      match LastValue(u, lo + 1, hi)
      case Some(h) => Some(h)
      case None => ValueTail(u[lo..])
  }

  /**
   * The option pattern at the head of t: the input opening, the first
   * `name="ID"` before the tag's first `>`, then the last `value="` before
   * that `>` whose remainder matches. A question id never holds `>`.
   */
  function OptionAt(t: string, kind: string, qID: string): (r: Option<OptionHit>)
    requires '>' !in qID
    ensures r.Some? ==> |r.value.after| < |t|
  {
    if !StartsWith(t, InputOpen(kind)) then None
    else
      var u := t[|InputOpen(kind)|..];
      var g := FirstFrom(u, '>', 0);
      var n := IndexFrom(u, NameAttr(qID), 0);
      if n == -1 || n + |NameAttr(qID)| > g then None
      else LastValue(u, n + |NameAttr(qID)|, g)
  }

  /** FindAllStringSubmatch of the option pattern: the (value, caption) pairs of the matches in t, in order. */
  function OptionHits(t: string, kind: string, qID: string): seq<(string, string)>
    requires '>' !in qID
    decreases |t|
  {
    if t == [] then []
    else
      match OptionAt(t, kind, qID)
      case Some(h) => [(h.value, h.caption)] + OptionHits(h.after, kind, qID)
      case None => OptionHits(t[1..], kind, qID)
  }

  /** After a match the scan goes on with the text that follows it. */
  lemma OptionHitsAt(t: string, kind: string, qID: string)
    requires '>' !in qID && OptionAt(t, kind, qID).Some?
    ensures var h := OptionAt(t, kind, qID).value;
      OptionHits(t, kind, qID) == [(h.value, h.caption)] + OptionHits(h.after, kind, qID)
  {
  }

  /** Text without `<` adds no option. */
  lemma {:induction false} OptionHitsSkip(w: string, rest: string, kind: string, qID: string)
    requires '>' !in qID && '<' !in w
    ensures OptionHits(w + rest, kind, qID) == OptionHits(rest, kind, qID)
  {
    if w != [] {
      var t := w + rest;
      assert t[0] == w[0] && w[0] in w;
      InputOpenHead(kind);
      if |InputOpen(kind)| <= |t| {
        assert t[..|InputOpen(kind)|][0] != InputOpen(kind)[0];
      }
      assert !StartsWith(t, InputOpen(kind));
      OptionHitsStep(t, kind, qID);
      assert t[1..] == w[1..] + rest;
      OptionHitsSkip(w[1..], rest, kind, qID);
    } else {
      assert w + rest == rest;
    }
  }

  /** Text with one `<` in it that opens no input adds no option. */
  lemma OptionHitsOverTag(a: string, b: string, rest: string, kind: string, qID: string)
    requires '>' !in qID && '<' !in a && '<' !in b && b != [] && b[0] != 'i'
    ensures OptionHits(a + ("<" + (b + rest)), kind, qID) == OptionHits(rest, kind, qID)
  {
    var t := "<" + (b + rest);
    OptionHitsSkip(a, t, kind, qID);
    InputOpenHead(kind);
    if |InputOpen(kind)| <= |t| {
      assert t[..|InputOpen(kind)|][1] != InputOpen(kind)[1];
    }
    OptionHitsPass('<', b + rest, kind, qID);
    OptionHitsSkip(b, rest, kind, qID);
  }

  /** Where no input opens, the scan moves on by one character. */
  lemma OptionHitsStep(t: string, kind: string, qID: string)
    requires '>' !in qID && t != [] && !StartsWith(t, InputOpen(kind))
    ensures OptionHits(t, kind, qID) == OptionHits(t[1..], kind, qID)
  {
  }

  lemma InputOpenHead(kind: string)
    ensures |InputOpen(kind)| > 1 && InputOpen(kind)[0] == '<' && InputOpen(kind)[1] == 'i'
  {
  }

  /** A `<` that opens no option input adds no option. */
  lemma OptionHitsPass(c: char, rest: string, kind: string, qID: string)
    requires '>' !in qID && !StartsWith([c] + rest, InputOpen(kind))
    ensures OptionHits([c] + rest, kind, qID) == OptionHits(rest, kind, qID)
  {
    assert ([c] + rest)[1..] == rest;
  }

  /** A text holding no input opening has no options. */
  lemma {:induction false} OptionHitsNone(t: string, kind: string, qID: string)
    requires '>' !in qID && !Contains(t, InputOpen(kind))
    ensures OptionHits(t, kind, qID) == []
  {
    if t != [] {
      StartsContains(t, InputOpen(kind));
      TailContains(t, InputOpen(kind));
      OptionHitsNone(t[1..], kind, qID);
    }
  }

  /** A text that starts with p contains p. */
  lemma StartsContains(t: string, p: string)
    ensures StartsWith(t, p) ==> Contains(t, p)
  {
    if StartsWith(t, p) {
      assert OccursAt(t, p, 0);
      OccursContains(t, p, 0);
    }
  }

  /** What the text after the first character contains, the text contains. */
  lemma TailContains(t: string, p: string)
    requires t != []
    ensures Contains(t[1..], p) ==> Contains(t, p)
  {
    if Contains(t[1..], p) {
      ContainsIff(t[1..], p);
      var j :| OccursAt(t[1..], p, j);
      assert t[j + 1..j + 1 + |p|] == t[1..][j..j + |p|];
      OccursContains(t, p, j + 1);
    }
  }

  /** No match of the value part anywhere in [lo, hi). */
  lemma {:induction false} LastValueNone(u: string, lo: nat, hi: nat)
    requires lo <= hi <= |u| && forall j :: lo <= j < hi ==> !StartsWith(u[j..], ValueOpen)
    ensures LastValue(u, lo, hi) == None
    decreases hi - lo
  {
    if lo < hi {
      LastValueNone(u, lo + 1, hi);
    }
  }

  /**
   * An option input written as the generator writes it is one match of the
   * option pattern for its name, and the value and caption are captured as
   * written: the value without `"` or `>`, the caption non-empty without `<`,
   * and neither the value nor the input id ending in `=` (which would let
   * an earlier `name="` or a later `value="` start there).
   */
  lemma OptionAtInput(kind: string, id: string, qID: string, value: string, req: string, ws: string,
                      caption: string, rest: string)
    requires '"' !in id && '>' !in id && (id == "" || id[|id| - 1] != '=') && '>' !in qID
    requires '"' !in value && '>' !in value && (value == "" || value[|value| - 1] != '=')
    requires '"' !in req && '>' !in req
    requires forall i :: 0 <= i < |ws| ==> IsReSpace(ws[i])
    requires caption != "" && '<' !in caption
    ensures OptionAt(InputOpen(kind) + (" id=\"" + (id + ("\" " + (NameAttr(qID) + (" " + (ValueOpen + (value
      + ("\"" + (req + (">" + (ws + (LabelOpen + (" for=\"" + (id + ("\">" + (caption + (LabelClose + rest))))))))))))))))),
      kind, qID) == Some(OptionHit(value, caption, rest))
  {
    var h := OptionHit(value, caption, rest);
    var lab := LabelOpen + (" for=\"" + (id + ("\">" + (caption + (LabelClose + rest)))));
    var tail := ValueOpen + (value + ("\"" + (req + (">" + (ws + lab)))));
    var u := " id=\"" + (id + ("\" " + (NameAttr(qID) + (" " + tail))));
    var e := ValueLevel(tail, value, req, ws, lab, id, caption, rest);
    NameLevel(kind, u, id, qID, tail, e, h);
  }

  lemma OptionHitsInput(kind: string, id: string, qID: string, value: string, req: string, ws: string,
                        caption: string, rest: string)
    requires '"' !in id && '>' !in id && (id == "" || id[|id| - 1] != '=') && '>' !in qID
    requires '"' !in value && '>' !in value && (value == "" || value[|value| - 1] != '=')
    requires '"' !in req && '>' !in req
    requires forall i :: 0 <= i < |ws| ==> IsReSpace(ws[i])
    requires caption != "" && '<' !in caption
    ensures OptionHits(InputOpen(kind) + (" id=\"" + (id + ("\" " + (NameAttr(qID) + (" " + (ValueOpen + (value
      + ("\"" + (req + (">" + (ws + (LabelOpen + (" for=\"" + (id + ("\">" + (caption + (LabelClose + rest))))))))))))))))),
      kind, qID) == [(value, caption)] + OptionHits(rest, kind, qID)
  {
    var t := InputOpen(kind) + (" id=\"" + (id + ("\" " + (NameAttr(qID) + (" " + (ValueOpen + (value
      + ("\"" + (req + (">" + (ws + (LabelOpen + (" for=\"" + (id + ("\">" + (caption + (LabelClose + rest)))))))))))))))));
    OptionAtInput(kind, id, qID, value, req, ws, caption, rest);
    OptionHitsFound(t, rest, kind, qID, OptionHit(value, caption, rest));
  }

  /** A match that leaves `rest` over. */
  lemma OptionHitsFound(t: string, rest: string, kind: string, qID: string, h: OptionHit)
    requires '>' !in qID && OptionAt(t, kind, qID) == Some(h) && h.after == rest
    ensures OptionHits(t, kind, qID) == [(h.value, h.caption)] + OptionHits(rest, kind, qID)
  {
    OptionHitsAt(t, kind, qID);
  }

  /** OptionAt once the name attribute, the tag's `>` and the last value match are found. */
  lemma OptionAtSteps(kind: string, qID: string, u: string, lo: nat, hi: nat, h: OptionHit)
    requires '>' !in qID
    requires IndexFrom(u, NameAttr(qID), 0) >= 0 && IndexFrom(u, NameAttr(qID), 0) + |NameAttr(qID)| == lo
    requires lo <= hi <= |u| && FirstFrom(u, '>', 0) == hi
    requires LastValue(u, lo, hi) == Some(h)
    ensures OptionAt(InputOpen(kind) + u, kind, qID) == Some(h)
  {
    var p := InputOpen(kind);
    var t := p + u;
    assert t[..|p|] == p && t[|p|..] == u;
    var n := IndexFrom(u, NameAttr(qID), 0);
    assert n != -1 && n + |NameAttr(qID)| <= FirstFrom(u, '>', 0);
  }

  /** The value part and the label part after it: one match, and no other `value="` inside the tag. */
  lemma ValueLevel(tail: string, value: string, req: string, ws: string, lab: string, id: string, caption: string,
                   rest: string) returns (e: nat)
    requires tail == ValueOpen + (value + ("\"" + (req + (">" + (ws + lab)))))
    requires lab == LabelOpen + (" for=\"" + (id + ("\">" + (caption + (LabelClose + rest)))))
    requires '"' !in value && '>' !in value && (value == "" || value[|value| - 1] != '=')
    requires '"' !in req && '>' !in req
    requires forall i :: 0 <= i < |ws| ==> IsReSpace(ws[i])
    requires '>' !in id && caption != "" && '<' !in caption
    ensures 0 < e <= |tail| && FirstFrom(tail, '>', 0) == e
    ensures ValueTail(tail) == Some(OptionHit(value, caption, rest))
    ensures forall j :: 0 < j < e ==> !StartsWith(tail[j..], ValueOpen)
  {
    e := ValueAttrAt(value, req, ws + lab);
    LabelAt(ws, lab, id, caption, rest, value);
    forall j | 0 < j < e ensures !StartsWith(tail[j..], ValueOpen) {
      ValueNotInside(value, req, ws + lab, j);
    }
  }

  /** The attributes before the value part, around a value part already matched. */
  lemma NameLevel(kind: string, u: string, id: string, qID: string, tail: string, e: nat, h: OptionHit)
    requires u == " id=\"" + (id + ("\" " + (NameAttr(qID) + (" " + tail))))
    requires '"' !in id && '>' !in id && (id == "" || id[|id| - 1] != '=') && '>' !in qID
    requires 0 < e <= |tail| && FirstFrom(tail, '>', 0) == e && ValueTail(tail) == Some(h)
    requires forall j :: 0 < j < e ==> !StartsWith(tail[j..], ValueOpen)
    ensures OptionAt(InputOpen(kind) + u, kind, qID) == Some(h)
  {
    var lo := NameAttrsAt(u, id, qID, tail, e);
    LastValueFound(u, tail, lo, e, h);
    OptionAtSteps(kind, qID, u, lo, lo + 1 + e, h);
  }

  /** Where the name attribute ends and the tag closes, with no value part in between but the written one. */
  lemma NameAttrsAt(u: string, id: string, qID: string, tail: string, e: nat) returns (lo: nat)
    requires u == " id=\"" + (id + ("\" " + (NameAttr(qID) + (" " + tail))))
    requires '"' !in id && '>' !in id && (id == "" || id[|id| - 1] != '=') && '>' !in qID
    requires 0 < e <= |tail| && FirstFrom(tail, '>', 0) == e
    requires forall j :: 0 < j < e ==> !StartsWith(tail[j..], ValueOpen)
    ensures lo + 1 + e <= |u| && u[lo + 1..] == tail
    ensures IndexFrom(u, NameAttr(qID), 0) >= 0 && IndexFrom(u, NameAttr(qID), 0) + |NameAttr(qID)| == lo
    ensures FirstFrom(u, '>', 0) == lo + 1 + e
    ensures LastValue(u, lo + 2, lo + 1 + e) == None
  {
    lo := NameAttrAt(id, qID, tail);
    ShiftNoValue(u, tail, lo, e);
  }

  /** The stretch after the written value, seen from the whole attribute text. */
  lemma ShiftNoValue(u: string, tail: string, lo: nat, e: nat)
    requires 0 < e && lo + 1 + e <= |u| && u[lo + 1..] == tail
    requires forall j :: 0 < j < e ==> !StartsWith(tail[j..], ValueOpen)
    ensures LastValue(u, lo + 2, lo + 1 + e) == None
  {
    forall j | lo + 2 <= j < lo + 1 + e ensures !StartsWith(u[j..], ValueOpen) {
      assert u[j..] == tail[j - lo - 1..];
    }
    LastValueNone(u, lo + 2, lo + 1 + e);
  }

  /** The written value part, with no match after it, is the last match in the tag. */
  lemma LastValueFound(u: string, tail: string, lo: nat, e: nat, h: OptionHit)
    requires 0 < e && lo + 1 + e <= |u| && u[lo + 1..] == tail
    requires ValueTail(tail) == Some(h)
    requires LastValue(u, lo + 2, lo + 1 + e) == None
    ensures LastValue(u, lo, lo + 1 + e) == Some(h)
  {
    ValueTailEq(u[lo + 1..], tail);
    LastValueEq(u, lo + 2, lo + 1 + e, lo + 1 + 1, lo + 1 + e);
    assert LastValue(u, lo + 1, lo + 1 + e) == Some(h);
  }

  lemma ValueTailEq(a: string, b: string)
    requires a == b
    ensures ValueTail(a) == ValueTail(b)
  {
  }

  lemma LastValueEq(u: string, lo: nat, hi: nat, lo': nat, hi': nat)
    requires lo <= hi <= |u| && lo == lo' && hi == hi'
    ensures LastValue(u, lo, hi) == LastValue(u, lo', hi')
  {
  }

  /**
   * The attributes ` id="ID" name="QID" ` before the value part: the first
   * `name="QID"` is the one written, ending at the returned position, and
   * the tag's first `>` is the value part's.
   */
  lemma NameAttrAt(id: string, qID: string, tail: string) returns (lo: nat)
    requires '"' !in id && '>' !in id && (id == "" || id[|id| - 1] != '=') && '>' !in qID
    ensures var u := " id=\"" + (id + ("\" " + (NameAttr(qID) + (" " + tail))));
      lo == 5 + |id| + 2 + |NameAttr(qID)| && lo < |u| && u[lo + 1..] == tail &&
      IndexFrom(u, NameAttr(qID), 0) + |NameAttr(qID)| == lo &&
      FirstFrom(u, '>', 0) == lo + 1 + FirstFrom(tail, '>', 0)
  {
    var na := NameAttr(qID);
    lo := 5 + |id| + 2 + |na|;
    assert '>' !in na;
    NameAttrClose(id, na, tail);
    NameAttrIndex(id, na, tail);
  }

  /** The first `>` of the attributes is the first `>` of the tail. */
  lemma NameAttrClose(id: string, na: string, tail: string)
    requires '>' !in id && '>' !in na
    ensures FirstFrom(" id=\"" + (id + ("\" " + (na + (" " + tail)))), '>', 0)
      == 5 + |id| + 2 + |na| + 1 + FirstFrom(tail, '>', 0)
  {
    FirstFromPast(" ", tail, '>');
    FirstFromPast(na, " " + tail, '>');
    FirstFromPast("\" ", na + (" " + tail), '>');
    FirstFromPast(id, "\" " + (na + (" " + tail)), '>');
    FirstFromPast(" id=\"", id + ("\" " + (na + (" " + tail))), '>');
  }

  /** The name attribute is found right after the id attribute, and the tail follows it. */
  lemma NameAttrIndex(id: string, na: string, tail: string)
    requires '"' !in id && (id == "" || id[|id| - 1] != '=') && |na| >= 6 && na[..6] == "name=\""
    ensures var u := " id=\"" + (id + ("\" " + (na + (" " + tail))));
      5 + |id| + 2 + |na| < |u| && u[5 + |id| + 2 + |na| + 1..] == tail &&
      IndexFrom(u, na, 0) + |na| == 5 + |id| + 2 + |na|
  {
    var u := " id=\"" + (id + ("\" " + (na + (" " + tail))));
    var lo := 5 + |id| + 2 + |na|;
    var n := 5 + |id| + 2;
    var head := " id=\"" + id + "\" ";
    assert u == head + (na + (" " + tail));
    Piece(head, na, " " + tail);
    assert u[lo + 1..] == (" " + tail)[1..];
    assert |head| == n && OccursAt(u, na, n);
    forall j | 0 <= j < n ensures !OccursAt(u, na, j) {
      NameNotBefore(id, na, " " + tail, j);
    }
    IndexFromFirst(u, na, n);
  }

  /** An occurrence with none before it is the one IndexFrom finds. */
  lemma IndexFromFirst(u: string, p: string, n: nat)
    requires OccursAt(u, p, n) && forall j :: 0 <= j < n ==> !OccursAt(u, p, j)
    ensures IndexFrom(u, p, 0) == n
  {
    IndexFromSpec(u, p, 0);
  }

  /** The piece b of a + (b + r), and what follows it. */
  lemma Piece(a: string, b: string, r: string)
    ensures (a + (b + r))[|a|..|a| + |b|] == b && (a + (b + r))[|a| + |b|..] == r
  {
    assert (a + (b + r))[|a|..] == b + r;
  }

  /** No `name="QID"` starts inside ` id="ID" `. */
  lemma NameNotBefore(id: string, na: string, r: string, j: nat)
    requires '"' !in id && (id == "" || id[|id| - 1] != '=')
    requires |na| >= 6 && na[..6] == "name=\"" && j < 5 + |id| + 2
    ensures !OccursAt(" id=\"" + (id + ("\" " + (na + r))), na, j)
  {
    var u := " id=\"" + (id + ("\" " + (na + r)));
    if j + |na| <= |u| {
      if j + 5 < 5 + |id| {
        assert u[j + 5] == id[j] && id[j] in id;
        assert u[j..j + |na|][5] != na[5];
      } else if j + 5 == 5 + |id| {
        if id == "" {
          assert u[4] == '"';
        } else {
          assert u[j + 4] == id[|id| - 1];
        }
        assert u[j..j + |na|][4] != na[4];
      } else if j + 5 == 6 + |id| {
        assert u[j + 5] == ' ';
        assert u[j..j + |na|][5] != na[5];
      } else {
        assert u[j + 5] == na[j + 5 - (7 + |id|)];
        assert u[j..j + |na|][5] != na[5];
      }
    }
  }

  /**
   * The value part `value="V"R>` at the head of the text: the value ends at
   * the first quote, the tag at the first `>` after it (the returned
   * position).
   */
  lemma ValueAttrAt(value: string, req: string, after: string) returns (e: nat)
    requires '"' !in value && '>' !in value && (value == "" || value[|value| - 1] != '=')
    requires '"' !in req && '>' !in req
    ensures var t := ValueOpen + (value + ("\"" + (req + (">" + after))));
      e == |ValueOpen| + |value| + 1 + |req| && FirstFrom(t, '>', 0) == e &&
      ValueTail(t) == AfterTag(after, value)
  {
    e := |ValueOpen| + |value| + 1 + |req|;
    ValueAttrTail(value, req, after);
    var u2 := req + (">" + after);
    FirstFromPast(req, ">" + after, '>');
    ValueOpenPlain();
    FirstFromPast(ValueOpen, value + ("\"" + u2), '>');
    FirstFromPast(value, "\"" + u2, '>');
    FirstFromPast("\"", u2, '>');
  }

  lemma ValueAttrTail(value: string, req: string, after: string)
    requires '"' !in value && '>' !in req
    ensures ValueTail(ValueOpen + (value + ("\"" + (req + (">" + after))))) == AfterTag(after, value)
  {
    ValueOpenStep(value + ("\"" + (req + (">" + after))));
    QuoteStep(value, req + (">" + after));
    TagCloseStep(req, after, value);
  }

  lemma ValueOpenStep(u: string)
    ensures ValueTail(ValueOpen + u) == QuotedValue(u)
  {
    var t := ValueOpen + u;
    assert t[..|ValueOpen|] == ValueOpen && t[|ValueOpen|..] == u;
    ValueTailIs(t);
  }

  lemma QuoteStep(value: string, u2: string)
    requires '"' !in value
    ensures QuotedValue(value + ("\"" + u2)) == InputTagEnd(u2, value)
  {
    var u := value + ("\"" + u2);
    FirstFromPast(value, "\"" + u2, '"');
    assert u[..|value|] == value && u[|value| + 1..] == u2;
    QuotedValueIs(u, |value|);
  }

  lemma TagCloseStep(req: string, after: string, value: string)
    requires '>' !in req
    ensures InputTagEnd(req + (">" + after), value) == AfterTag(after, value)
  {
    var u2 := req + (">" + after);
    FirstFromPast(req, ">" + after, '>');
    assert u2[|req| + 1..] == after;
  }

  /** `value="` holds no `>`. */
  lemma ValueOpenPlain()
    ensures '>' !in ValueOpen
  {
  }

  lemma ValueTailIs(t: string)
    requires StartsWith(t, ValueOpen)
    ensures ValueTail(t) == QuotedValue(t[|ValueOpen|..])
  {
  }

  lemma QuotedValueIs(u: string, q: nat)
    requires q < |u| && FirstFrom(u, '"', 0) == q
    ensures QuotedValue(u) == InputTagEnd(u[q + 1..], u[..q])
  {
  }

  /** No `value="` starts inside `value="V"R>` after its head. */
  lemma ValueNotInside(value: string, req: string, after: string, j: nat)
    requires '"' !in value && (value == "" || value[|value| - 1] != '=') && '"' !in req
    requires 0 < j < |ValueOpen| + |value| + 1 + |req|
    ensures !StartsWith((ValueOpen + (value + ("\"" + (req + (">" + after)))))[j..], ValueOpen)
  {
    var t := ValueOpen + (value + ("\"" + (req + (">" + after))));
    var q := |ValueOpen| + |value|;
    var g := q + 1 + |req|;
    if j + |ValueOpen| <= |t| {
      if j + 6 < q {
        assert t[j + 6] == value[j - 1] && value[j - 1] in value;
        assert t[j..][6] != ValueOpen[6];
      } else if j + 6 == q {
        if value == "" {
          assert t[j + 5] == '"';
        } else {
          assert t[j + 5] == value[|value| - 1];
        }
        assert t[j..][5] != ValueOpen[5];
      } else if j + 6 < g {
        assert t[j + 6] == req[j + 6 - q - 1] && req[j + 6 - q - 1] in req;
        assert t[j..][6] != ValueOpen[6];
      } else {
        assert t[g] == '>' && '>' !in ValueOpen;
        assert t[j..][g - j] != ValueOpen[g - j];
      }
    }
  }

  /** The label part `WS<label for="ID">CAPTION</label>` after the input tag. */
  lemma LabelAt(ws: string, lab: string, id: string, caption: string, rest: string, value: string)
    requires lab == LabelOpen + (" for=\"" + (id + ("\">" + (caption + (LabelClose + rest)))))
    requires forall i :: 0 <= i < |ws| ==> IsReSpace(ws[i])
    requires '>' !in id && caption != "" && '<' !in caption
    ensures AfterTag(ws + lab, value) == Some(OptionHit(value, caption, rest))
  {
    ReSpaceRunOf(ws, lab);
    assert (ws + lab)[|ws|..] == lab;
    LabelOf(lab, id, caption, rest, value);
  }

  /** The label part itself, with no spaces before it. */
  lemma LabelOf(lab: string, id: string, caption: string, rest: string, value: string)
    requires lab == LabelOpen + (" for=\"" + (id + ("\">" + (caption + (LabelClose + rest)))))
    requires '>' !in id && caption != "" && '<' !in caption
    ensures LabelTail(lab, value) == Some(OptionHit(value, caption, rest))
  {
    var u := " for=\"" + (id + ("\">" + (caption + (LabelClose + rest))));
    assert lab[..|LabelOpen|] == LabelOpen && lab[|LabelOpen|..] == u;
    FirstFromPast(" for=\"", id + ("\">" + (caption + (LabelClose + rest))), '>');
    FirstFromPast(id, "\">" + (caption + (LabelClose + rest)), '>');
    FirstFromPast("\"", ">" + (caption + (LabelClose + rest)), '>');
    var u2 := caption + (LabelClose + rest);
    assert u[6 + |id| + 2..] == u2;
    FirstFromPast(caption, LabelClose + rest, '<');
    assert u2[..|caption|] == caption && u2[|caption|..] == LabelClose + rest;
    assert StartsWith(u2[|caption|..], LabelClose);
    assert u2[|caption| + |LabelClose|..] == rest;
    LabelTailIs(lab, value, 7 + |id|, |caption|);
  }

  /** LabelTail once the `>` of the label tag and the `<` after it are found. */
  lemma LabelTailIs(t: string, value: string, lg: nat, lt: nat)
    requires StartsWith(t, LabelOpen)
    requires lg < |t[|LabelOpen|..]| && FirstFrom(t[|LabelOpen|..], '>', 0) == lg
    requires 0 < lt <= |t[|LabelOpen|..][lg + 1..]| && FirstFrom(t[|LabelOpen|..][lg + 1..], '<', 0) == lt
    requires StartsWith(t[|LabelOpen|..][lg + 1..][lt..], LabelClose)
    ensures LabelTail(t, value) ==
      Some(OptionHit(value, t[|LabelOpen|..][lg + 1..][..lt], t[|LabelOpen|..][lg + 1..][lt + |LabelClose|..]))
  {
    var u := t[|LabelOpen|..];
    var u2 := u[lg + 1..];
    assert FirstFrom(u, '>', 0) != |u|;
    assert lt != 0 && StartsWith(u2[lt..], LabelClose);
  }

  /** A question id `q<digits>` holds neither `>` nor `"`. */
  lemma DigitIdPlain(d: string)
    requires AllDigits(d)
    ensures '>' !in "q" + d && '"' !in "q" + d
  {
    assert forall c :: c in d ==> IsDigit(c);
  }

  /**
   * What extractQuestions makes of the i-th title: the id `q<digits>` of its
   * `Q<digits>:` prefix, the title itself, the type its section's inputs
   * show (checkbox first), the options the option pattern finds in the
   * section for that type and id, required when the section mentions
   * "required", and the parent when the page holds the hidden-section
   * marker of that id.
   */
  function QuestionOfHit(content: string, hits: seq<TitleHit>, i: nat): Question
    requires i < |hits| && OrderedHits(content, hits) && TitleDigits(hits[i].title).Some?
  {
    var sec := Section(content, hits, i);
    var id := "q" + TitleDigits(hits[i].title).value;
    DigitIdPlain(TitleDigits(hits[i].title).value);
    var t := SectionType(sec);
    Question(id, hits[i].title, t,
             match t
             case Checkbox => CheckboxOptions(OptionHits(sec, "checkbox", id))
             case Radio => RadioOptions(OptionHits(sec, "radio", id))
             case Untyped => [],
             Contains(sec, "required"),
             if Contains(content, HiddenSectionMarker(id)) then FindConditionalParent(id) else "")
  }

  /** extractQuestions: one question per title match, in page order. */
  method ExtractQuestions(content: string) returns (qs: seq<Question>)
    ensures |qs| == |TitleHits(content, 0)|
    ensures forall i :: 0 <= i < |qs| ==>
      TitleDigits(TitleHits(content, 0)[i].title).Some?
      && qs[i] == QuestionOfHit(content, TitleHits(content, 0), i)
  {
    var hits := TitleHits(content, 0);
    qs := [];
    var i := 0;
    TitleHitsMatch(content, 0);
    while i < |hits|
      invariant 0 <= i <= |hits| && |qs| == i
      invariant forall k :: 0 <= k < i ==>
        TitleDigits(hits[k].title).Some? && qs[k] == QuestionOfHit(content, hits, k)
    {
      assert TitleAt(content, hits[i].start) == Some(hits[i].title);
      var q := QuestionAt(content, hits, i);
      qs := qs + [q];
      i := i + 1;
    }
  }

  /** The body of the extractQuestions loop for the i-th title match. */
  method QuestionAt(content: string, hits: seq<TitleHit>, i: nat) returns (q: Question)
    requires i < |hits| && OrderedHits(content, hits) && IsTitleText(hits[i].title)
    ensures TitleDigits(hits[i].title).Some? && q == QuestionOfHit(content, hits, i)
  {
    var title := hits[i].title;
    var qNum := TitleDigits(title);
    if qNum.None? {
      // the title regex only captures titles of this form
      assert false;
    }
    var qID := "q" + qNum.value;
    DigitIdPlain(qNum.value);
    var section := Section(content, hits, i);
    var conditionalOn := "";
    if Contains(content, HiddenSectionMarker(qID)) {
      conditionalOn := FindConditionalParent(qID);
    }
    q := Question(qID, title, Untyped, [], true, conditionalOn);
    if Contains(section, "type=\"checkbox\"") {
      q := q.(qtype := Checkbox, options := CheckboxOptions(OptionHits(section, "checkbox", qID)));
    } else if Contains(section, "type=\"radio\"") {
      q := q.(qtype := Radio, options := RadioOptions(OptionHits(section, "radio", qID)));
    }
    if !Contains(section, "required") {
      q := q.(required := false);
    }
  }

  /** extractRadioOptions: captured values and labels as they are. */
  function RadioOptions(pairs: seq<(string, string)>): (opts: seq<QuestionOption>)
    ensures |opts| == |pairs|
  {
    seq(|pairs|, k requires 0 <= k < |pairs| => QuestionOption(pairs[k].0, pairs[k].1))
  }

  /** extractCheckboxOptions: captured values are entity-decoded, labels kept. */
  function CheckboxOptions(pairs: seq<(string, string)>): (opts: seq<QuestionOption>)
    ensures |opts| == |pairs|
  {
    seq(|pairs|, k requires 0 <= k < |pairs| => QuestionOption(DecodeHTMLEntities(pairs[k].0), pairs[k].1))
  }

  // ---------------------------------------------------------------------
  // File paths and the next chapter number
  // ---------------------------------------------------------------------

  /** `<prefix>_NN.html` */
  function ChapterFileName(lang: Language, num: int): string {
    FilePrefix(lang) + "_" + Pad2(num) + ".html"
  }

  /** filepath.Join of a directory and a file name. */
  function JoinPath(dir: string, name: string): (p: string)
    ensures EndsWith(p, name)
  {
    if dir == "" then name
    else if EndsWith(dir, "/") then dir + name
    else dir + "/" + name
  }

  /** chapterFilePath */
  function ChapterFilePath(baseDir: string, num: int, lang: Language): string {
    JoinPath(baseDir, ChapterFileName(lang, num))
  }

  /** The file a chapter is written to yields its number back when parsed. */
  lemma ChapterFilePathParsesBack(baseDir: string, num: nat, lang: Language)
    requires num <= 0x7FFF_FFFF_FFFF_FFFF
    ensures ExtractChapterNumber(ChapterFilePath(baseDir, num, lang)) == Pad2(num)
    ensures ParseChapterNumber(ChapterFilePath(baseDir, num, lang)) == Ok(num)
  {
    var path := ChapterFilePath(baseDir, num, lang);
    ChapterFilePathNumber(baseDir, num, lang);
    Pad2Value(num);
    AtoiOfDigits(Pad2(num));
  }

  lemma ChapterFilePathNumber(baseDir: string, num: nat, lang: Language)
    ensures ExtractChapterNumber(ChapterFilePath(baseDir, num, lang)) == Pad2(num)
  {
    Pad2Value(num);
    JoinedNumber(baseDir, FilePrefix(lang), Pad2(num));
  }

  /** A name `<a>_D.html` joined onto any directory still yields D. */
  lemma JoinedNumber(dir: string, a: string, d: string)
    requires |d| > 0 && AllDigits(d)
    ensures ExtractChapterNumber(JoinPath(dir, a + "_" + d + ".html")) == d
  {
    var name := a + "_" + d + ".html";
    var path := JoinPath(dir, name);
    var pre := path[..|path| - |name|] + a;
    assert path == pre + "_" + d + ".html";
    ExtractChapterNumberOf(path, pre, d);
  }

  /** The number a file name contributes to getNextChapterNumber, if any. */
  function FileNumber(base: string): Option<int> {
    GoAtoi(ExtractChapterNumber(base))
  }

  /** The file of chapter MaxInt64 is a name Atoi reads, so the wrap of getNextChapterNumber can happen. */
  lemma MaxInt64FileNumber(lang: Language)
    ensures FileNumber(ChapterFileName(lang, MaxInt64)) == Some(MaxInt64)
  {
    var n: nat := MaxInt64;
    ChapterFilePathNumber("", n, lang);
    Pad2Value(n);
    AtoiOfDigits(Pad2(n));
  }

  /**
   * getNextChapterNumber over the base names the glob found: one more than
   * the largest number found, and 1 when there is none above zero. The sum
   * is Go's int, so a file numbered MaxInt64 makes it wrap to MinInt64.
   */
  method GetNextChapterNumber(names: seq<string>) returns (next: int)
    ensures (forall k :: 0 <= k < |names| ==> FileNumber(names[k]) != Some(MaxInt64)) ==>
      next >= 1
      && (forall k :: 0 <= k < |names| && FileNumber(names[k]).Some? ==> FileNumber(names[k]).value < next)
      && (next == 1 || exists k :: 0 <= k < |names| && FileNumber(names[k]) == Some(next - 1))
    ensures (exists k :: 0 <= k < |names| && FileNumber(names[k]) == Some(MaxInt64)) ==> next == MinInt64
  {
    next := NextAfterLargest(names, FileNumber);
  }

  /**
   * The loop of getNextChapterNumber, written over the function that reads a
   * number from a name; names without a number (None) are skipped.
   */
  method NextAfterLargest(names: seq<string>, number: string -> Option<int>) returns (next: int)
    requires forall k :: 0 <= k < |names| && number(names[k]).Some? ==> number(names[k]).value <= MaxInt64
    ensures (forall k :: 0 <= k < |names| ==> number(names[k]) != Some(MaxInt64)) ==>
      next >= 1
      && (forall k :: 0 <= k < |names| && number(names[k]).Some? ==> number(names[k]).value < next)
      && (next == 1 || exists k :: 0 <= k < |names| && number(names[k]) == Some(next - 1))
    ensures (exists k :: 0 <= k < |names| && number(names[k]) == Some(MaxInt64)) ==> next == MinInt64
  {
    var maxNum := 0;
    var i := 0;
    while i < |names|
      invariant 0 <= i <= |names| && 0 <= maxNum <= MaxInt64
      invariant forall k :: 0 <= k < i && number(names[k]).Some? ==> number(names[k]).value <= maxNum
      invariant maxNum == 0 || exists k :: 0 <= k < i && number(names[k]) == Some(maxNum)
    {
      var num := number(names[i]);
      if num.Some? && num.value > maxNum {
        maxNum := num.value;
      }
      i := i + 1;
    }
    next := WrapInt64(maxNum + 1);
    if maxNum == MaxInt64 {
      assert next == MinInt64;
    }
  }

}
