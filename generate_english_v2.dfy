/**
 * The second English generator: it reads the English lines of every
 * "cap N" sheet, picks out the questions of a chapter, and turns a Spanish
 * chapter page into an English one by a fixed series of substitutions:
 * the language attribute, the page title, the heading, the chapter name,
 * the first twenty question titles, the option labels and values, the
 * interface texts and the first twenty script questions.
 */
module GenerateEnglishV2 {
  import opened Wrappers
  import opened Text
  import opened Workbook
  import opened Rewrite
  import GenerateEnglish
  import TranslateChapters
  import FixTranslations
  import FixDiscussions

  // ---------------------------------------------------------------------
  // Reading the workbook
  // ---------------------------------------------------------------------

  /** The introduction, recognised by phrases of its lower-cased text. */
  predicate IsIntro(text: string) {
    var l := Lower(text);
    || Contains(l, "to achieve better") || Contains(l, "each chapter has") || Contains(l, "some questions have")
    || Contains(l, "the questions will") || Contains(l, "wishing you")
  }

  /** A Spanish line: an opening question mark, or "según" or "escoja" in any case. */
  predicate IsSpanish(text: string) {
    '¿' in text || Contains(Lower(text), "según") || Contains(Lower(text), "escoja")
  }

  /** The stripped first cell of a row, unless it is empty, introduction or Spanish. */
  function LineOf(row: seq<Option<string>>): Option<string> {
    match FirstCell(row)
    case None => None
    case Some(cell) =>
      var text := PyStrip(cell);
      if text == [] || IsIntro(text) || IsSpanish(text) then None else Some(text)
  }

  /** The lines a sheet contributes, in row order. */
  function Lines(rows: seq<seq<Option<string>>>): seq<string> {
    Collected(rows, LineOf)
  }

  /** Chapter number to its lines, sheet by sheet; a later sheet for a chapter replaces an earlier one. */
  function Translations(sheets: seq<Sheet>): map<nat, seq<string>> {
    ByChapter(sheets, Lines)
  }

  /** Every line kept is stripped, non-empty and neither introduction nor Spanish. */
  lemma LinesSound(rows: seq<seq<Option<string>>>, t: string)
    requires t in Lines(rows)
    ensures t != [] && Trimmed(t) && !IsIntro(t) && !IsSpanish(t)
  {
    CollectedIn(rows, LineOf, t);
    var i :| 0 <= i < |rows| && LineOf(rows[i]) == Some(t);
    StripTrimmed(FirstCell(rows[i]).value);
  }

  /** A text is kept exactly when some row's first cell strips to it and it is not skipped. */
  lemma LinesIn(rows: seq<seq<Option<string>>>, t: string)
    ensures t in Lines(rows) <==> exists i :: (0 <= i < |rows| && FirstCell(rows[i]).Some?
      && PyStrip(FirstCell(rows[i]).value) == t && t != [] && !IsIntro(t) && !IsSpanish(t))
  {
    CollectedIn(rows, LineOf, t);
  }

  /** The lines of consecutive rows are the lines of each part, in order. */
  lemma LinesAppend(a: seq<seq<Option<string>>>, b: seq<seq<Option<string>>>)
    ensures Lines(a + b) == Lines(a) + Lines(b)
  {
    CollectedAppend(a, b, LineOf);
  }

  /** A chapter has lines exactly when some sheet is named for it. */
  lemma TranslationsKeys(sheets: seq<Sheet>, n: nat)
    ensures n in Translations(sheets) <==> exists i :: 0 <= i < |sheets| && SheetChapter(sheets[i].name) == Some(n)
  {
    ByChapterKeys(sheets, Lines, n);
  }

  /** Of several sheets for one chapter, the last one gives its lines. */
  lemma TranslationsLastWins(sheets: seq<Sheet>, i: nat, n: nat)
    requires i < |sheets| && SheetChapter(sheets[i].name) == Some(n)
    requires forall j :: i < j < |sheets| ==> SheetChapter(sheets[j].name) != Some(n)
    ensures n in Translations(sheets) && Translations(sheets)[n] == Lines(sheets[i].rows)
  {
    ByChapterLastWins(sheets, Lines, i, n);
  }

  /** The row loop of one sheet. */
  method SheetLines(rows: seq<seq<Option<string>>>) returns (content: seq<string>)
    ensures content == Lines(rows)
  {
    content := [];
    var k := 0;
    while k < |rows|
      invariant 0 <= k <= |rows|
      invariant content == Lines(rows[..k])
    {
      assert rows[..k + 1][..k] == rows[..k];
      var row := rows[k];
      var cell := if |row| > 0 then row[0] else None;
      if cell.Some? && PyStrip(cell.value) != [] {
        var text := PyStrip(cell.value);
        if !IsIntro(text) && !IsSpanish(text) {
          content := content + [text];
        }
      }
      k := k + 1;
    }
    assert rows[..|rows|] == rows;
  }

  /** extract_english_translations over the sheets of the workbook. */
  method ExtractEnglishTranslations(sheets: seq<Sheet>) returns (translations: map<nat, seq<string>>)
    ensures translations == Translations(sheets)
  {
    translations := map[];
    var k := 0;
    while k < |sheets|
      invariant 0 <= k <= |sheets|
      invariant translations == Translations(sheets[..k])
    {
      assert sheets[..k + 1][..k] == sheets[..k];
      var chapter := SheetChapter(sheets[k].name);
      if chapter.Some? {
        var content := SheetLines(sheets[k].rows);
        translations := translations[chapter.value := content];
      }
      k := k + 1;
    }
    assert sheets[..|sheets|] == sheets;
  }

  /** The lines of a chapter, none when no sheet was named for it. */
  function ContentOf(n: nat, translations: map<nat, seq<string>>): seq<string> {
    if n in translations then translations[n] else []
  }

  // ---------------------------------------------------------------------
  // The chapter title
  // ---------------------------------------------------------------------

  /** `^N\.\s+(.+)$` for the chapter's own number N: the group, if the line matches. */
  function TitleOf(n: nat, line: string): Option<string> {
    var key := NatToString(n) + ".";
    if |key| <= |line| && line[..|key|] == key then SpaceGroup(line[|key|..], 1) else None
  }

  /** The group of the first line that matches. */
  function FirstTitle(n: nat, lines: seq<string>): Option<string> {
    if lines == [] then None
    else if TitleOf(n, lines[0]).Some? then TitleOf(n, lines[0])
    else FirstTitle(n, lines[1..])
  }

  /** get_chapter_title: the first matching line's text, or "Chapter N". */
  function ChapterTitle(n: nat, translations: map<nat, seq<string>>): string {
    match FirstTitle(n, ContentOf(n, translations))
    case Some(t) => t
    case None => "Chapter " + NatToString(n)
  }

  /**
   * The search finds a title exactly when some line matches, and then it is
   * the group of the first such line.
   */
  lemma {:induction false} FirstTitleSpec(n: nat, lines: seq<string>)
    ensures FirstTitle(n, lines).None? <==> forall k :: 0 <= k < |lines| ==> TitleOf(n, lines[k]).None?
    ensures FirstTitle(n, lines).Some? ==> exists k :: (0 <= k < |lines| && FirstTitle(n, lines) == TitleOf(n, lines[k])
      && forall j :: 0 <= j < k ==> TitleOf(n, lines[j]).None?)
  {
    if lines != [] && TitleOf(n, lines[0]).None? {
      var rest := lines[1..];
      FirstTitleSpec(n, rest);
      assert forall k :: 1 <= k < |lines| ==> lines[k] == rest[k - 1];
      if FirstTitle(n, rest).Some? {
        var k :| 0 <= k < |rest| && FirstTitle(n, rest) == TitleOf(n, rest[k]) && forall j :: 0 <= j < k ==> TitleOf(n, rest[j]).None?;
        assert forall j :: 0 <= j < k + 1 ==> TitleOf(n, lines[j]).None? by {
          forall j | 0 <= j < k + 1 ensures TitleOf(n, lines[j]).None? {
            if j > 0 {
              assert lines[j] == rest[j - 1];
            }
          }
        }
        assert FirstTitle(n, lines) == TitleOf(n, lines[k + 1]);
      }
    }
  }

  /** Without a matching line, or without lines for the chapter, the title is "Chapter N". */
  lemma DefaultTitle(n: nat, translations: map<nat, seq<string>>)
    requires forall k :: 0 <= k < |ContentOf(n, translations)| ==> TitleOf(n, ContentOf(n, translations)[k]).None?
    ensures ChapterTitle(n, translations) == "Chapter " + NatToString(n)
  {
    FirstTitleSpec(n, ContentOf(n, translations));
  }

  /**
   * A line "N. " followed by a one-line text that starts with no space, the
   * first line of the chapter, gives that text as the title.
   */
  lemma NumberedTitle(n: nat, translations: map<nat, seq<string>>, t: string)
    requires n in translations && |translations[n]| > 0 && translations[n][0] == NatToString(n) + ". " + t
    requires t != [] && !IsPySpace(t[0]) && '\n' !in t
    ensures ChapterTitle(n, translations) == t
  {
    var line := translations[n][0];
    var key := NatToString(n) + ".";
    assert line == key + (" " + t);
    assert line[..|key|] == key && line[|key|..] == " " + t;
    LeadingCountOf(" ", t, IsPySpace);
    assert (" " + t)[1..] == t;
    SpaceGroupOf(" " + t, 1);
  }

  /** Another chapter's number does not make a title: "10." is not "1.". */
  lemma OtherNumberNoTitle(n: nat, m: nat, rest: string)
    requires NatToString(n) != NatToString(m) && |NatToString(n)| == |NatToString(m)|
    ensures TitleOf(n, NatToString(m) + "." + rest).None?
  {
    var line := NatToString(m) + "." + rest;
    var key := NatToString(n) + ".";
    assert line[..|key|] == NatToString(m) + ".";
    assert (NatToString(m) + ".")[..|key| - 1] == NatToString(m);
    assert key[..|key| - 1] == NatToString(n);
  }

  // ---------------------------------------------------------------------
  // Questions and options
  // ---------------------------------------------------------------------

  /** The question test: the shared question words, or the extra openings, or "usually" anywhere. */
  predicate IsQuestion(line: string) {
    || GenerateEnglish.IsQuestionLine(line) || StartsWith(line, "On a scale") || StartsWith(line, "Check all")
    || StartsWith(line, "Select the") || Contains(line, "usually")
  }

  /** A question line is never empty, so the current question is truthy once set. */
  lemma QuestionNonEmpty(line: string)
    requires IsQuestion(line)
    ensures line != []
  {
    if Contains(line, "usually") {
      ContainsIff(line, "usually");
    }
  }

  /** A bullet, "A."–"D." or checkbox line gives its stripped text; the four answer words give themselves. */
  function OptionValue(line: string): Option<string> {
    match GenerateEnglish.OptionOf(line)
    case Some(o) => Some(o.text)
    case None => if line == "True" || line == "False" || line == "Yes" || line == "No" then Some(line) else None
  }

  /** The answer words are options as they stand and are not questions. */
  lemma AnswerWordsKept(line: string)
    requires line == "True" || line == "False" || line == "Yes" || line == "No"
    ensures OptionValue(line) == Some(line) && !IsQuestion(line)
  {
    assert 2 <= |line| <= 5 && line[|line| - 1] != '?' && line[0] in "TFYN";
    assert line[0] == 'F' ==> line[1] == 'a';
    ShortNotQuestion(line);
    UnmarkedNoOption(line);
  }

  /** A line that starts with T, F, Y or N carries no option marker. */
  lemma UnmarkedNoOption(line: string)
    requires |line| > 0 && line[0] in "TFYN"
    ensures GenerateEnglish.OptionOf(line).None?
  {
    assert !IsBullet(line[0]) && !IsBox(line[0]) && !('A' <= line[0] <= 'D');
  }

  /**
   * A short line that starts with T, F (not "Fo"), Y or N and does not end
   * in a question mark is no question.
   */
  lemma ShortNotQuestion(line: string)
    requires 2 <= |line| <= 5 && line[|line| - 1] != '?' && line[0] in "TFYN"
    requires line[0] == 'F' ==> line[1] != 'o'
    ensures !IsQuestion(line)
  {
    ContainsIff(line, "usually");
  }

  /** A bullet, a space and a one-line trimmed answer give that answer. */
  lemma BulletValue(b: char, w: string)
    requires IsBullet(b) && w != [] && Trimmed(w) && '\n' !in w
    ensures OptionValue([b, ' '] + w) == Some(w)
  {
    var line := [b, ' '] + w;
    assert line[1..] == " " + w;
    LeadingCountOf(" ", w, IsPySpace);
    assert (" " + w)[1..] == w;
    SpaceGroupOf(" " + w, 0);
    TrimOfTrimmed(w, IsPySpace);
  }

  /** The question list, the options of each question text, and the current question. */
  datatype Lookup = Lookup(questions: seq<string>, options: map<string, seq<string>>, current: Option<string>)

  /** Options entered for a question text so far; a question is entered with none. */
  function OptionsFor(options: map<string, seq<string>>, q: string): seq<string> {
    if q in options then options[q] else []
  }

  /**
   * One line: a question is appended, gets a fresh empty option list and
   * becomes current; otherwise, once there is a current question, an option
   * line adds its option to it.
   */
  function Step(r: Lookup, line: string): Lookup {
    if IsQuestion(line) then Lookup(r.questions + [line], r.options[line := []], Some(line))
    else if r.current.Some? then
      match OptionValue(line)
      case Some(o) => var q := r.current.value; r.(options := r.options[q := OptionsFor(r.options, q) + [o]])
      case None => r
    else r
  }

  /** The lookup built from a chapter's lines. */
  function Scan(lines: seq<string>): Lookup {
    if lines == [] then Lookup([], map[], None) else Step(Scan(lines[..|lines| - 1]), lines[|lines| - 1])
  }

  function AsQuestion(line: string): Option<string> {
    if IsQuestion(line) then Some(line) else None
  }

  /** The lookup keeps: options only for questions, the current question the last one read. */
  ghost predicate Consistent(r: Lookup) {
    && (forall q :: q in r.options <==> q in r.questions)
    && (r.current.None? <==> r.questions == [])
    && (r.current.Some? ==> r.current.value == r.questions[|r.questions| - 1])
  }

  /**
   * The questions are the question lines in order, each has an option list,
   * and the current question is the last of them.
   */
  lemma {:induction false} ScanSpec(lines: seq<string>)
    ensures Scan(lines).questions == Collected(lines, AsQuestion)
    ensures Consistent(Scan(lines))
  {
    if lines != [] {
      var init := lines[..|lines| - 1];
      ScanSpec(init);
      StepKeeps(Scan(init), lines[|lines| - 1]);
    }
  }

  /** One line keeps the lookup consistent and appends the line to the questions if it is one. */
  lemma StepKeeps(r: Lookup, line: string)
    requires Consistent(r)
    ensures Consistent(Step(r, line))
    ensures Step(r, line).questions == r.questions + (if AsQuestion(line).Some? then [AsQuestion(line).value] else [])
  {
    if IsQuestion(line) {
      var r' := Step(r, line);
      assert r'.questions == r.questions + [line];
      assert forall q :: q in r'.questions <==> q in r.questions || q == line;
    }
  }

  /** Options are only ever entered after a question: before one every line is ignored. */
  lemma NoQuestionNoOptions(lines: seq<string>)
    requires forall k :: 0 <= k < |lines| ==> !IsQuestion(lines[k])
    ensures Scan(lines).options == map[] && Scan(lines).questions == []
  {
    ScanSpec(lines);
    CollectedNone(lines);
  }

  lemma {:induction false} CollectedNone(lines: seq<string>)
    requires forall k :: 0 <= k < |lines| ==> !IsQuestion(lines[k])
    ensures Collected(lines, AsQuestion) == []
  {
    if lines != [] {
      CollectedNone(lines[..|lines| - 1]);
    }
  }

  /**
   * The options of the last question read are the option values of the
   * lines after it, in order; a repeated question starts a fresh list.
   */
  lemma {:induction false} OptionsAfterLast(pre: seq<string>, q: string, post: seq<string>)
    requires IsQuestion(q)
    requires forall k :: 0 <= k < |post| ==> !IsQuestion(post[k])
    ensures Scan(pre + [q] + post).current == Some(q)
    ensures q in Scan(pre + [q] + post).options && Scan(pre + [q] + post).options[q] == Collected(post, OptionValue)
    decreases |post|
  {
    var lines := pre + [q] + post;
    if post == [] {
      assert lines[..|lines| - 1] == pre;
    } else {
      var init := post[..|post| - 1];
      var last := post[|post| - 1];
      assert lines[..|lines| - 1] == pre + [q] + init;
      assert lines[|lines| - 1] == last;
      OptionsAfterLast(pre, q, init);
      OptionStep(Scan(pre + [q] + init), q, last);
    }
  }

  /** A line that is not a question adds its option value, if any, to the current question. */
  lemma OptionStep(r: Lookup, q: string, line: string)
    requires r.current == Some(q) && q in r.options && !IsQuestion(line)
    ensures Step(r, line).current == Some(q) && q in Step(r, line).options
    ensures Step(r, line).options[q] == r.options[q] + (if OptionValue(line).Some? then [OptionValue(line).value] else [])
  {
  }

  /** The question loop of translate_capitulo. */
  method ReadQuestions(content: seq<string>) returns (lookup: Lookup)
    ensures lookup == Scan(content)
  {
    var questions: seq<string> := [];
    var options: map<string, seq<string>> := map[];
    var current: Option<string> := None;
    var k := 0;
    while k < |content|
      invariant 0 <= k <= |content|
      invariant Lookup(questions, options, current) == Scan(content[..k])
    {
      assert content[..k + 1][..k] == content[..k];
      var line := content[k];
      if IsQuestion(line) {
        current := Some(line);
        questions := questions + [line];
        options := options[line := []];
      } else if current.Some? {
        var option := OptionValue(line);
        if option.Some? {
          options := options[current.value := OptionsFor(options, current.value) + [option.value]];
        }
      }
      k := k + 1;
    }
    assert content[..|content|] == content;
    lookup := Lookup(questions, options, current);
  }

  // ---------------------------------------------------------------------
  // The page rewrites
  // ---------------------------------------------------------------------

  /** The regular expressions translate_capitulo substitutes with. */
  datatype Pattern =
    | PageTitle              // <title>Capítulo (\d+)[^<]*</title>
    | Heading                // <h1>[^<]*</h1>
    | ChapterName            // window\.chapterName = "[^"]*"
    | QuestionTitle(q: nat)  // (<div class="question-title">Q{q}:\s*)[^<]+
    | ScriptQuestion(q: nat) // (q{q}:\s*")[^"]*(")

  const TitleOpen: string := "<title>Capítulo "
  const NameOpen: string := "window.chapterName = \""

  /** What the i-th question title starts with. */
  function TitleKey(q: nat): string { "<div class=\"question-title\">Q" + NatToString(q) + ":" }

  /** The script field of the i-th question. */
  function ScriptName(q: nat): string { "q" + NatToString(q) }

  /** The literal text every match of the pattern starts with. */
  function Opening(p: Pattern): string {
    match p
    case PageTitle => TitleOpen
    case Heading => "<h1>"
    case ChapterName => NameOpen
    case QuestionTitle(q) => TitleKey(q)
    case ScriptQuestion(q) => ScriptName(q) + ":"
  }

  /** The title opening, at least one digit, then text up to the first `<`, which must open `</title>`. */
  function PageTitleHit(h: string, i: nat): (r: Option<Hit>)
    requires i <= |h|
    ensures r.Some? ==> i <= r.value.keep <= r.value.close <= r.value.end <= |h| && i < r.value.end
  {
    if !OccursAt(h, TitleOpen, i) || DigitRun(h[i + |TitleOpen|..]) == 0 then None
    else
      var c := FirstFrom(h, '<', i + |TitleOpen|);
      if OccursAt(h, "</title>", c) then Some(Hit(i, c + 8, c + 8)) else None
  }

  /** `<h1>`, then text up to the first `<`, which must open `</h1>`. */
  function HeadingHit(h: string, i: nat): (r: Option<Hit>)
    requires i <= |h|
    ensures r.Some? ==> i <= r.value.keep <= r.value.close <= r.value.end <= |h| && i < r.value.end
  {
    if !OccursAt(h, "<h1>", i) then None
    else
      var c := FirstFrom(h, '<', i + 4);
      if OccursAt(h, "</h1>", c) then Some(Hit(i, c + 5, c + 5)) else None
  }

  /** The chapter-name assignment up to the closing quote of its string. */
  function ChapterNameHit(h: string, i: nat): (r: Option<Hit>)
    requires i <= |h|
    ensures r.Some? ==> i <= r.value.keep <= r.value.close <= r.value.end <= |h| && i < r.value.end
  {
    if !OccursAt(h, NameOpen, i) then None
    else
      var c := FirstFrom(h, '"', i + |NameOpen|);
      if c < |h| then Some(Hit(i, c + 1, c + 1)) else None
  }

  /**
   * The title key, the spaces after it, then text up to the first `<`. When
   * only spaces stand before the `<`, the matcher gives the last space back
   * to `[^<]+`.
   */
  function QuestionTitleHit(h: string, i: nat, key: string): (r: Option<Hit>)
    requires i <= |h| && key != []
    ensures r.Some? ==> i <= r.value.keep <= r.value.close <= r.value.end <= |h| && i < r.value.end
  {
    if !OccursAt(h, key, i) then None
    else
      var p := i + |key|;
      var w := p + LeadingCount(h[p..], IsPySpace);
      if w < |h| && h[w] != '<' then
        var c := FirstFrom(h, '<', w);
        Some(Hit(w, c, c))
      else if w > p then Some(Hit(w - 1, w, w))
      else None
  }

  function Match(p: Pattern, h: string, i: nat): (r: Option<Hit>)
    ensures r.Some? ==> i <= r.value.keep <= r.value.close <= r.value.end <= |h| && i < r.value.end
  {
    if i > |h| then None
    else
      match p
      case PageTitle => PageTitleHit(h, i)
      case Heading => HeadingHit(h, i)
      case ChapterName => ChapterNameHit(h, i)
      case QuestionTitle(q) => QuestionTitleHit(h, i, TitleKey(q))
      case ScriptQuestion(q) => TranslateChapters.ConversationValueHit(h, i, ScriptName(q))
  }

  /** Where the opening text is not, no match starts. */
  lemma NoOpeningNoHit(p: Pattern, h: string, i: nat)
    requires !OccursAt(h, Opening(p), i)
    ensures Match(p, h, i).None?
  {
  }

  /** The matches of a pattern, position by position. */
  function Hits(p: Pattern, h: string): nat -> Option<Hit> {
    (j: nat) => Match(p, h, j)
  }

  /** re.sub: every match rewritten. */
  function SubAll(h: string, p: Pattern, text: string): string {
    SubFrom(h, Hits(p, h), text, 0)
  }

  /** re.sub with count=1: the first match rewritten. */
  function SubFirst(h: string, p: Pattern, text: string): string {
    SubOnceFrom(h, Hits(p, h), text, 0)
  }

  /** A page without the opening text comes through either substitution unchanged. */
  lemma NoOpeningUnchanged(h: string, p: Pattern, text: string)
    requires !Contains(h, Opening(p))
    ensures SubAll(h, p, text) == h && SubFirst(h, p, text) == h
  {
    ContainsIff(h, Opening(p));
    forall j | 0 <= j < |h| ensures Hits(p, h)(j).None? {
      NoOpeningNoHit(p, h, j);
    }
    SubFromSkip(h, Hits(p, h), text, 0, |h|);
    SubOnceNone(h, Hits(p, h), text, 0);
    assert h[0..|h|] == h;
  }

  /** With count=1, the first match alone is rewritten and the rest of the page is kept. */
  lemma FirstMatchOnly(h: string, p: Pattern, text: string, i: nat)
    requires Match(p, h, i).Some?
    requires forall j :: 0 <= j < i ==> !OccursAt(h, Opening(p), j)
    ensures var m := Match(p, h, i).value;
      SubFirst(h, p, text) == h[..m.keep] + text + h[m.close..]
  {
    var m := Match(p, h, i).value;
    forall j | 0 <= j < i ensures Hits(p, h)(j).None? {
      NoOpeningNoHit(p, h, j);
    }
    SubOnceFirst(h, Hits(p, h), text, 0, i, m);
  }

  /** The texts put in place of the title, the heading and the chapter name. */
  function TitleText(n: nat): string { "<title>Chapter " + NatToString(n) + " - After watching the video</title>" }

  const HeadingText: string := "<h1>After watching the video, complete this exercise:</h1>"

  function NameText(n: nat): string { "window.chapterName = \"Chapter " + NatToString(n) + "\"" }

  /** The script string of the i-th question: its number and its text with quotes escaped. */
  function ScriptText(q: nat, text: string): string { "Q" + NatToString(q) + ": " + EscapeQuotes(text) }

  /** The i-th question's first title rewritten, for i = 1 .. |qs|. */
  function TitlesApplied(h: string, qs: seq<string>): string {
    if qs == [] then h else SubFirst(TitlesApplied(h, qs[..|qs| - 1]), QuestionTitle(|qs|), qs[|qs| - 1])
  }

  /** The i-th question's first script string rewritten, for i = 1 .. |qs|. */
  function ScriptApplied(h: string, qs: seq<string>): string {
    if qs == [] then h
    else SubFirst(ScriptApplied(h, qs[..|qs| - 1]), ScriptQuestion(|qs|), ScriptText(|qs|, qs[|qs| - 1]))
  }

  /** The option labels and values, Spanish to English, in table order. */
  function OptionTable(): seq<(string, string)> {
    [("Si", "Yes"), ("No", "No"), ("Verdadero", "True"), ("Falso", "False"), ("Dinero", "Money"),
     ("Felicidad", "Happiness"), ("Paz", "Peace"), ("Amor", "Love"), ("Autoestima", "Self-esteem"),
     ("La infancia", "Childhood"), ("La adolescencia", "Adolescence"), ("La adultez", "Adulthood"),
     ("Todas las anteriores", "All of the above")]
  }

  /** The interface texts, Spanish to English, in table order. */
  function UiTable(): seq<(string, string)> {
    [("Conversen:", "Discuss:"), ("Correo Electrónico", "Email Address"),
     ("Escribe tu respuesta aquí...", "Write your answer here..."), ("ejemplo@correo.com", "example@email.com"),
     ("Enviar Encuesta", "Submit Survey"), ("Limpiar", "Clear"),
     ("¡Encuesta enviada correctamente!", "Survey submitted successfully!"),
     ("Resumen de tus respuestas", "Summary of your answers"), ("Reflexión:", "Reflection:")]
  }

  /** At most the first twenty questions. */
  function Used(qs: seq<string>): seq<string> {
    if |qs| <= 20 then qs else qs[..20]
  }

  /** The page after every substitution, with the given questions. */
  function Rewritten(html: string, n: nat, used: seq<string>): string {
    var h1 := ReplaceAll(html, "lang=\"es\"", "lang=\"en\"");
    var h2 := SubAll(h1, PageTitle, TitleText(n));
    var h3 := SubAll(h2, Heading, HeadingText);
    var h4 := SubAll(h3, ChapterName, NameText(n));
    var h5 := TitlesApplied(h4, used);
    var h6 := FixTranslations.WithPairs(h5, OptionTable());
    var h7 := FixDiscussions.Translated(h6, UiTable());
    ScriptApplied(h7, used)
  }

  /** translate_capitulo: the page rewritten with the chapter's first twenty questions. */
  function Translated(html: string, n: nat, translations: map<nat, seq<string>>): string {
    Rewritten(html, n, Used(Scan(ContentOf(n, translations)).questions))
  }

  /** translate_capitulo: the question loop, then the substitutions with the first twenty questions. */
  method TranslateCapitulo(html: string, n: nat, translations: map<nat, seq<string>>) returns (english: string)
    ensures english == Translated(html, n, translations)
  {
    var content := if n in translations then translations[n] else [];
    var lookup := ReadQuestions(content);
    var used := if |lookup.questions| <= 20 then lookup.questions else lookup.questions[..20];
    english := RewritePage(html, n, used);
  }

  /** The substitutions, in the order the script makes them. */
  method RewritePage(html: string, n: nat, used: seq<string>) returns (english: string)
    ensures english == Rewritten(html, n, used)
  {
    english := ReplaceAll(html, "lang=\"es\"", "lang=\"en\"");
    english := SubAll(english, PageTitle, TitleText(n));
    english := SubAll(english, Heading, HeadingText);
    english := SubAll(english, ChapterName, NameText(n));
    english := ReplaceTitles(english, used);
    english := ReplaceOptions(english, OptionTable());
    english := FixDiscussions.ApplyTranslations(english, UiTable());
    english := ReplaceScript(english, used);
  }

  /** The question-title loop. */
  method ReplaceTitles(h: string, used: seq<string>) returns (english: string)
    ensures english == TitlesApplied(h, used)
  {
    english := h;
    var k := 0;
    while k < |used|
      invariant 0 <= k <= |used|
      invariant english == TitlesApplied(h, used[..k])
    {
      assert used[..k + 1][..k] == used[..k];
      english := SubFirst(english, QuestionTitle(k + 1), used[k]);
      k := k + 1;
    }
    assert used[..|used|] == used;
  }

  /** The option loop: each pair's label, then its value. */
  method ReplaceOptions(h: string, table: seq<(string, string)>) returns (english: string)
    ensures english == FixTranslations.WithPairs(h, table)
  {
    english := h;
    var k := 0;
    while k < |table|
      invariant 0 <= k <= |table|
      invariant english == FixTranslations.WithPairs(h, table[..k])
    {
      assert table[..k + 1][..k] == table[..k];
      var (spanish, target) := table[k];
      english := ReplaceAll(english, FixTranslations.Label(spanish), FixTranslations.Label(target));
      english := ReplaceAll(english, FixTranslations.ValueAttr(spanish), FixTranslations.ValueAttr(target));
      k := k + 1;
    }
    assert table[..|table|] == table;
  }

  /** The script-question loop. */
  method ReplaceScript(h: string, used: seq<string>) returns (english: string)
    ensures english == ScriptApplied(h, used)
  {
    english := h;
    var k := 0;
    while k < |used|
      invariant 0 <= k <= |used|
      invariant english == ScriptApplied(h, used[..k])
    {
      assert used[..k + 1][..k] == used[..k];
      english := SubFirst(english, ScriptQuestion(k + 1), ScriptText(k + 1, used[k]));
      k := k + 1;
    }
    assert used[..|used|] == used;
  }

  // ---------------------------------------------------------------------
  // What the rewrites promise
  // ---------------------------------------------------------------------

  /**
   * Only the first twenty questions count: once a chapter's lines hold
   * twenty questions, further lines change nothing in the page.
   */
  lemma LaterLinesIgnored(html: string, n: nat, translations: map<nat, seq<string>>, extra: seq<string>)
    requires |Scan(ContentOf(n, translations)).questions| >= 20
    ensures Translated(html, n, translations[n := ContentOf(n, translations) + extra]) == Translated(html, n, translations)
  {
    var c := ContentOf(n, translations);
    var longer := translations[n := c + extra];
    assert ContentOf(n, longer) == c + extra;
    ScanSpec(c);
    ScanSpec(c + extra);
    CollectedAppend(c, extra, AsQuestion);
    var qs := Scan(c).questions;
    assert Used(qs + Collected(extra, AsQuestion)) == Used(qs);
  }

  /**
   * The i-th question title, its key first met at the end of pre, has its
   * text replaced; a later title with the same key is left alone.
   */
  lemma QuestionTitleRewritten(pre: string, q: nat, sp: string, was: string, post: string, text: string)
    requires forall k :: 0 <= k < |sp| ==> IsPySpace(sp[k])
    requires was != [] && !IsPySpace(was[0]) && '<' !in was
    requires post == [] || post[0] == '<'
    requires forall j :: 0 <= j < |pre| ==> !OccursAt(pre + TitleKey(q) + sp + was + post, TitleKey(q), j)
    ensures SubFirst(pre + TitleKey(q) + sp + was + post, QuestionTitle(q), text) == pre + TitleKey(q) + sp + text + post
  {
    var key := TitleKey(q);
    var page := pre + key + sp + was + post;
    var head := pre + key + sp;
    assert page == head + was + post;
    KeyAndSpaces(page, pre, key, sp, was + post);
    TextRun(page, head, was, post);
    QuestionTitleAt(page, |pre|, q, |head|);
    FirstMatchOnly(page, QuestionTitle(q), text, |pre|);
  }

  /** The key at i, then spaces up to w, where text other than `<` starts: a match that keeps up to w. */
  lemma QuestionTitleAt(h: string, i: nat, q: nat, w: nat)
    requires OccursAt(h, TitleKey(q), i)
    requires w == i + |TitleKey(q)| + LeadingCount(h[i + |TitleKey(q)|..], IsPySpace)
    requires w < |h| && h[w] != '<'
    ensures Match(QuestionTitle(q), h, i) == Some(Hit(w, FirstFrom(h, '<', w), FirstFrom(h, '<', w)))
  {
    KeyedTitleAt(h, i, TitleKey(q), w);
  }

  lemma KeyedTitleAt(h: string, i: nat, key: string, w: nat)
    requires key != [] && OccursAt(h, key, i)
    requires w == i + |key| + LeadingCount(h[i + |key|..], IsPySpace)
    requires w < |h| && h[w] != '<'
    ensures QuestionTitleHit(h, i, key) == Some(Hit(w, FirstFrom(h, '<', w), FirstFrom(h, '<', w)))
  {
  }

  /** A key, then spaces, then something that is not a space. */
  lemma KeyAndSpaces(page: string, pre: string, key: string, sp: string, rest: string)
    requires page == pre + key + sp + rest
    requires forall k :: 0 <= k < |sp| ==> IsPySpace(sp[k])
    requires rest == [] || !IsPySpace(rest[0])
    ensures OccursAt(page, key, |pre|)
    ensures LeadingCount(page[|pre| + |key|..], IsPySpace) == |sp|
  {
    assert page == pre + key + (sp + rest);
    OccursMiddle(pre, key, sp + rest);
    assert page[|pre| + |key|..] == sp + rest;
    LeadingCountOf(sp, rest, IsPySpace);
  }

  /** Text without `<` after head runs up to the `<` that starts post, or to the end. */
  lemma TextRun(page: string, head: string, was: string, post: string)
    requires page == head + was + post
    requires was != [] && '<' !in was
    requires post == [] || post[0] == '<'
    ensures |head| < |page| && page[|head|] != '<'
    ensures FirstFrom(page, '<', |head|) == |head| + |was|
    ensures page[..|head|] == head && page[|head| + |was|..] == post
  {
    TextRunSlices(head, was, post);
    assert was[0] in was;
    TextRunFind(head, was, post);
  }

  lemma TextRunSlices(head: string, was: string, post: string)
    requires was != []
    ensures |head| < |head + was + post| && (head + was + post)[|head|] == was[0]
    ensures (head + was + post)[..|head|] == head
    ensures (head + was + post)[|head| + |was|..] == post
  {
  }

  lemma TextRunFind(head: string, was: string, post: string)
    requires '<' !in was
    requires post == [] || post[0] == '<'
    ensures FirstFrom(head + was + post, '<', |head|) == |head| + |was|
  {
    var rest := was + post;
    assert head + was + post == head + rest;
    FirstFromShift(head, rest, '<', 0);
    FirstFromNone(was, '<', 0);
    FirstFromJoin(was, post, '<', 0);
    assert FirstFrom(post, '<', 0) == 0;
  }

  /**
   * The i-th script string, its key first met at the end of pre, gets the
   * numbered question with its quotes escaped; a later one is left alone.
   */
  lemma ScriptQuestionRewritten(pre: string, q: nat, sp: string, was: string, post: string, text: string)
    requires forall k :: 0 <= k < |sp| ==> IsPySpace(sp[k])
    requires '"' !in was
    requires forall j :: 0 <= j < |pre| ==> !OccursAt(pre + ScriptName(q) + ":" + sp + "\"" + was + "\"" + post, ScriptName(q) + ":", j)
    ensures SubFirst(pre + ScriptName(q) + ":" + sp + "\"" + was + "\"" + post, ScriptQuestion(q), ScriptText(q, text))
         == pre + ScriptName(q) + ":" + sp + "\"" + ScriptText(q, text) + "\"" + post
  {
    var name := ScriptName(q);
    var page := pre + name + ":" + sp + "\"" + was + "\"" + post;
    var head := pre + name + ":" + sp + "\"";
    TranslateChapters.KeyPage(page, pre, name, sp, was, post);
    TranslateChapters.SpacePage(page, pre, name, sp, was, post);
    TranslateChapters.QuotePage(page, head, was, post);
    ScriptQuestionAt(page, |pre|, q, |sp|, |head|, |head| + |was|);
    FirstMatchOnly(page, ScriptQuestion(q), ScriptText(q, text), |pre|);
    Regroup(head, ScriptText(q, text), "\"", post);
  }

  /** The key at i, n spaces, the opening quote ending at keep, the next quote at c: a match of the value. */
  lemma ScriptQuestionAt(h: string, i: nat, q: nat, n: nat, keep: nat, c: nat)
    requires OccursAt(h, ScriptName(q) + ":", i)
    requires LeadingCount(h[i + |ScriptName(q) + ":"|..], IsPySpace) == n
    requires keep == i + |ScriptName(q) + ":"| + n + 1 <= |h| && h[keep - 1] == '"'
    requires FirstFrom(h, '"', keep) == c < |h|
    ensures Match(ScriptQuestion(q), h, i) == Some(Hit(keep, c, c + 1))
  {
    NamedValueAt(h, i, ScriptName(q), n, keep, c);
  }

  lemma NamedValueAt(h: string, i: nat, name: string, n: nat, keep: nat, c: nat)
    requires OccursAt(h, name + ":", i)
    requires LeadingCount(h[i + |name + ":"|..], IsPySpace) == n
    requires keep == i + |name + ":"| + n + 1 <= |h| && h[keep - 1] == '"'
    requires FirstFrom(h, '"', keep) == c < |h|
    ensures TranslateChapters.ConversationValueHit(h, i, name) == Some(Hit(keep, c, c + 1))
  {
  }

  /** Every quote of the inserted script string has a backslash before it. */
  lemma ScriptTextEscaped(q: nat, text: string)
    ensures forall k :: 0 <= k < |ScriptText(q, text)| && ScriptText(q, text)[k] == '"' ==>
      k > 0 && ScriptText(q, text)[k - 1] == '\\'
  {
    var prefix := "Q" + NatToString(q) + ": ";
    var e := EscapeQuotes(text);
    EscapeQuotesGuarded(text);
    NumberPrefixPlain(q);
    forall k | 0 <= k < |prefix + e| && (prefix + e)[k] == '"' ensures k > 0 && (prefix + e)[k - 1] == '\\' {
      if k < |prefix| {
        assert false;
      } else {
        assert (prefix + e)[k] == e[k - |prefix|];
        if k - |prefix| > 0 {
          assert (prefix + e)[k - 1] == e[k - |prefix| - 1];
        } else {
          assert false;
        }
      }
    }
  }

  lemma NumberPrefixPlain(q: nat)
    ensures '"' !in "Q" + NatToString(q) + ": "
  {
    var p := "Q" + NatToString(q) + ": ";
    assert forall k :: 0 <= k < |NatToString(q)| ==> IsDigit(NatToString(q)[k]);
    forall k | 0 <= k < |p| ensures p[k] != '"' {
      if 1 <= k < 1 + |NatToString(q)| {
        assert p[k] == NatToString(q)[k - 1];
      }
    }
  }

  /**
   * The option pass touches only whole labels `>X<` and values `value="X"`:
   * a page holding none of a table source's comes through unchanged.
   */
  lemma OptionPassKeeps(h: string)
    requires FixTranslations.Clean(h, OptionTable())
    ensures FixTranslations.WithPairs(h, OptionTable()) == h
  {
    FixTranslations.WithPairsClean(h, OptionTable());
  }
}
