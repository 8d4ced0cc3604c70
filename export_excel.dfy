/**
 * The spreadsheet exporter: it reads each chapter page into a record of its
 * translatable texts and lays the records out as two sheets, Questions and
 * UI Elements, ordered by chapter. A page is given as the elements the HTML
 * parser finds in it, each text already stripped; a sheet is a sequence of
 * rows of cells, the first being the header: the chapter number is a number
 * cell and every text a text cell, an empty text leaving its cell empty.
 */
module ExportExcel {
  import opened Wrappers
  import opened Text
  import Models
  import Parser
  import Sorting
  import ImportExcel

  type Row = ImportExcel.Row
  type SheetQuestion = ImportExcel.SheetQuestion<string>
  type Cell = ImportExcel.Cell

  // ---------------------------------------------------------------------
  // The chapter number in a file name
  // ---------------------------------------------------------------------

  const Marker: string := "capitulo_"

  /** `capitulo_` followed by a digit starts at position i of the name. */
  predicate NumberAt(name: string, i: int) {
    0 <= i && i + |Marker| < |name| && name[i..i + |Marker|] == Marker && IsDigit(name[i + |Marker|])
  }

  /** The value of the digits s starts with, taken greedily as `\d+` does. */
  function RunValue(s: string): nat {
    DigitsValue(s[..DigitRun(s)])
  }

  /** re.search(r'capitulo_(\d+)', name) from position i on: the number of the leftmost match. */
  function SearchNumber(name: string, i: nat): Option<nat>
    decreases |name| - i
  {
    if i + |Marker| >= |name| then None
    else if NumberAt(name, i) then Some(RunValue(name[i + |Marker|..]))
    else SearchNumber(name, i + 1)
  }

  /** The chapter number of a file name, 0 when it has no `capitulo_<digits>`. */
  function ChapterNumber(name: string): nat {
    match SearchNumber(name, 0)
    case Some(n) => n
    case None => 0
  }

  /** The search fails exactly when no match starts at or after i. */
  lemma {:induction false} SearchNumberNone(name: string, i: nat)
    ensures SearchNumber(name, i).None? <==> forall j :: i <= j ==> !NumberAt(name, j)
    decreases |name| - i
  {
    if i + |Marker| < |name| && !NumberAt(name, i) {
      SearchNumberNone(name, i + 1);
    }
  }

  /** A successful search finds the leftmost match and reads its digits. */
  lemma {:induction false} SearchNumberFound(name: string, i: nat) returns (j: nat)
    requires SearchNumber(name, i).Some?
    ensures i <= j && NumberAt(name, j) && forall k :: i <= k < j ==> !NumberAt(name, k)
    ensures SearchNumber(name, i).value == RunValue(name[j + |Marker|..])
    decreases |name| - i
  {
    if NumberAt(name, i) {
      j := i;
    } else {
      j := SearchNumberFound(name, i + 1);
    }
  }

  /** A name without `capitulo_<digit>` anywhere gets chapter 0. */
  lemma ChapterNumberAbsent(name: string)
    requires forall j :: 0 <= j < |name| ==> !NumberAt(name, j)
    ensures ChapterNumber(name) == 0
  {
    SearchNumberNone(name, 0);
  }

  /** A name that starts with `capitulo_` and digits carries the number those digits spell. */
  lemma ChapterNumberOfDigits(p: string, rest: string)
    requires p != [] && AllDigits(p) && (rest == [] || !IsDigit(rest[0]))
    ensures ChapterNumber(Marker + p + rest) == DigitsValue(p)
  {
    var name := Marker + p + rest;
    assert name[..|Marker|] == Marker && name[|Marker|] == p[0];
    assert NumberAt(name, 0);
    assert name[|Marker|..] == p + rest;
    DigitRunOf(p, rest);
    assert (p + rest)[..|p|] == p;
  }

  /** The file the chapter tool writes for Spanish chapter n is read back as chapter n. */
  lemma ChapterNumberOfFileName(n: nat)
    ensures ChapterNumber(Parser.ChapterFileName(Models.Spanish, n)) == n
  {
    var p := Pad2(n);
    assert Parser.ChapterFileName(Models.Spanish, n) == Marker + p + ".html";
    Pad2Value(n);
    ChapterNumberOfDigits(p, ".html");
  }

  // ---------------------------------------------------------------------
  // The page elements and the chapter record
  // ---------------------------------------------------------------------

  /** The attributes of an input or textarea the export reads, when present. */
  datatype Tag = Tag(name: Option<string>, placeholder: Option<string>)

  /** A `text-input-section` div: its first label's text, its first textarea and its first email input. */
  datatype TextInput = TextInput(labelText: Option<string>, textarea: Option<Tag>, emailInput: Option<Tag>)

  /**
   * A `question-section` div: the text of its `question-title` div, the
   * label texts of the `option` divs of its `options` div (None for an
   * option without a label), its first input and its `text-input-section`.
   */
  datatype Section = Section(
    title: Option<string>, options: Option<seq<Option<string>>>, firstInput: Option<Tag>, textInput: Option<TextInput>)

  /** The elements of a page the export reads, in document order. */
  datatype Page = Page(
    title: Option<string>, h1: Option<string>, sections: seq<Section>,
    submitButton: Option<string>, resetButton: Option<string>, successMessage: Option<string>, summaryTitle: Option<string>)

  /** The record extract_chapter_data returns. */
  datatype ChapterData = ChapterData(
    chapterNum: nat, filename: string, title: string, mainInstruction: string, questions: seq<SheetQuestion>,
    conversationLabel: string, conversationPlaceholder: string, emailLabel: string, emailPlaceholder: string,
    submitButton: string, resetButton: string, successMessage: string, summaryTitle: string)

  /** The record before anything is read from the page. */
  function Defaults(filename: string): ChapterData {
    ChapterData(ChapterNumber(filename), filename, "", "", [], "", "", "", "", "", "", "", "")
  }

  /** The text of an element when it is found, otherwise the current value. */
  function Found(t: Option<string>, current: string): string {
    match t
    case Some(x) => x
    case None => current
  }

  /** An attribute that is present and not empty: truthy in Python. */
  predicate Truthy(a: Option<string>) {
    a.Some? && a.value != ""
  }

  /** How a section is read, in the order the tests are made. */
  datatype Kind = Untitled | QuestionTitled(title: string) | ConversationTitled | EmailTitled(title: string) | Unread

  function KindOf(s: Section): Kind {
    match s.title
    case None => Untitled
    case Some(t) =>
      if StartsWith(t, "Q") then QuestionTitled(t)
      else if Contains(t, "Convers") then ConversationTitled
      else if Contains(t, "Correo") || Contains(t, "Email") then EmailTitled(t)
      else Unread
  }

  /** The label texts that are present, in document order. */
  function Labels(ls: seq<Option<string>>): seq<string> {
    if ls == [] then []
    else
      var last := ls[|ls| - 1];
      Labels(ls[..|ls| - 1]) + (if last.Some? then [last.value] else [])
  }

  /** The name of the first input, "" without an input or without a name. */
  function QuestionId(s: Section): string {
    match s.firstInput
    case Some(tag) => Found(tag.name, "")
    case None => ""
  }

  /** The question a section with the given title holds. */
  function SectionQuestion(s: Section, title: string): SheetQuestion {
    ImportExcel.SheetQuestion(QuestionId(s), title, if s.options.Some? then Labels(s.options.value) else [])
  }

  /** The conversation label and placeholder of a section, when it has them. */
  function ConversationFields(d: ChapterData, ti: Option<TextInput>): ChapterData {
    match ti
    case None => d
    case Some(t) =>
      var d1 := if t.labelText.Some? then d.(conversationLabel := t.labelText.value) else d;
      if t.textarea.Some? && Truthy(t.textarea.value.placeholder) then
        d1.(conversationPlaceholder := t.textarea.value.placeholder.value)
      else d1
  }

  /** The email placeholder of a section, when it has one. */
  function EmailFields(d: ChapterData, ti: Option<TextInput>): ChapterData {
    match ti
    case None => d
    case Some(t) =>
      if t.emailInput.Some? && Truthy(t.emailInput.value.placeholder) then
        d.(emailPlaceholder := t.emailInput.value.placeholder.value)
      else d
  }

  /** The record after reading one more section. */
  function Absorb(d: ChapterData, s: Section): ChapterData {
    match KindOf(s)
    case Untitled => d
    case QuestionTitled(t) => d.(questions := d.questions + [SectionQuestion(s, t)])
    case ConversationTitled => ConversationFields(d, s.textInput)
    case EmailTitled(t) => EmailFields(d, s.textInput).(emailLabel := t)
    case Unread => d
  }

  function AbsorbAll(d: ChapterData, ss: seq<Section>): ChapterData {
    if ss == [] then d else Absorb(AbsorbAll(d, ss[..|ss| - 1]), ss[|ss| - 1])
  }

  /** What extract_chapter_data returns for a file name and its page. */
  function Extracted(filename: string, page: Page): ChapterData {
    var d0 := Defaults(filename);
    var d1 := d0.(title := Found(page.title, d0.title), mainInstruction := Found(page.h1, d0.mainInstruction));
    var d2 := AbsorbAll(d1, page.sections);
    d2.(submitButton := Found(page.submitButton, d2.submitButton), resetButton := Found(page.resetButton, d2.resetButton),
        successMessage := Found(page.successMessage, d2.successMessage), summaryTitle := Found(page.summaryTitle, d2.summaryTitle))
  }

  /** The option loop: the text of every option that has a label, in order. */
  method CollectLabels(ls: seq<Option<string>>) returns (options: seq<string>)
    ensures options == Labels(ls)
  {
    options := [];
    for k := 0 to |ls|
      invariant options == Labels(ls[..k])
    {
      assert ls[..k + 1][..k] == ls[..k];
      if ls[k].Some? {
        options := options + [ls[k].value];
      }
    }
    assert ls[..|ls|] == ls;
  }

  /** One pass of the section loop of extract_chapter_data. */
  method ReadSection(d: ChapterData, s: Section) returns (r: ChapterData)
    ensures r == Absorb(d, s)
  {
    r := d;
    if s.title.None? {
      return;
    }
    var t := s.title.value;
    if StartsWith(t, "Q") {
      var options: seq<string> := [];
      if s.options.Some? {
        options := CollectLabels(s.options.value);
      }
      var qid := "";
      if s.firstInput.Some? && s.firstInput.value.name.Some? {
        qid := s.firstInput.value.name.value;
      }
      r := r.(questions := r.questions + [ImportExcel.SheetQuestion(qid, t, options)]);
    } else if Contains(t, "Convers") {
      if s.textInput.Some? {
        var ti := s.textInput.value;
        if ti.labelText.Some? {
          r := r.(conversationLabel := ti.labelText.value);
        }
        if ti.textarea.Some? && Truthy(ti.textarea.value.placeholder) {
          r := r.(conversationPlaceholder := ti.textarea.value.placeholder.value);
        }
      }
    } else if Contains(t, "Correo") || Contains(t, "Email") {
      if s.textInput.Some? {
        var ti := s.textInput.value;
        if ti.emailInput.Some? && Truthy(ti.emailInput.value.placeholder) {
          r := r.(emailPlaceholder := ti.emailInput.value.placeholder.value);
        }
      }
      r := r.(emailLabel := t);
    }
  }

  /** extract_chapter_data over a page already parsed. */
  method ExtractChapterData(filename: string, page: Page) returns (d: ChapterData)
    ensures d == Extracted(filename, page)
  {
    d := Defaults(filename);
    if page.title.Some? {
      d := d.(title := page.title.value);
    }
    if page.h1.Some? {
      d := d.(mainInstruction := page.h1.value);
    }
    ghost var start := d;
    var ss := page.sections;
    for k := 0 to |ss|
      invariant d == AbsorbAll(start, ss[..k])
    {
      assert ss[..k + 1][..k] == ss[..k];
      d := ReadSection(d, ss[k]);
    }
    assert ss[..|ss|] == ss;
    if page.submitButton.Some? {
      d := d.(submitButton := page.submitButton.value);
    }
    if page.resetButton.Some? {
      d := d.(resetButton := page.resetButton.value);
    }
    if page.successMessage.Some? {
      d := d.(successMessage := page.successMessage.value);
    }
    if page.summaryTitle.Some? {
      d := d.(summaryTitle := page.summaryTitle.value);
    }
  }

  // ---------------------------------------------------------------------
  // What extraction promises
  // ---------------------------------------------------------------------

  /** The question sections' questions, in document order. */
  function QuestionsIn(ss: seq<Section>): seq<SheetQuestion> {
    if ss == [] then []
    else
      var k := KindOf(ss[0]);
      (if k.QuestionTitled? then [SectionQuestion(ss[0], k.title)] else []) + QuestionsIn(ss[1..])
  }

  lemma {:induction false} QuestionsInSnoc(ss: seq<Section>, s: Section)
    ensures QuestionsIn(ss + [s]) == QuestionsIn(ss) + QuestionsIn([s])
  {
    if ss != [] {
      assert (ss + [s])[1..] == ss[1..] + [s];
      QuestionsInSnoc(ss[1..], s);
    }
  }

  /**
   * Sections only add questions and set the conversation and email fields:
   * the number, the name, the title, the instruction and the button texts
   * are left alone, and the questions read are those of the question
   * sections, in order.
   */
  lemma {:induction false} AbsorbAllFrame(d: ChapterData, ss: seq<Section>)
    ensures var r := AbsorbAll(d, ss);
      && r.chapterNum == d.chapterNum && r.filename == d.filename
      && r.title == d.title && r.mainInstruction == d.mainInstruction
      && r.submitButton == d.submitButton && r.resetButton == d.resetButton
      && r.successMessage == d.successMessage && r.summaryTitle == d.summaryTitle
      && r.questions == d.questions + QuestionsIn(ss)
  {
    if ss != [] {
      var init := ss[..|ss| - 1];
      AbsorbAllFrame(d, init);
      assert ss == init + [ss[|ss| - 1]];
      QuestionsInSnoc(init, ss[|ss| - 1]);
      assert QuestionsIn([ss[|ss| - 1]]) == QuestionsIn([ss[|ss| - 1]]) + QuestionsIn([]);
    }
  }

  /** Without a conversation section the conversation fields are kept. */
  lemma {:induction false} AbsorbAllNoConversation(d: ChapterData, ss: seq<Section>)
    requires forall i :: 0 <= i < |ss| ==> KindOf(ss[i]) != ConversationTitled
    ensures AbsorbAll(d, ss).conversationLabel == d.conversationLabel
    ensures AbsorbAll(d, ss).conversationPlaceholder == d.conversationPlaceholder
  {
    if ss != [] {
      AbsorbAllNoConversation(d, ss[..|ss| - 1]);
    }
  }

  /** Without an email section the email fields are kept. */
  lemma {:induction false} AbsorbAllNoEmail(d: ChapterData, ss: seq<Section>)
    requires forall i :: 0 <= i < |ss| ==> !KindOf(ss[i]).EmailTitled?
    ensures AbsorbAll(d, ss).emailLabel == d.emailLabel && AbsorbAll(d, ss).emailPlaceholder == d.emailPlaceholder
  {
    if ss != [] {
      AbsorbAllNoEmail(d, ss[..|ss| - 1]);
    }
  }

  /** The email label is the title of the last email section. */
  lemma {:induction false} AbsorbAllLastEmail(d: ChapterData, ss: seq<Section>, j: nat)
    requires j < |ss| && KindOf(ss[j]).EmailTitled?
    requires forall i :: j < i < |ss| ==> !KindOf(ss[i]).EmailTitled?
    ensures AbsorbAll(d, ss).emailLabel == ss[j].title.value
  {
    if j < |ss| - 1 {
      AbsorbAllLastEmail(d, ss[..|ss| - 1], j);
    }
  }

  /**
   * The record of a page: the number from the file name, each text field ""
   * when its element is missing, the questions of the question sections in
   * order, every one with a title that starts with 'Q'.
   */
  lemma ExtractedFields(filename: string, page: Page)
    ensures var d := Extracted(filename, page);
      && d.chapterNum == ChapterNumber(filename) && d.filename == filename
      && d.title == Found(page.title, "") && d.mainInstruction == Found(page.h1, "")
      && d.submitButton == Found(page.submitButton, "") && d.resetButton == Found(page.resetButton, "")
      && d.successMessage == Found(page.successMessage, "") && d.summaryTitle == Found(page.summaryTitle, "")
      && d.questions == QuestionsIn(page.sections)
  {
    var d0 := Defaults(filename);
    AbsorbAllFrame(d0.(title := Found(page.title, ""), mainInstruction := Found(page.h1, "")), page.sections);
  }

  /** A page with no conversation section exports empty conversation texts, and likewise for email. */
  lemma ExtractedWithout(filename: string, page: Page)
    ensures (forall i :: 0 <= i < |page.sections| ==> KindOf(page.sections[i]) != ConversationTitled) ==>
      Extracted(filename, page).conversationLabel == "" && Extracted(filename, page).conversationPlaceholder == ""
    ensures (forall i :: 0 <= i < |page.sections| ==> !KindOf(page.sections[i]).EmailTitled?) ==>
      Extracted(filename, page).emailLabel == "" && Extracted(filename, page).emailPlaceholder == ""
  {
    var d0 := Defaults(filename);
    var d1 := d0.(title := Found(page.title, ""), mainInstruction := Found(page.h1, ""));
    if forall i :: 0 <= i < |page.sections| ==> KindOf(page.sections[i]) != ConversationTitled {
      AbsorbAllNoConversation(d1, page.sections);
    }
    if forall i :: 0 <= i < |page.sections| ==> !KindOf(page.sections[i]).EmailTitled? {
      AbsorbAllNoEmail(d1, page.sections);
    }
  }

  /** Every question read has a title starting with 'Q'. */
  lemma {:induction false} QuestionsInTitles(ss: seq<Section>)
    ensures forall i :: 0 <= i < |QuestionsIn(ss)| ==> StartsWith(QuestionsIn(ss)[i].text, "Q")
  {
    if ss != [] {
      QuestionsInTitles(ss[1..]);
    }
  }

  // ---------------------------------------------------------------------
  // The width of the Questions sheet
  // ---------------------------------------------------------------------

  function Max(a: nat, b: nat): nat {
    if a >= b then a else b
  }

  function MaxOptionsIn(qs: seq<SheetQuestion>): nat {
    if qs == [] then 0 else Max(MaxOptionsIn(qs[..|qs| - 1]), |qs[|qs| - 1].options|)
  }

  /** max_options: the largest option count of any question, 0 when there is none. */
  function MaxOptions(chs: seq<ChapterData>): nat {
    if chs == [] then 0 else Max(MaxOptions(chs[..|chs| - 1]), MaxOptionsIn(chs[|chs| - 1].questions))
  }

  lemma {:induction false} MaxOptionsInBound(qs: seq<SheetQuestion>)
    ensures forall j :: 0 <= j < |qs| ==> |qs[j].options| <= MaxOptionsIn(qs)
  {
    if qs != [] {
      MaxOptionsInBound(qs[..|qs| - 1]);
    }
  }

  /** No question has more options than max_options. */
  lemma {:induction false} MaxOptionsBound(chs: seq<ChapterData>)
    ensures forall i, j :: 0 <= i < |chs| && 0 <= j < |chs[i].questions| ==> |chs[i].questions[j].options| <= MaxOptions(chs)
  {
    if chs != [] {
      MaxOptionsBound(chs[..|chs| - 1]);
      MaxOptionsInBound(chs[|chs| - 1].questions);
    }
  }

  lemma {:induction false} MaxOptionsInReached(qs: seq<SheetQuestion>) returns (j: nat)
    requires MaxOptionsIn(qs) > 0
    ensures j < |qs| && |qs[j].options| == MaxOptionsIn(qs)
  {
    var init := qs[..|qs| - 1];
    if MaxOptionsIn(init) >= |qs[|qs| - 1].options| {
      j := MaxOptionsInReached(init);
    } else {
      j := |qs| - 1;
    }
  }

  /** A positive max_options is the option count of some question. */
  lemma {:induction false} MaxOptionsReached(chs: seq<ChapterData>) returns (i: nat, j: nat)
    requires MaxOptions(chs) > 0
    ensures i < |chs| && j < |chs[i].questions| && |chs[i].questions[j].options| == MaxOptions(chs)
  {
    var init := chs[..|chs| - 1];
    if MaxOptions(init) >= MaxOptionsIn(chs[|chs| - 1].questions) {
      i, j := MaxOptionsReached(init);
    } else {
      i := |chs| - 1;
      j := MaxOptionsInReached(chs[i].questions);
    }
  }

  /** The nested loop that computes max_options. */
  method ComputeMaxOptions(chs: seq<ChapterData>) returns (m: nat)
    ensures m == MaxOptions(chs)
  {
    m := 0;
    for i := 0 to |chs|
      invariant m == MaxOptions(chs[..i])
    {
      assert chs[..i + 1][..i] == chs[..i];
      ghost var before := m;
      var qs := chs[i].questions;
      for j := 0 to |qs|
        invariant m == Max(before, MaxOptionsIn(qs[..j]))
      {
        assert qs[..j + 1][..j] == qs[..j];
        m := Max(m, |qs[j].options|);
      }
      assert qs[..|qs|] == qs;
    }
    assert chs[..|chs|] == chs;
  }

  // ---------------------------------------------------------------------
  // The two sheets
  // ---------------------------------------------------------------------

  /** sorted(chapters_data, key=chapter_num): stable, by chapter number. */
  function ChapterLe(a: ChapterData, b: ChapterData): bool {
    a.chapterNum <= b.chapterNum
  }

  function ByChapter(chs: seq<ChapterData>): seq<ChapterData> {
    Sorting.SortBy(chs, ChapterLe)
  }

  /** The chapters are written in ascending chapter order, each exactly as often as given. */
  lemma ByChapterOrder(chs: seq<ChapterData>)
    ensures Sorting.SortedBy(ByChapter(chs), ChapterLe)
    ensures multiset(ByChapter(chs)) == multiset(chs)
  {
    assert Sorting.TotalPreorder(ChapterLe);
    Sorting.SortBySorted(chs, ChapterLe);
    Sorting.SortByPermutation(chs, ChapterLe);
  }

  const QuestionColumns: seq<string> := ["Chapter", "Question ID", "Question Text"]

  /** A text written into a cell: the workbook keeps an empty text as an empty cell. */
  function Stored(t: string): Cell {
    if t == "" then ImportExcel.Empty else ImportExcel.Str(t)
  }

  /** Texts written one per cell, in order. */
  function Texts(ts: seq<string>): (row: Row)
    ensures |row| == |ts|
  {
    seq(|ts|, i requires 0 <= i < |ts| => Stored(ts[i]))
  }

  /** The Questions header: three fixed columns, then Option 1 .. Option width. */
  function QuestionHeader(width: nat): Row {
    Texts(QuestionColumns + seq(width, k requires 0 <= k < width => "Option " + NatToString(k + 1)))
  }

  /** Cells never written. */
  function Blanks(n: nat): Row {
    seq(n, _ => ImportExcel.Empty)
  }

  /**
   * A question's row: chapter, id and text, then option k in column 4 + k;
   * the columns up to the sheet's width are empty.
   */
  function QuestionRow(num: nat, q: SheetQuestion, width: nat): Row {
    [ImportExcel.Num(num), Stored(q.id), Stored(q.text)] + Texts(q.options)
      + Blanks(if |q.options| <= width then width - |q.options| else 0)
  }

  /** One row per question, in order. */
  function RowsOf(num: nat, qs: seq<SheetQuestion>, width: nat): seq<Row> {
    if qs == [] then [] else RowsOf(num, qs[..|qs| - 1], width) + [QuestionRow(num, qs[|qs| - 1], width)]
  }

  function ChapterRows(ch: ChapterData, width: nat): seq<Row> {
    RowsOf(ch.chapterNum, ch.questions, width)
  }

  function QuestionRows(chs: seq<ChapterData>, width: nat): seq<Row> {
    if chs == [] then [] else QuestionRows(chs[..|chs| - 1], width) + ChapterRows(chs[|chs| - 1], width)
  }

  /** The Questions sheet: the header in row 1, then the chapters' questions in chapter order from row 2. */
  function QuestionsSheet(chs: seq<ChapterData>): seq<Row> {
    var m := MaxOptions(chs);
    [QuestionHeader(m)] + QuestionRows(ByChapter(chs), m)
  }

  const UiColumns: seq<string> := [
    "Chapter", "Title", "Main Instruction", "Conversation Label", "Conversation Placeholder", "Email Label",
    "Email Placeholder", "Submit Button", "Reset Button", "Success Message", "Summary Title"]

  /** A chapter's UI row: its number and its ten texts in the header's order. */
  function UiRow(ch: ChapterData): (row: Row)
    ensures |row| == |UiColumns|
  {
    [ImportExcel.Num(ch.chapterNum), Stored(ch.title), Stored(ch.mainInstruction), Stored(ch.conversationLabel),
     Stored(ch.conversationPlaceholder), Stored(ch.emailLabel), Stored(ch.emailPlaceholder), Stored(ch.submitButton),
     Stored(ch.resetButton), Stored(ch.successMessage), Stored(ch.summaryTitle)]
  }

  function UiRows(chs: seq<ChapterData>): seq<Row> {
    seq(|chs|, i requires 0 <= i < |chs| => UiRow(chs[i]))
  }

  /** The UI Elements sheet: the header, then one row per chapter in chapter order. */
  function UiSheet(chs: seq<ChapterData>): seq<Row> {
    [Texts(UiColumns)] + UiRows(ByChapter(chs))
  }

  /** The cell loop of one question row. */
  method WriteQuestionRow(num: nat, q: SheetQuestion, width: nat) returns (row: Row)
    ensures row == QuestionRow(num, q, width)
  {
    row := [ImportExcel.Num(num), Stored(q.id), Stored(q.text)];
    for k := 0 to |q.options|
      invariant row == [ImportExcel.Num(num), Stored(q.id), Stored(q.text)] + Texts(q.options[..k])
    {
      assert Texts(q.options[..k + 1]) == Texts(q.options[..k]) + [Stored(q.options[k])];
      row := row + [Stored(q.options[k])];
    }
    assert q.options[..|q.options|] == q.options;
    row := row + Blanks(if |q.options| <= width then width - |q.options| else 0);
  }

  /** The question loop of one chapter: a row per question, in order. */
  method WriteChapterRows(ch: ChapterData, width: nat) returns (rows: seq<Row>)
    ensures rows == ChapterRows(ch, width)
  {
    var qs := ch.questions;
    rows := [];
    for j := 0 to |qs|
      invariant rows == RowsOf(ch.chapterNum, qs[..j], width)
    {
      assert qs[..j + 1][..j] == qs[..j];
      var row := WriteQuestionRow(ch.chapterNum, qs[j], width);
      rows := rows + [row];
    }
    assert qs[..|qs|] == qs;
  }

  /** The Questions half of create_excel. */
  method CreateQuestionsSheet(chs: seq<ChapterData>) returns (sheet: seq<Row>)
    ensures sheet == QuestionsSheet(chs)
  {
    var m := ComputeMaxOptions(chs);
    var header := QuestionHeader(m);
    var sorted := ByChapter(chs);
    var rows: seq<Row> := [];
    for i := 0 to |sorted|
      invariant rows == QuestionRows(sorted[..i], m)
    {
      assert sorted[..i + 1][..i] == sorted[..i];
      var chapterRows := WriteChapterRows(sorted[i], m);
      rows := rows + chapterRows;
    }
    assert sorted[..|sorted|] == sorted;
    sheet := [header] + rows;
  }

  /** The UI half of create_excel. */
  method CreateUiSheet(chs: seq<ChapterData>) returns (sheet: seq<Row>)
    ensures sheet == UiSheet(chs)
  {
    sheet := [Texts(UiColumns)];
    var sorted := ByChapter(chs);
    for i := 0 to |sorted|
      invariant sheet == [Texts(UiColumns)] + UiRows(sorted[..i])
    {
      assert UiRows(sorted[..i + 1]) == UiRows(sorted[..i]) + [UiRow(sorted[i])];
      sheet := sheet + [UiRow(sorted[i])];
    }
    assert sorted[..|sorted|] == sorted;
  }

  /** create_excel: both sheets' contents. */
  method CreateExcel(chs: seq<ChapterData>) returns (questions: seq<Row>, ui: seq<Row>)
    ensures questions == QuestionsSheet(chs) && ui == UiSheet(chs)
  {
    questions := CreateQuestionsSheet(chs);
    ui := CreateUiSheet(chs);
  }

  /** The records of the chapter files, in the order given. */
  function ChaptersOf(files: seq<(string, Page)>): seq<ChapterData> {
    seq(|files|, i requires 0 <= i < |files| => Extracted(files[i].0, files[i].1))
  }

  /** main: nothing without chapter files, otherwise the two sheets built from every file's record. */
  method ExportChapters(files: seq<(string, Page)>) returns (r: Option<(seq<Row>, seq<Row>)>)
    ensures r.None? <==> files == []
    ensures r.Some? ==> r.value == (QuestionsSheet(ChaptersOf(files)), UiSheet(ChaptersOf(files)))
  {
    if files == [] {
      return None;
    }
    var chs: seq<ChapterData> := [];
    for i := 0 to |files|
      invariant chs == ChaptersOf(files[..i])
    {
      var d := ExtractChapterData(files[i].0, files[i].1);
      chs := chs + [d];
    }
    assert files[..|files|] == files;
    var questions, ui := CreateExcel(chs);
    return Some((questions, ui));
  }

  // ---------------------------------------------------------------------
  // The sheets read back by the importer
  // ---------------------------------------------------------------------

  lemma {:induction false} NonEmptyBlanks(n: nat)
    ensures ImportExcel.NonEmpty(Blanks(n)) == []
  {
    if n > 0 {
      assert Blanks(n)[..n - 1] == Blanks(n - 1);
      NonEmptyBlanks(n - 1);
    }
  }

  /** The non-empty texts, in order. */
  function NonBlank(ts: seq<string>): (r: seq<string>)
    ensures forall i :: 0 <= i < |r| ==> r[i] != ""
  {
    if ts == [] then []
    else NonBlank(ts[..|ts| - 1]) + (if ts[|ts| - 1] != "" then [ts[|ts| - 1]] else [])
  }

  /** Of texts stored one per cell, the true cells are the non-empty texts. */
  lemma {:induction false} NonEmptyTexts(ts: seq<string>)
    ensures ImportExcel.NonEmpty(Texts(ts)) == Texts(NonBlank(ts))
  {
    if ts != [] {
      var init := ts[..|ts| - 1];
      assert Texts(ts)[..|ts| - 1] == Texts(init);
      NonEmptyTexts(init);
      var last := if ts[|ts| - 1] != "" then [ts[|ts| - 1]] else [];
      assert Texts(NonBlank(init) + last) == Texts(NonBlank(init)) + Texts(last);
    }
  }

  /** The question as the importer loads it: id and text cells, and the cells of its non-empty options. */
  function Reimported(q: SheetQuestion): ImportExcel.SheetQuestion<Cell> {
    ImportExcel.SheetQuestion(Stored(q.id), Stored(q.text), Texts(NonBlank(q.options)))
  }

  /**
   * A question row is read back as its chapter and its question; a row is
   * skipped exactly when its chapter is 0.
   */
  lemma QuestionRowReadBack(num: nat, q: SheetQuestion, width: nat)
    ensures var row := QuestionRow(num, q, width);
      && (ImportExcel.Skipped(row) <==> num == 0) && ImportExcel.ChapterOf(row) == Some(num)
      && ImportExcel.RowQuestion(row) == Reimported(q)
  {
    var row := QuestionRow(num, q, width);
    var pad := Blanks(if |q.options| <= width then width - |q.options| else 0);
    assert row[3..] == Texts(q.options) + pad;
    ImportExcel.NonEmptyAppend(Texts(q.options), pad);
    NonEmptyBlanks(|pad|);
    NonEmptyTexts(q.options);
  }

  /**
   * A reloaded question reaches the page exactly when its id and text are
   * not empty (an empty one comes back as None), and then it is the
   * question itself with its empty options dropped.
   */
  lemma ReimportedOnPage(q: SheetQuestion)
    ensures ImportExcel.PageQuestion(Reimported(q)).Some? <==> q.id != "" && q.text != ""
    ensures ImportExcel.PageQuestion(Reimported(q)).Some? ==>
      ImportExcel.PageQuestion(Reimported(q)).value == ImportExcel.SheetQuestion(q.id, q.text, NonBlank(q.options))
  {
    var p := ImportExcel.PageQuestion(Reimported(q));
    if p.Some? {
      var opts := NonBlank(q.options);
      assert p.value.options == opts;
    }
  }

  function ReimportedAll(qs: seq<SheetQuestion>): seq<ImportExcel.SheetQuestion<Cell>> {
    if qs == [] then [] else ReimportedAll(qs[..|qs| - 1]) + [Reimported(qs[|qs| - 1])]
  }

  /** The questions of chapter c among some chapter records, as the importer loads them, in order. */
  function ChapterQuestions(chs: seq<ChapterData>, c: int): seq<ImportExcel.SheetQuestion<Cell>> {
    if chs == [] then []
    else
      var last := chs[|chs| - 1];
      ChapterQuestions(chs[..|chs| - 1], c) + (if last.chapterNum == c then ReimportedAll(last.questions) else [])
  }

  lemma {:induction false} RowsReadBack(num: nat, qs: seq<SheetQuestion>, width: nat, c: int)
    ensures ImportExcel.Readable(RowsOf(num, qs, width))
    ensures ImportExcel.QuestionsOf(RowsOf(num, qs, width), c) == if num == c && num != 0 then ReimportedAll(qs) else []
  {
    if qs != [] {
      var init, row := RowsOf(num, qs[..|qs| - 1], width), QuestionRow(num, qs[|qs| - 1], width);
      RowsReadBack(num, qs[..|qs| - 1], width, c);
      QuestionRowReadBack(num, qs[|qs| - 1], width);
      ReadableSnoc(init, row);
      ImportExcel.QuestionsOfAppend(init, [row], c);
      ImportExcel.QuestionsOfOne(row, c);
    }
  }

  lemma ReadableSnoc(rows: seq<Row>, row: Row)
    requires ImportExcel.Readable(rows) && (ImportExcel.Skipped(row) || ImportExcel.ChapterOf(row).Some?)
    ensures ImportExcel.Readable(rows + [row])
  {
    var r := rows + [row];
    forall i | 0 <= i < |r| && !ImportExcel.Skipped(r[i]) ensures ImportExcel.ChapterOf(r[i]).Some? {
      if i < |rows| {
        assert r[i] == rows[i];
      }
    }
  }

  lemma ReadableAppend(a: seq<Row>, b: seq<Row>)
    requires ImportExcel.Readable(a) && ImportExcel.Readable(b)
    ensures ImportExcel.Readable(a + b)
  {
    var r := a + b;
    forall i | 0 <= i < |r| && !ImportExcel.Skipped(r[i]) ensures ImportExcel.ChapterOf(r[i]).Some? {
      if i < |a| {
        assert r[i] == a[i];
      } else {
        assert r[i] == b[i - |a|];
      }
    }
  }

  /** The data rows of the chapters are readable, and chapter c's questions are read back in order, save chapter 0's. */
  lemma {:induction false} QuestionRowsReadBack(chs: seq<ChapterData>, width: nat, c: int)
    ensures ImportExcel.Readable(QuestionRows(chs, width))
    ensures ImportExcel.QuestionsOf(QuestionRows(chs, width), c) == if c != 0 then ChapterQuestions(chs, c) else []
  {
    if chs != [] {
      var init := chs[..|chs| - 1];
      var last := chs[|chs| - 1];
      QuestionRowsReadBack(init, width, c);
      RowsReadBack(last.chapterNum, last.questions, width, c);
      ImportExcel.QuestionsOfAppend(QuestionRows(init, width), ChapterRows(last, width), c);
      ReadableAppend(QuestionRows(init, width), ChapterRows(last, width));
    }
  }

  /**
   * What the importer loads from the exported Questions sheet (rows from 2
   * on): every row is readable, and each chapter's questions come back in
   * sheet order, with their empty options dropped; the rows of chapter 0,
   * the number of a file whose name carries none, are skipped.
   */
  lemma QuestionsSheetReadBack(chs: seq<ChapterData>, c: int)
    ensures ImportExcel.Readable(QuestionsSheet(chs)[1..])
    ensures ImportExcel.QuestionsOf(QuestionsSheet(chs)[1..], c) == if c != 0 then ChapterQuestions(ByChapter(chs), c) else []
  {
    assert QuestionsSheet(chs)[1..] == QuestionRows(ByChapter(chs), MaxOptions(chs));
    QuestionRowsReadBack(ByChapter(chs), MaxOptions(chs), c);
  }

  /** The UI texts of a record. */
  function UiDataOf(ch: ChapterData): ImportExcel.UiData<string> {
    ImportExcel.UiData(ch.title, ch.mainInstruction, ch.conversationLabel, ch.conversationPlaceholder,
      ch.emailLabel, ch.emailPlaceholder, ch.submitButton, ch.resetButton, ch.successMessage, ch.summaryTitle)
  }

  /** A stored text read with `or ''` is a text cell holding that text again. */
  lemma StoredBack(t: string)
    ensures ImportExcel.OrEmpty(Stored(t)) == ImportExcel.Str(t)
  {
  }

  /**
   * A UI row is read back as its chapter, skipped exactly when that is 0,
   * and its ten texts reach the page unchanged, empty ones included.
   */
  lemma UiRowReadBack(ch: ChapterData)
    ensures (ImportExcel.Skipped(UiRow(ch)) <==> ch.chapterNum == 0) && ImportExcel.ChapterOf(UiRow(ch)) == Some(ch.chapterNum)
    ensures ImportExcel.PageUi(ImportExcel.RowUi(UiRow(ch))) == Some(UiDataOf(ch))
  {
    StoredBack(ch.conversationLabel);
  }

  /** The UI texts of the last record for chapter c, as the importer loads them. */
  function LastUi(chs: seq<ChapterData>, c: int): Option<ImportExcel.UiData<Cell>> {
    if chs == [] then None
    else if chs[|chs| - 1].chapterNum == c then Some(ImportExcel.RowUi(UiRow(chs[|chs| - 1])))
    else LastUi(chs[..|chs| - 1], c)
  }

  /** The last record for chapter c, if any. */
  function LastRecord(chs: seq<ChapterData>, c: int): Option<ChapterData> {
    if chs == [] then None
    else if chs[|chs| - 1].chapterNum == c then Some(chs[|chs| - 1])
    else LastRecord(chs[..|chs| - 1], c)
  }

  /** The loaded UI texts of chapter c reach the page as the texts of its last record. */
  lemma {:induction false} LastUiOnPage(chs: seq<ChapterData>, c: int)
    ensures LastUi(chs, c).Some? <==> LastRecord(chs, c).Some?
    ensures LastUi(chs, c).Some? ==> ImportExcel.PageUi(LastUi(chs, c).value) == Some(UiDataOf(LastRecord(chs, c).value))
  {
    if chs != [] {
      if chs[|chs| - 1].chapterNum == c {
        UiRowReadBack(chs[|chs| - 1]);
      } else {
        LastUiOnPage(chs[..|chs| - 1], c);
      }
    }
  }

  lemma {:induction false} UiRowsReadBack(chs: seq<ChapterData>, c: int)
    ensures ImportExcel.Readable(UiRows(chs))
    ensures ImportExcel.UiOf(UiRows(chs), c) == if c != 0 then LastUi(chs, c) else None
  {
    if chs != [] {
      var init := chs[..|chs| - 1];
      var last := chs[|chs| - 1];
      UiRowsReadBack(init, c);
      assert UiRows(chs) == UiRows(init) + [UiRow(last)];
      UiRowReadBack(last);
      ReadableSnoc(UiRows(init), UiRow(last));
      assert UiRows(chs)[..|chs| - 1] == UiRows(init);
    }
  }

  /**
   * What the importer loads from the exported UI Elements sheet: every row
   * is readable, and chapter c gets the texts of its last record in chapter
   * order, save chapter 0, whose rows are skipped.
   */
  lemma UiSheetReadBack(chs: seq<ChapterData>, c: int)
    ensures ImportExcel.Readable(UiSheet(chs)[1..])
    ensures ImportExcel.UiOf(UiSheet(chs)[1..], c) == if c != 0 then LastUi(ByChapter(chs), c) else None
  {
    assert UiSheet(chs)[1..] == UiRows(ByChapter(chs));
    UiRowsReadBack(ByChapter(chs), c);
  }

  // ---------------------------------------------------------------------
  // The layout of the Questions sheet
  // ---------------------------------------------------------------------

  /** The number of questions over some chapter records. */
  function TotalQuestions(chs: seq<ChapterData>): nat {
    if chs == [] then 0 else |chs[0].questions| + TotalQuestions(chs[1..])
  }

  lemma {:induction false} TotalQuestionsSnoc(chs: seq<ChapterData>, ch: ChapterData)
    ensures TotalQuestions(chs + [ch]) == TotalQuestions(chs) + |ch.questions|
  {
    if chs != [] {
      assert (chs + [ch])[1..] == chs[1..] + [ch];
      TotalQuestionsSnoc(chs[1..], ch);
    }
  }

  lemma {:induction false} TotalQuestionsInsert(ch: ChapterData, chs: seq<ChapterData>)
    ensures TotalQuestions(Sorting.Insert(ch, chs, ChapterLe)) == |ch.questions| + TotalQuestions(chs)
  {
    if chs != [] && !ChapterLe(ch, chs[0]) {
      TotalQuestionsInsert(ch, chs[1..]);
    }
  }

  /** Sorting the records keeps the number of questions. */
  lemma {:induction false} TotalQuestionsSorted(chs: seq<ChapterData>)
    ensures TotalQuestions(ByChapter(chs)) == TotalQuestions(chs)
  {
    if chs != [] {
      TotalQuestionsSorted(chs[1..]);
      TotalQuestionsInsert(chs[0], ByChapter(chs[1..]));
    }
  }

  /** Every row of some chapter records is as wide as the header: options never spill past max_options. */
  lemma {:induction false} QuestionRowsShape(chs: seq<ChapterData>, width: nat)
    requires forall i, j :: 0 <= i < |chs| && 0 <= j < |chs[i].questions| ==> |chs[i].questions[j].options| <= width
    ensures |QuestionRows(chs, width)| == TotalQuestions(chs)
    ensures forall n :: 0 <= n < |QuestionRows(chs, width)| ==> |QuestionRows(chs, width)[n]| == 3 + width
  {
    if chs != [] {
      var init := chs[..|chs| - 1];
      var last := chs[|chs| - 1];
      QuestionRowsShape(init, width);
      TotalQuestionsSnoc(init, last);
      assert chs == init + [last];
      var a, b := QuestionRows(init, width), ChapterRows(last, width);
      RowsOfShape(last.chapterNum, last.questions, width);
      forall n | 0 <= n < |a + b| ensures |(a + b)[n]| == 3 + width {
        if n >= |a| {
          assert (a + b)[n] == b[n - |a|];
        } else {
          assert (a + b)[n] == a[n];
        }
      }
    }
  }

  /** Questions whose options fit the width give one row each, all of that width. */
  lemma {:induction false} RowsOfShape(num: nat, qs: seq<SheetQuestion>, width: nat)
    requires forall j :: 0 <= j < |qs| ==> |qs[j].options| <= width
    ensures |RowsOf(num, qs, width)| == |qs|
    ensures forall n :: 0 <= n < |qs| ==> |RowsOf(num, qs, width)[n]| == 3 + width
  {
    if qs != [] {
      RowsOfShape(num, qs[..|qs| - 1], width);
      var rows := RowsOf(num, qs, width);
      assert rows[|qs| - 1] == QuestionRow(num, qs[|qs| - 1], width);
      assert forall n :: 0 <= n < |qs| - 1 ==> rows[n] == RowsOf(num, qs[..|qs| - 1], width)[n];
    }
  }

  /**
   * The Questions sheet has the header and one data row per question, all
   * 3 + max_options cells wide.
   */
  lemma QuestionsSheetShape(chs: seq<ChapterData>)
    ensures |QuestionsSheet(chs)| == 1 + TotalQuestions(chs)
    ensures forall n :: 0 <= n < |QuestionsSheet(chs)| ==> |QuestionsSheet(chs)[n]| == 3 + MaxOptions(chs)
  {
    var m := MaxOptions(chs);
    var s := ByChapter(chs);
    MaxOptionsBound(chs);
    ByChapterOrder(chs);
    forall i, j | 0 <= i < |s| && 0 <= j < |s[i].questions| ensures |s[i].questions[j].options| <= m {
      assert s[i] in multiset(chs);
      var k :| 0 <= k < |chs| && chs[k] == s[i];
    }
    QuestionRowsShape(s, m);
    TotalQuestionsSorted(chs);
    assert |QuestionHeader(m)| == 3 + m;
  }
}
