/**
 * The English chapter generator: it reads a "cap N" sheet into a list of
 * items (chapter titles, questions with their options, discussions with
 * their prompts, section headers) and writes a minimal English chapter page
 * from the questions that have options and the first discussion prompt.
 */
module GenerateEnglish {
  import opened Wrappers
  import opened Text
  import opened Workbook
  import opened Rewrite
  import opened Survey
  import ImportExcel
  import TranslateChapters
  import Generator

  // ---------------------------------------------------------------------
  // Reading a chapter sheet
  // ---------------------------------------------------------------------

  /** What a sheet holds, in the order its lines come. */
  datatype Item =
    | Title(text: string)
    | Question(text: string, options: seq<string>, prompts: seq<string>, checkbox: bool, scale: bool)
    | Discussion(text: string, prompts: seq<string>, scale: bool)
    | Section(text: string, scale: bool)

  predicate IsIntro(text: string) {
    || StartsWith(text, "To achieve better results") || StartsWith(text, "Each chapter has")
    || StartsWith(text, "Some questions have") || StartsWith(text, "The questions will")
    || StartsWith(text, "Wishing you much")
  }

  /** A Spanish fragment of a mixed sheet, looked for in the lower-cased line. */
  predicate HasSpanish(text: string) {
    var l := Lower(text);
    Contains(l, "conversen:") || Contains(l, "¿") || Contains(l, "según") || Contains(l, "escoja") || Contains(l, "hay que")
  }

  /** `^(\d+)\.\s+(.+)$`: digits, a dot, at least one space, then one line of text. */
  predicate IsChapterTitle(text: string) {
    var n := DigitRun(text);
    n > 0 && n < |text| && text[n] == '.' && SpaceGroup(text[n + 1..], 1).Some?
  }

  /** A question mark at the end, or one of the question words at the start. */
  predicate IsQuestionLine(text: string) {
    || EndsWith(text, "?") || StartsWith(text, "Which") || StartsWith(text, "What") || StartsWith(text, "How")
    || StartsWith(text, "Why") || StartsWith(text, "Is ") || StartsWith(text, "Are ") || StartsWith(text, "Do ")
    || StartsWith(text, "Did ") || StartsWith(text, "Can ") || StartsWith(text, "Would ")
    || StartsWith(text, "When ") || StartsWith(text, "For ")
  }

  /** An option line's text and whether its marker was a checkbox. */
  datatype OptionLine = OptionLine(text: string, box: bool)

  /**
   * `^[•·]\s*(.+)$`, then `^([A-D])\.\s*(.+)$`, then `^[☐□]\s*(.+)$`: the
   * option a line gives, its group stripped.
   */
  function OptionOf(text: string): (r: Option<OptionLine>)
    ensures r.Some? ==> Trimmed(r.value.text)
  {
    if |text| > 0 && IsBullet(text[0]) && SpaceGroup(text[1..], 0).Some? then
      var g := SpaceGroup(text[1..], 0).value;
      StripTrimmed(g);
      Some(OptionLine(PyStrip(g), false))
    else if |text| >= 2 && 'A' <= text[0] <= 'D' && text[1] == '.' && SpaceGroup(text[2..], 0).Some? then
      var g := SpaceGroup(text[2..], 0).value;
      StripTrimmed(g);
      Some(OptionLine(PyStrip(g), false))
    else if |text| > 0 && IsBox(text[0]) && SpaceGroup(text[1..], 0).Some? then
      var g := SpaceGroup(text[1..], 0).value;
      StripTrimmed(g);
      Some(OptionLine(PyStrip(g), true))
    else None
  }

  /** `^1\s+2\s+3\s+4\s+5` from digit d on: the digits up to 5, spaces between them. */
  predicate ScaleFrom(s: string, d: nat)
    requires 1 <= d <= 5
    decreases 5 - d
  {
    |s| > 0 && s[0] == DigitChar(d)
    && (d == 5 || (LeadingCount(s[1..], IsPySpace) > 0 && ScaleFrom(s[1..][LeadingCount(s[1..], IsPySpace)..], d + 1)))
  }

  predicate IsScale(text: string) { ScaleFrom(text, 1) }

  predicate OpensDiscussion(text: string) {
    var l := Lower(text);
    StartsWith(l, "discuss") || StartsWith(l, "reflection") || StartsWith(l, "share")
  }

  predicate IsSectionHeader(text: string) {
    || text == "For Men" || text == "For Women" || text == "Examples:"
    || text == "Select the correct answers:" || text == "Check all that apply:"
  }

  /** The parser between rows: the finished items and the open one. */
  datatype Parser = Parser(content: seq<Item>, current: Option<Item>)

  const Start: Parser := Parser([], None)

  /** The items once the open one, if any, is appended. */
  function Closed(content: seq<Item>, current: Option<Item>): seq<Item> {
    if current.Some? then content + [current.value] else content
  }

  /** A new open item: the one before it is appended first. */
  function Opened(p: Parser, item: Item): Parser {
    Parser(Closed(p.content, p.current), Some(item))
  }

  function WithScale(item: Item): Item {
    match item
    case Title(_) => item
    case Question(t, options, prompts, box, _) => Question(t, options, prompts, box, true)
    case Discussion(t, prompts, _) => Discussion(t, prompts, true)
    case Section(t, _) => Section(t, true)
  }

  /** A line that is none of the above: a prompt of an open discussion or of an option-less question. */
  function Unclassified(p: Parser, text: string): Parser {
    match p.current
    case Some(Discussion(t, prompts, s)) => p.(current := Some(Discussion(t, prompts + [text], s)))
    case Some(Question(t, options, prompts, box, s)) =>
      if options == [] then p.(current := Some(Question(t, options, prompts + [text], box, s))) else p
    case _ => p
  }

  /** An option line: appended to an open question, dropped otherwise. */
  function WithOption(p: Parser, o: OptionLine): Parser {
    match p.current
    case Some(Question(t, options, prompts, box, s)) =>
      p.(current := Some(Question(t, options + [o.text], prompts, box || o.box, s)))
    case _ => p
  }

  /** A line that is neither a title, a question nor an option. */
  function Unmarked(p: Parser, text: string): Parser {
    if IsScale(text) then
      (if p.current.Some? then p.(current := Some(WithScale(p.current.value))) else p)
    else if OpensDiscussion(text) then Opened(p, Discussion(text, [], false))
    else if IsSectionHeader(text) then Opened(p, Section(text, false))
    else Unclassified(p, text)
  }

  /** A kept line, by the first check it passes. */
  function Classify(p: Parser, text: string): Parser {
    if IsChapterTitle(text) then p.(content := p.content + [Title(text)])
    else if IsQuestionLine(text) then Opened(p, Question(text, [], [], false, false))
    else
      match OptionOf(text)
      case Some(o) => WithOption(p, o)
      case None => Unmarked(p, text)
  }

  /** What one row does to the parser. */
  function Step(p: Parser, cell: Option<string>): Parser {
    if cell.None? then p
    else
      var text := PyStrip(cell.value);
      if text == [] || IsIntro(text) || HasSpanish(text) then p else Classify(p, text)
  }

  /** The parser after the first cells of the rows, from p. */
  function Run(p: Parser, rows: seq<seq<Option<string>>>): Parser {
    if rows == [] then p
    else Step(Run(p, rows[..|rows| - 1]), FirstCell(rows[|rows| - 1]))
  }

  /** parse_excel_chapter: the items of a sheet, the last open one included. */
  function Parsed(rows: seq<seq<Option<string>>>): seq<Item> {
    var p := Run(Start, rows);
    Closed(p.content, p.current)
  }

  /** parse_excel_chapter */
  method ParseExcelChapter(rows: seq<seq<Option<string>>>) returns (content: seq<Item>)
    ensures content == Parsed(rows)
  {
    content := [];
    var current: Option<Item> := None;
    var k := 0;
    while k < |rows|
      invariant 0 <= k <= |rows|
      invariant Parser(content, current) == Run(Start, rows[..k])
    {
      assert rows[..k + 1][..k] == rows[..k];
      var cell := FirstCell(rows[k]);
      k := k + 1;
      if cell.None? {
        continue;
      }
      var text := PyStrip(cell.value);
      if text == [] || IsIntro(text) || HasSpanish(text) {
        continue;
      }
      if IsChapterTitle(text) {
        content := content + [Title(text)];
        continue;
      }
      if IsQuestionLine(text) {
        content := Closed(content, current);
        current := Some(Question(text, [], [], false, false));
        continue;
      }
      var option := OptionOf(text);
      if option.Some? {
        match current {
          case Some(Question(t, options, prompts, box, s)) =>
            current := Some(Question(t, options + [option.value.text], prompts, box || option.value.box, s));
          case _ =>
        }
        continue;
      }
      if IsScale(text) {
        if current.Some? {
          current := Some(WithScale(current.value));
        }
        continue;
      }
      if OpensDiscussion(text) {
        content := Closed(content, current);
        current := Some(Discussion(text, [], false));
        continue;
      }
      if IsSectionHeader(text) {
        content := Closed(content, current);
        current := Some(Section(text, false));
        continue;
      }
      match current {
        case Some(Discussion(t, prompts, s)) =>
          current := Some(Discussion(t, prompts + [text], s));
        case Some(Question(t, options, prompts, box, s)) =>
          if options == [] {
            current := Some(Question(t, options, prompts + [text], box, s));
          }
        case _ =>
      }
    }
    assert rows[..|rows|] == rows;
    content := Closed(content, current);
  }

  // ---------------------------------------------------------------------
  // What the items hold
  // ---------------------------------------------------------------------

  /** A kept line: stripped, not blank, no intro text and no Spanish marker. */
  predicate Kept(t: string) {
    t != [] && Trimmed(t) && !IsIntro(t) && !HasSpanish(t)
  }

  /** A line that none of the checks classifies: what becomes a prompt. */
  predicate Plain(t: string) {
    Kept(t) && !IsChapterTitle(t) && !IsQuestionLine(t) && OptionOf(t).None? && !IsScale(t)
    && !OpensDiscussion(t) && !IsSectionHeader(t)
  }

  predicate AllPlain(ps: seq<string>) {
    forall i :: 0 <= i < |ps| ==> Plain(ps[i])
  }

  predicate AllTrimmed(os: seq<string>) {
    forall i :: 0 <= i < |os| ==> Trimmed(os[i])
  }

  /**
   * Each kind of item comes from a line of its kind, the earlier checks
   * having failed; a checkbox question has at least one option.
   */
  predicate WellRead(it: Item) {
    match it
    case Title(t) => Kept(t) && IsChapterTitle(t)
    case Question(t, os, ps, box, _) =>
      Kept(t) && !IsChapterTitle(t) && IsQuestionLine(t) && (box ==> os != []) && AllTrimmed(os) && AllPlain(ps)
    case Discussion(t, ps, _) =>
      Kept(t) && !IsChapterTitle(t) && !IsQuestionLine(t) && OptionOf(t).None? && !IsScale(t)
      && OpensDiscussion(t) && AllPlain(ps)
    case Section(t, _) =>
      Kept(t) && !IsChapterTitle(t) && !IsQuestionLine(t) && OptionOf(t).None? && !IsScale(t)
      && !OpensDiscussion(t) && IsSectionHeader(t)
  }

  predicate AllWellRead(items: seq<Item>) {
    forall i :: 0 <= i < |items| ==> WellRead(items[i])
  }

  /** The parser's invariant: finished and open items are well read, and a title is never left open. */
  predicate Sound(p: Parser) {
    AllWellRead(p.content) && (p.current.Some? ==> WellRead(p.current.value) && !p.current.value.Title?)
  }

  lemma AppendPlain(ps: seq<string>, text: string)
    requires AllPlain(ps) && Plain(text)
    ensures AllPlain(ps + [text])
  {
  }

  lemma UnclassifiedSound(p: Parser, text: string)
    requires Sound(p) && Plain(text)
    ensures Sound(Unclassified(p, text))
  {
    match p.current {
      case Some(Discussion(t, prompts, s)) => AppendPlain(prompts, text);
      case Some(Question(t, options, prompts, box, s)) => AppendPlain(prompts, text);
      case _ =>
    }
  }

  lemma UnmarkedSound(p: Parser, text: string)
    requires Sound(p) && Kept(text) && !IsChapterTitle(text) && !IsQuestionLine(text) && OptionOf(text).None?
    ensures Sound(Unmarked(p, text))
  {
    if IsScale(text) {
      ScaleSound(p);
    } else if OpensDiscussion(text) {
      OpenedSound(p, Discussion(text, [], false));
    } else if IsSectionHeader(text) {
      OpenedSound(p, Section(text, false));
    } else {
      UnclassifiedSound(p, text);
    }
  }

  lemma ScaleSound(p: Parser)
    requires Sound(p)
    ensures Sound(if p.current.Some? then p.(current := Some(WithScale(p.current.value))) else p)
  {
  }

  lemma OpenedSound(p: Parser, item: Item)
    requires Sound(p) && WellRead(item) && !item.Title?
    ensures Sound(Opened(p, item))
  {
  }

  lemma ClassifySound(p: Parser, text: string)
    requires Sound(p) && Kept(text)
    ensures Sound(Classify(p, text))
  {
    if !IsChapterTitle(text) && !IsQuestionLine(text) && OptionOf(text).None? {
      UnmarkedSound(p, text);
    }
  }

  lemma StepSound(p: Parser, cell: Option<string>)
    requires Sound(p)
    ensures Sound(Step(p, cell))
  {
    if cell.Some? {
      var text := PyStrip(cell.value);
      StripTrimmed(cell.value);
      if Kept(text) {
        ClassifySound(p, text);
      }
    }
  }

  lemma {:induction false} RunSound(p: Parser, rows: seq<seq<Option<string>>>)
    requires Sound(p)
    ensures Sound(Run(p, rows))
  {
    if rows != [] {
      RunSound(p, rows[..|rows| - 1]);
      StepSound(Run(p, rows[..|rows| - 1]), FirstCell(rows[|rows| - 1]));
    }
  }

  /** Every item of a sheet is well read. */
  lemma ParsedSound(rows: seq<seq<Option<string>>>)
    ensures AllWellRead(Parsed(rows))
  {
    RunSound(Start, rows);
  }

  /**
   * "For Men" and "For Women" are in the section list, but both start with
   * "For ", which the question check, made first, takes: they are read as
   * questions and never as sections.
   */
  lemma NoMenWomenSections(rows: seq<seq<Option<string>>>)
    ensures forall it :: it in Parsed(rows) && it.Section? ==> it.text != "For Men" && it.text != "For Women"
    ensures IsQuestionLine("For Men") && IsQuestionLine("For Women")
  {
    ParsedSound(rows);
    assert StartsWith("For Men", "For ") && StartsWith("For Women", "For ");
  }

  // ---------------------------------------------------------------------
  // The minimal English page
  // ---------------------------------------------------------------------

  /** The items of one kind, in order (the list comprehensions of the page builder). */
  function Those(items: seq<Item>, f: Item -> bool): (r: seq<Item>)
    ensures forall k :: 0 <= k < |r| ==> f(r[k])
  {
    if items == [] then []
    else Those(items[..|items| - 1], f) + (if f(items[|items| - 1]) then [items[|items| - 1]] else [])
  }

  lemma {:induction false} ThoseIn(items: seq<Item>, f: Item -> bool, x: Item)
    ensures x in Those(items, f) <==> x in items && f(x)
  {
    if items != [] {
      var init := items[..|items| - 1];
      ThoseIn(init, f, x);
      assert items == init + [items[|items| - 1]];
    }
  }

  predicate IsQuestion(it: Item) { it.Question? }

  predicate IsDiscussion(it: Item) { it.Discussion? }

  predicate HasOptions(it: Item) { it.Question? && it.options != [] }

  /** The questions the page shows: those with options, in sheet order. */
  function Shown(items: seq<Item>): seq<Item> {
    Those(Those(items, IsQuestion), HasOptions)
  }

  /** Option i (from 1) of question q: id "q{q}_{i}", name "q{q}", value and label the text, the first one required. */
  function MinimalOption(q: nat, i: nat, opt: string): string {
    ImportExcel.OptionHTML(OptionInput(TranslateChapters.OptionId(q, i), "q" + NatToString(q), opt, opt, i == 1))
  }

  function OptionLines(q: nat, options: seq<string>): (lines: seq<string>)
    ensures |lines| == |options|
  {
    seq(|options|, i requires 0 <= i < |options| => MinimalOption(q, i + 1, options[i]))
  }

  /** The importer's question section, without its leading newline. */
  function BlockFormat(): seq<string> {
    ["            <!-- "] + ImportExcel.QuestionFormat[1..]
  }

  function QuestionBlock(q: nat, text: string, options: seq<string>): string {
    var n := NatToString(q);
    Format(BlockFormat(), ["Q" + n, "Q" + n + ": " + text, Join(OptionLines(q, options), "\n")])
  }

  /** A question's options; other items have none. */
  function OptionsOf(it: Item): seq<string> {
    if it.Question? then it.options else []
  }

  /** The sections of the shown questions, numbered from 1. */
  function Blocks(qs: seq<Item>): (r: seq<string>)
    ensures |r| == |qs|
  {
    seq(|qs|, k requires 0 <= k < |qs| => QuestionBlock(k + 1, qs[k].text, OptionsOf(qs[k])))
  }

  /** A surveyQuestions entry: the text unescaped, as the page builder writes it. */
  function QuestionEntry(q: nat, text: string): string {
    var n := NatToString(q);
    "            q" + n + ": \"Q" + n + ": " + text + "\""
  }

  function QuestionEntries(qs: seq<Item>): (r: seq<string>)
    ensures |r| == |qs|
  {
    seq(|qs|, k requires 0 <= k < |qs| => QuestionEntry(k + 1, qs[k].text))
  }

  /** The prompts of the discussions, in order. */
  function PromptsOf(ds: seq<Item>): seq<string> {
    if ds == [] then []
    else
      PromptsOf(ds[..|ds| - 1])
      + (match ds[|ds| - 1] case Discussion(_, ps, _) => ps case _ => [])
  }

  function AllPrompts(items: seq<Item>): seq<string> {
    PromptsOf(Those(items, IsDiscussion))
  }

  /**
   * The fixed markup of the page, the parts that carry no field: the head,
   * the form's opening, the email, reCAPTCHA, button, success and summary
   * sections, the scripts, and the conversation section around its label.
   */
  datatype Markup = Markup(
    head: string, body: string, form: string, script: string, tail: string,
    conversationOpen: string, labelStyle: string, conversationClose: string)

  /** The markup create_minimal_english_chapter writes. */
  function EnglishMarkup(): Markup {
    Markup(
      "<!DOCTYPE html>\n"
      + "<html lang=\"en\">\n"
      + "<head>\n"
      + "    <meta charset=\"UTF-8\">\n"
      + "    <meta name=\"viewport\" content=\"width=device-width, initial-scale=1.0\">\n"
      + "    ",
      "    <link rel=\"stylesheet\" href=\"survey.css\">\n"
      + "</head>\n"
      + "<body>\n"
      + "    <div class=\"container\">\n"
      + "        <h1>After watching the video, complete this exercise:</h1>\n"
      + "        <form id=\"pollForm\">\n",
      "\n"
      + "            <!-- Email Section -->\n"
      + "            <div class=\"question-section\">\n"
      + "                <div class=\"question-title\"><label for=\"email\">Email Address</label></div>\n"
      + "                <div class=\"text-input-section\">\n"
      + "                    <input type=\"email\" id=\"email\" name=\"email\" placeholder=\"example@email.com\" required>\n"
      + "                    <div class=\"error-message\" id=\"emailError\" style=\"display: none;\"></div>\n"
      + "                </div>\n"
      + "            </div>\n"
      + "\n"
      + "            <!-- reCAPTCHA -->\n"
      + "            <div class=\"question-section\">\n"
      + "                <div class=\"g-recaptcha\" data-sitekey=\"6LeyoggsAAAAAAgXzEg9PAC9ypZtr-yyc24cAnN_\"></div>\n"
      + "                <div class=\"error-message\" id=\"recaptchaError\" style=\"display: none;\"></div>\n"
      + "            </div>\n"
      + "\n"
      + "            <!-- Buttons -->\n"
      + "            <div class=\"button-group\">\n"
      + "                <button type=\"submit\" class=\"submit-btn\" id=\"submitBtn\">Submit Survey</button>\n"
      + "                <button type=\"reset\" class=\"reset-btn\" id=\"resetBtn\">Clear</button>\n"
      + "            </div>\n"
      + "        </form>\n"
      + "\n"
      + "        <!-- Success Message -->\n"
      + "        <div class=\"success-message\" id=\"successMessage\">\n"
      + "            Survey submitted successfully!\n"
      + "        </div>\n"
      + "\n"
      + "        <!-- Summary Section -->\n"
      + "        <div class=\"summary-section\" id=\"summarySection\" style=\"display: none;\">\n"
      + "            <h2 class=\"summary-title\">Summary of your answers</h2>\n"
      + "            <div id=\"summaryContent\"></div>\n"
      + "        </div>\n"
      + "    </div>\n"
      + "\n"
      + "    <script>\n"
      + "        // Define questions for this survey\n",
      "\n"
      + "\n"
      + "        // Define the chapter name for this survey\n",
      "\n"
      + "    </script>\n"
      + "\n"
      + "    <!-- EmailJS Library -->\n"
      + "    <script src=\"https://cdn.jsdelivr.net/npm/emailjs-com@3/dist/email.min.js\"></script>\n"
      + "    <script>\n"
      + "        (function() {\n"
      + "            emailjs.init(\"wZ_Z4F9Y-8CcFzD2g\");\n"
      + "        })();\n"
      + "    </script>\n"
      + "\n"
      + "    <!-- Google reCAPTCHA v2 -->\n"
      + "    <script src=\"https://www.google.com/recaptcha/api.js\" async defer></script>\n"
      + "\n"
      + "    <script src=\"survey.js?v=20250110005\"></script>\n"
      + "</body>\n"
      + "</html>\n",
      "            <!-- Conversation Section -->\n"
      + "            <div class=\"question-section\">\n"
      + "                <div class=\"question-title\">Discuss:</div>\n"
      + "                <div class=\"text-input-section\">\n"
      + "                    ",
      " style=\"color: #666; font-size: 14px;\"",
      "\n"
      + "                    <textarea id=\"conversation\" name=\"conversation\" placeholder=\"Write your answer here...\" required></textarea>\n"
      + "                    <div class=\"error-message\" id=\"textError\" style=\"display: none;\"></div>\n"
      + "                </div>\n"
      + "            </div>\n")
  }

  /** The conversation section: present only with a prompt, and then showing the first. */
  function DiscussionHTML(m: Markup, prompts: seq<string>): string {
    if prompts == [] then ""
    else
      m.conversationOpen + TranslateChapters.ConversationTag("conversation") + m.labelStyle + ">" + prompts[0]
      + TranslateChapters.LabelClose + m.conversationClose
  }

  function ConversationEntry(prompt: string): string {
    "            conversation: \"" + prompt + "\""
  }

  function ConversationEntries(prompts: seq<string>): seq<string> {
    if prompts == [] then [] else [ConversationEntry(prompts[0])]
  }

  /** The surveyQuestions entries: the shown questions, then the conversation. */
  function Entries(items: seq<Item>): seq<string> {
    QuestionEntries(Shown(items)) + ConversationEntries(AllPrompts(items))
  }

  /** The page around its five fields. */
  function PageFormat(m: Markup): (r: seq<string>)
    ensures |r| == 6
  {
    [m.head + "<title>Chapter ", " - After watching the video</title>\n" + m.body, "\n",
     m.form + "        window.surveyQuestions = {\n", "\n        };" + m.script + "        window.chapterName = \"Chapter ",
     "\";" + m.tail]
  }

  /** The page create_minimal_english_chapter writes for chapter n. */
  function MinimalPage(m: Markup, n: nat, items: seq<Item>): string {
    Format(PageFormat(m), [NatToString(n), Join(Blocks(Shown(items)), "\n"), DiscussionHTML(m, AllPrompts(items)),
      Join(Entries(items), ",\n"), NatToString(n)])
  }

  lemma BlocksSnoc(qs: seq<Item>, q: Item)
    requires q.Question?
    ensures Blocks(qs + [q]) == Blocks(qs) + [QuestionBlock(|qs| + 1, q.text, q.options)]
  {
    assert forall k :: 0 <= k < |qs| ==> (qs + [q])[k] == qs[k];
  }

  lemma EntriesSnoc(qs: seq<Item>, q: Item)
    ensures QuestionEntries(qs + [q]) == QuestionEntries(qs) + [QuestionEntry(|qs| + 1, q.text)]
  {
    assert forall k :: 0 <= k < |qs| ==> (qs + [q])[k] == qs[k];
  }

  /** The section and the surveyQuestions entry of the question numbered qIdx. */
  method WriteQuestion(qIdx: nat, q: Item) returns (block: string, entry: string)
    requires q.Question?
    ensures block == QuestionBlock(qIdx, q.text, q.options) && entry == QuestionEntry(qIdx, q.text)
  {
    var lines := WriteOptions(qIdx, q.options);
    var num := NatToString(qIdx);
    block := Format(BlockFormat(), ["Q" + num, "Q" + num + ": " + q.text, Join(lines, "\n")]);
    entry := "            q" + num + ": \"Q" + num + ": " + q.text + "\"";
  }

  /** The option lines of one question, as the inner loop collects them. */
  method WriteOptions(qIdx: nat, options: seq<string>) returns (lines: seq<string>)
    ensures lines == OptionLines(qIdx, options)
  {
    lines := [];
    for i := 1 to |options| + 1
      invariant lines == OptionLines(qIdx, options)[..i - 1]
    {
      var optId := "q" + NatToString(qIdx) + "_" + NatToString(i);
      var required := if i == 1 then " required" else "";
      lines := lines + [Format(ImportExcel.OptionFormat, [optId, "q" + NatToString(qIdx), options[i - 1], required, optId, options[i - 1]])];
      assert OptionLines(qIdx, options)[..i] == OptionLines(qIdx, options)[..i - 1] + [MinimalOption(qIdx, i, options[i - 1])];
    }
    assert OptionLines(qIdx, options)[..|options|] == OptionLines(qIdx, options);
  }

  /** The prompts of all discussions, as the nested loop collects them. */
  method CollectPrompts(discussions: seq<Item>) returns (prompts: seq<string>)
    ensures prompts == PromptsOf(discussions)
  {
    prompts := [];
    for d := 0 to |discussions|
      invariant prompts == PromptsOf(discussions[..d])
    {
      assert discussions[..d + 1][..d] == discussions[..d];
      match discussions[d] {
        case Discussion(_, ps, _) =>
          for j := 0 to |ps|
            invariant prompts == PromptsOf(discussions[..d]) + ps[..j]
          {
            prompts := prompts + [ps[j]];
            assert ps[..j + 1] == ps[..j] + [ps[j]];
          }
          assert ps[..|ps|] == ps;
        case _ =>
      }
    }
    assert discussions[..|discussions|] == discussions;
  }

  /** create_minimal_english_chapter */
  method CreateMinimalEnglishChapter(m: Markup, n: nat, items: seq<Item>) returns (html: string)
    ensures html == MinimalPage(m, n, items)
  {
    var questions := Those(items, IsQuestion);
    var discussions := Those(items, IsDiscussion);
    var questionHtml, surveyQuestions := WriteShown(questions);
    var discussionHtml, conversation := WriteDiscussion(m, discussions);
    surveyQuestions := surveyQuestions + conversation;
    html := Format(PageFormat(m), [NatToString(n), Join(questionHtml, "\n"), discussionHtml,
      Join(surveyQuestions, ",\n"), NatToString(n)]);
  }

  /** The question loop: sections and entries of the questions with options, numbered from 1. */
  method WriteShown(questions: seq<Item>) returns (questionHtml: seq<string>, surveyQuestions: seq<string>)
    requires forall k :: 0 <= k < |questions| ==> questions[k].Question?
    ensures questionHtml == Blocks(Those(questions, HasOptions))
    ensures surveyQuestions == QuestionEntries(Those(questions, HasOptions))
  {
    questionHtml, surveyQuestions := [], [];
    var qIdx := 1;
    for k := 0 to |questions|
      invariant qIdx == |Those(questions[..k], HasOptions)| + 1
      invariant questionHtml == Blocks(Those(questions[..k], HasOptions))
      invariant surveyQuestions == QuestionEntries(Those(questions[..k], HasOptions))
    {
      assert questions[..k + 1][..k] == questions[..k];
      var q := questions[k];
      if q.options != [] {
        var block, entry := WriteQuestion(qIdx, q);
        BlocksSnoc(Those(questions[..k], HasOptions), q);
        EntriesSnoc(Those(questions[..k], HasOptions), q);
        questionHtml := questionHtml + [block];
        surveyQuestions := surveyQuestions + [entry];
        qIdx := qIdx + 1;
      }
    }
    assert questions[..|questions|] == questions;
  }

  /** The conversation section and entry, from the first prompt of the discussions if there is one. */
  method WriteDiscussion(m: Markup, discussions: seq<Item>) returns (discussionHtml: string, conversation: seq<string>)
    ensures discussionHtml == DiscussionHTML(m, PromptsOf(discussions))
    ensures conversation == ConversationEntries(PromptsOf(discussions))
  {
    discussionHtml, conversation := "", [];
    if discussions != [] {
      var prompts := CollectPrompts(discussions);
      if prompts != [] {
        discussionHtml := m.conversationOpen + TranslateChapters.ConversationTag("conversation") + m.labelStyle + ">"
          + prompts[0] + TranslateChapters.LabelClose + m.conversationClose;
        conversation := [ConversationEntry(prompts[0])];
      }
    }
  }

  // ---------------------------------------------------------------------
  // What the page shows
  // ---------------------------------------------------------------------

  /** The page shows exactly the questions that have options. */
  lemma ShownIff(items: seq<Item>, x: Item)
    ensures x in Shown(items) <==> x in items && x.Question? && x.options != []
  {
    ThoseIn(items, IsQuestion, x);
    ThoseIn(Those(items, IsQuestion), HasOptions, x);
  }

  /**
   * Option i of question q is the radio input and label that
   * translate_all_chapters rewrites by the id "q{q}_{i}": no `>` inside the
   * input tag but its end, the value right after `value="`, and " required"
   * only on the first option.
   */
  lemma OptionLineShape(q: nat, i: nat, opt: string)
    returns (x: string, a: string, b: string, c: string, y: string, z: string)
    ensures MinimalOption(q, i, opt)
      == x + TranslateChapters.InputOpen + a + TranslateChapters.IdAttr(TranslateChapters.OptionId(q, i)) + b
         + TranslateChapters.ValueOpen + opt + "\"" + c + ">" + y + TranslateChapters.LabelTag(TranslateChapters.OptionId(q, i))
         + opt + TranslateChapters.LabelClose + z
    ensures '>' !in a && '>' !in b && '>' !in c && '"' !in c
    ensures b == " name=\"q" + NatToString(q) + "\" "
    ensures c == " required" <==> i == 1
    ensures c == "" <==> i != 1
    ensures x == ImportExcel.Sp20 + "<div class=\"option\">" + Generator.Nl24 && y == Generator.Nl24
    ensures z == Generator.Nl20 + "</div>"
  {
    var id := TranslateChapters.OptionId(q, i);
    var name := "q" + NatToString(q);
    x, a, b := ImportExcel.Sp20 + "<div class=\"option\">" + Generator.Nl24, " type=\"radio\" ", " name=\"" + name + "\" ";
    c := if i == 1 then " required" else "";
    y, z := Generator.Nl24, Generator.Nl20 + "</div>";
    OptionFormatSplit();
    FormatShape(ImportExcel.OptionFormat, x, a, y, z, id, name, opt, c);
    NameAttrPlain(q);
  }

  lemma NameAttrPlain(q: nat)
    ensures '>' !in " name=\"q" + NatToString(q) + "\" "
  {
    var b := " name=\"q" + NatToString(q) + "\" ";
    assert forall k :: 0 <= k < |NatToString(q)| ==> IsDigit(NatToString(q)[k]);
    forall k | 0 <= k < |b| ensures b[k] != '>' {
      if 8 <= k < 8 + |NatToString(q)| {
        assert b[k] == NatToString(q)[k - 8];
      }
    }
  }

  /** The importer's option pieces cut where the translator's patterns look. */
  lemma OptionFormatSplit()
    ensures var p := ImportExcel.OptionFormat;
      && |p| == 7
      && p[0] == ImportExcel.Sp20 + "<div class=\"option\">" + Generator.Nl24 + TranslateChapters.InputOpen + " type=\"radio\" " + "id=\""
      && p[1] == "\"" + " name=\"" && p[2] == "\" " + TranslateChapters.ValueOpen && p[3] == "\""
      && p[4] == ">" + Generator.Nl24 + "<label for=\"" && p[5] == "\">"
      && p[6] == TranslateChapters.LabelClose + Generator.Nl20 + "</div>"
  {
  }

  lemma FormatShape(p: seq<string>, x: string, a: string, y: string, z: string, id: string, name: string, opt: string, c: string)
    requires |p| == 7 && p[0] == x + TranslateChapters.InputOpen + a + "id=\""
    requires p[1] == "\"" + " name=\"" && p[2] == "\" " + TranslateChapters.ValueOpen && p[3] == "\""
    requires p[4] == ">" + y + "<label for=\"" && p[5] == "\">" && p[6] == TranslateChapters.LabelClose + z
    ensures Format(p, [id, name, opt, c, id, opt])
      == x + TranslateChapters.InputOpen + a + TranslateChapters.IdAttr(id) + (" name=\"" + name + "\" ")
         + TranslateChapters.ValueOpen + opt + "\"" + c + ">" + y + TranslateChapters.LabelTag(id)
         + opt + TranslateChapters.LabelClose + z
  {
    Format6(p, [id, name, opt, c, id, opt]);
    OptionRegroup(x + TranslateChapters.InputOpen + a, id, name, TranslateChapters.ValueOpen, opt, c, y, TranslateChapters.LabelClose + z);
  }

  lemma OptionRegroup(x: string, id: string, name: string, v: string, opt: string, c: string, nl: string, z: string)
    ensures x + "id=\"" + id + ("\"" + " name=\"") + name + ("\" " + v) + opt + "\"" + c + (">" + nl + "<label for=\"") + id
        + "\">" + opt + z
      == x + ("id=\"" + id + "\"") + (" name=\"" + name + "\" ") + v + opt + "\"" + c + ">" + nl + ("<label for=\"" + id + "\">")
        + opt + z
  {
  }

  /** The prompts are collected from the discussions only. */
  lemma {:induction false} PromptsOfIff(ds: seq<Item>)
    ensures PromptsOf(ds) != [] <==> exists k :: 0 <= k < |ds| && ds[k].Discussion? && ds[k].prompts != []
  {
    if ds != [] {
      var init := ds[..|ds| - 1];
      PromptsOfIff(init);
      if exists k :: 0 <= k < |init| && init[k].Discussion? && init[k].prompts != [] {
        var k :| 0 <= k < |init| && init[k].Discussion? && init[k].prompts != [];
        assert ds[k] == init[k];
      }
      if exists k :: 0 <= k < |ds| && ds[k].Discussion? && ds[k].prompts != [] {
        var k :| 0 <= k < |ds| && ds[k].Discussion? && ds[k].prompts != [];
        if k < |init| {
          assert init[k] == ds[k];
        }
      }
    }
  }

  /** There is a conversation section and entry exactly when some discussion has a prompt. */
  lemma ConversationIff(m: Markup, items: seq<Item>)
    ensures DiscussionHTML(m, AllPrompts(items)) != [] <==> exists x :: x in items && x.Discussion? && x.prompts != []
    ensures |Entries(items)| == |Shown(items)| + (if exists x :: x in items && x.Discussion? && x.prompts != [] then 1 else 0)
  {
    var ds := Those(items, IsDiscussion);
    PromptsOfIff(ds);
    if exists x :: x in items && x.Discussion? && x.prompts != [] {
      var x :| x in items && x.Discussion? && x.prompts != [];
      ThoseIn(items, IsDiscussion, x);
      var k :| 0 <= k < |ds| && ds[k] == x;
    }
    if exists k :: 0 <= k < |ds| && ds[k].Discussion? && ds[k].prompts != [] {
      var k :| 0 <= k < |ds| && ds[k].Discussion? && ds[k].prompts != [];
      ThoseIn(items, IsDiscussion, ds[k]);
    }
    if AllPrompts(items) != [] {
      var t := m.conversationOpen + TranslateChapters.ConversationTag("conversation");
      assert |DiscussionHTML(m, AllPrompts(items))| >= |t| > 0;
    }
  }

  /** The section and the entry use the first prompt of the first discussion that has one. */
  lemma {:induction false} FirstPromptUsed(ds: seq<Item>, i: nat)
    requires i < |ds| && ds[i].Discussion? && ds[i].prompts != []
    requires forall j :: 0 <= j < i ==> !(ds[j].Discussion? && ds[j].prompts != [])
    ensures PromptsOf(ds) != [] && PromptsOf(ds)[0] == ds[i].prompts[0]
  {
    var init := ds[..|ds| - 1];
    if i < |init| {
      assert init[i] == ds[i];
      forall j | 0 <= j < i ensures !(init[j].Discussion? && init[j].prompts != []) {
        assert init[j] == ds[j];
      }
      FirstPromptUsed(init, i);
    } else {
      assert forall k :: 0 <= k < |init| ==> init[k] == ds[k];
      PromptsOfIff(init);
    }
  }

  /** The surveyQuestions object holds the entries joined by ",\n", between its opening and closing lines. */
  lemma PageEntries(m: Markup, n: nat, items: seq<Item>) returns (pre: string, post: string)
    ensures MinimalPage(m, n, items)
      == pre + "        window.surveyQuestions = {\n" + Join(Entries(items), ",\n") + "\n        };" + post
  {
    pre, post := ScriptAt(m, [NatToString(n), Join(Blocks(Shown(items)), "\n"), DiscussionHTML(m, AllPrompts(items)),
      Join(Entries(items), ",\n"), NatToString(n)]);
  }

  lemma ScriptAt(m: Markup, fields: seq<string>) returns (pre: string, post: string)
    requires |fields| == 5
    ensures Format(PageFormat(m), fields) == pre + "        window.surveyQuestions = {\n" + fields[3] + "\n        };" + post
  {
    var pf := PageFormat(m);
    var pre', post' := FormatAt(pf, fields, 3);
    var open, close, name := "        window.surveyQuestions = {\n", "\n        };", "        window.chapterName = \"Chapter ";
    assert pf[3] == m.form + open && pf[4] == close + m.script + name;
    pre := pre' + m.form;
    post := m.script + name + post';
    ScriptRegroup(pre', m.form, open, fields[3], close, m.script, name, post');
  }

  lemma ScriptRegroup(a: string, b: string, c: string, d: string, e: string, f: string, h: string, g: string)
    ensures a + (b + c) + d + (e + f + h) + g == (a + b) + c + d + e + (f + h + g)
  {
  }

  // ---------------------------------------------------------------------
  // The sheets of the workbook
  // ---------------------------------------------------------------------

  /** What main writes for one sheet: a "cap N" sheet with content gives chapter_NN.html. */
  function SheetOutput(m: Markup, s: Sheet): Option<ImportExcel.OutputFile> {
    match SheetChapter(s.name)
    case None => None
    case Some(n) =>
      var items := Parsed(s.rows);
      if items == [] then None else Some(ImportExcel.OutputFile(n, ImportExcel.FileName("chapter", n), MinimalPage(m, n, items)))
  }

  function Outputs(m: Markup, sheets: seq<Sheet>): seq<ImportExcel.OutputFile> {
    Collected(sheets, s => SheetOutput(m, s))
  }

  /** main */
  method GenerateEnglishChapters(m: Markup, sheets: seq<Sheet>) returns (outputs: seq<ImportExcel.OutputFile>)
    ensures outputs == Outputs(m, sheets)
  {
    outputs := [];
    for k := 0 to |sheets|
      invariant outputs == Outputs(m, sheets[..k])
    {
      assert sheets[..k + 1][..k] == sheets[..k];
      var chapter := SheetChapter(sheets[k].name);
      if chapter.Some? {
        var content := ParseExcelChapter(sheets[k].rows);
        if content != [] {
          var html := CreateMinimalEnglishChapter(m, chapter.value, content);
          outputs := outputs + [ImportExcel.OutputFile(chapter.value, ImportExcel.FileName("chapter", chapter.value), html)];
        }
      }
    }
    assert sheets[..|sheets|] == sheets;
  }

  /** The files written are those the sheets give. */
  lemma OutputsFrom(m: Markup, sheets: seq<Sheet>, f: ImportExcel.OutputFile)
    ensures f in Outputs(m, sheets) <==> exists i :: 0 <= i < |sheets| && SheetOutput(m, sheets[i]) == Some(f)
  {
    CollectedIn(sheets, s => SheetOutput(m, s), f);
  }

  /** What a file named `name` holds once the files fs are written in order: the last one wins. */
  function OnDisk(fs: seq<ImportExcel.OutputFile>, name: string): (r: Option<string>)
    ensures r.Some? ==> exists k :: 0 <= k < |fs| && fs[k].name == name && fs[k].html == r.value
    ensures r.None? ==> forall k :: 0 <= k < |fs| ==> fs[k].name != name
  {
    if fs == [] then None
    else if fs[|fs| - 1].name == name then Some(fs[|fs| - 1].html)
    else
      var r := OnDisk(fs[..|fs| - 1], name);
      assert forall k :: 0 <= k < |fs| - 1 ==> fs[..|fs| - 1][k] == fs[k];
      r
  }

  /** Different chapter numbers give different file names. */
  lemma FileNameInjective(prefix: string, a: nat, b: nat)
    requires ImportExcel.FileName(prefix, a) == ImportExcel.FileName(prefix, b)
    ensures a == b
  {
    var fa, fb := ImportExcel.FileName(prefix, a), ImportExcel.FileName(prefix, b);
    assert Pad2(a) == fa[|prefix| + 1..|fa| - 5];
    assert Pad2(b) == fb[|prefix| + 1..|fb| - 5];
    Pad2Value(a);
    Pad2Value(b);
  }

  /**
   * Two sheets can name the same chapter ("cap 1" and "cap 01"); both pages
   * are written to chapter_NN.html, and the one left there is that of the
   * last such sheet with items.
   */
  lemma LaterSheetWins(m: Markup, sheets: seq<Sheet>, i: nat, n: nat)
    requires i < |sheets| && SheetChapter(sheets[i].name) == Some(n) && Parsed(sheets[i].rows) != []
    requires forall j :: i < j < |sheets| ==> SheetChapter(sheets[j].name) != Some(n) || Parsed(sheets[j].rows) == []
    ensures OnDisk(Outputs(m, sheets), ImportExcel.FileName("chapter", n)) == Some(MinimalPage(m, n, Parsed(sheets[i].rows)))
  {
    var g := s => SheetOutput(m, s);
    SheetOutputOf(m, sheets[i], n);
    forall j | i < j < |sheets| ensures g(sheets[j]).None? || g(sheets[j]).value.name != g(sheets[i]).value.name {
      if g(sheets[j]).Some? {
        SheetOutputName(m, sheets[j]);
        if g(sheets[j]).value.name == g(sheets[i]).value.name {
          FileNameInjective("chapter", g(sheets[j]).value.chapter, n);
        }
      }
    }
    LastWrittenWins(sheets, g, i);
  }

  /** Of the files a run writes, the last one with a given name is the one left on disk. */
  lemma {:induction false} LastWrittenWins<T>(xs: seq<T>, g: T -> Option<ImportExcel.OutputFile>, i: nat)
    requires i < |xs| && g(xs[i]).Some?
    requires forall j :: i < j < |xs| ==> g(xs[j]).None? || g(xs[j]).value.name != g(xs[i]).value.name
    ensures OnDisk(Collected(xs, g), g(xs[i]).value.name) == Some(g(xs[i]).value.html)
  {
    var init := xs[..|xs| - 1];
    var f := g(xs[i]).value;
    var last := g(xs[|xs| - 1]);
    assert Collected(xs, g) == Collected(init, g) + (if last.Some? then [last.value] else []);
    if i == |xs| - 1 {
      OnDiskSnoc(Collected(init, g), f, f.name);
    } else {
      assert init[i] == xs[i];
      forall j | i < j < |init| ensures g(init[j]).None? || g(init[j]).value.name != f.name {
        assert init[j] == xs[j];
      }
      LastWrittenWins(init, g, i);
      if last.Some? {
        assert last.value.name != f.name;
        OnDiskSnoc(Collected(init, g), last.value, f.name);
      } else {
        assert Collected(xs, g) == Collected(init, g);
      }
    }
  }

  lemma OnDiskSnoc(fs: seq<ImportExcel.OutputFile>, f: ImportExcel.OutputFile, name: string)
    ensures OnDisk(fs + [f], name) == if f.name == name then Some(f.html) else OnDisk(fs, name)
  {
    assert (fs + [f])[..|fs|] == fs;
  }

  lemma SheetOutputOf(m: Markup, s: Sheet, n: nat)
    requires SheetChapter(s.name) == Some(n) && Parsed(s.rows) != []
    ensures SheetOutput(m, s) == Some(ImportExcel.OutputFile(n, ImportExcel.FileName("chapter", n), MinimalPage(m, n, Parsed(s.rows))))
  {
  }

  /** The file a sheet gives is named after the chapter of its "cap N" name. */
  lemma SheetOutputName(m: Markup, s: Sheet)
    requires SheetOutput(m, s).Some?
    ensures SheetChapter(s.name) == Some(SheetOutput(m, s).value.chapter) && Parsed(s.rows) != []
    ensures SheetOutput(m, s).value.chapter >= 0
    ensures SheetOutput(m, s).value.name == ImportExcel.FileName("chapter", SheetOutput(m, s).value.chapter)
  {
  }

  /** Only sheets whose name starts with "cap " give a file. */
  lemma CapSheetsOnly(m: Markup, s: Sheet)
    ensures SheetOutput(m, s).Some? ==> StartsWith(s.name, "cap ")
  {
  }
}
