/**
 * The page generator of the chapter manager: one question section per
 * question, the page around them, the conditional show/hide script and the
 * `window.surveyQuestions` object. Each generator method appends to its
 * output step by step, as the Go code does with a strings.Builder, and is
 * proved equal to a function that states the page's layout; the properties
 * of the layout are lemmas about those functions.
 */
module Generator {
  import opened Text
  import opened Models
  import opened Survey
  import opened Wrappers
  import Parser

  /** A line break followed by the indentation of the given depth. */
  const Nl12: string := "\n            "
  const Nl16: string := "\n                "
  const Nl20: string := "\n                    "
  const Nl24: string := "\n                        "

  // ---------------------------------------------------------------------
  // Question sections
  // ---------------------------------------------------------------------

  /**
   * The inputs generateQuestionHTML writes for q's options, in list order:
   * option i (from 0) gets id `{q.id}_{i+1}`, name q.id, its value and
   * caption HTML-escaped, and `required` exactly when it is the first
   * option of a required radio question.
   */
  function OptionInputs(q: Question): (inputs: seq<OptionInput>)
    ensures |inputs| == |q.options|
  {
    seq(|q.options|, i requires 0 <= i < |q.options| =>
      OptionInput(PositionalId(q.id, i + 1), q.id, HtmlEscape(q.options[i].value),
                  HtmlEscape(q.options[i].caption), q.qtype == Radio && q.required && i == 0))
  }

  /**
   * The options of a question have distinct positional ids, all carry the
   * question's id as their name, and only the first option of a required
   * radio question is required; checkbox options never are.
   */
  lemma OptionInputsRules(q: Question)
    ensures DistinctIds(OptionInputs(q)) && RequiredAtMostFirst(OptionInputs(q))
    ensures forall i :: 0 <= i < |q.options| ==>
      OptionInputs(q)[i].id == PositionalId(q.id, i + 1) && OptionInputs(q)[i].name == q.id
    ensures |q.options| > 0 ==> (OptionInputs(q)[0].required <==> q.qtype == Radio && q.required)
    ensures q.qtype != Radio ==> forall i :: 0 <= i < |q.options| ==> !OptionInputs(q)[i].required
  {
    var inputs := OptionInputs(q);
    forall i | 0 <= i < |inputs|
      ensures inputs[i].id == PositionalId(q.id, i + 1) && inputs[i].name == q.id
      ensures inputs[i].required == (q.qtype == Radio && q.required && i == 0)
    {
    }
    forall i, j | 0 <= i < j < |inputs| ensures inputs[i].id != inputs[j].id {
      if PositionalId(q.id, i + 1) == PositionalId(q.id, j + 1) {
        PositionalIdInjective(q.id, i + 1, j + 1);
      }
    }
  }

  const RadioOptionFormat: seq<string> := [
    Nl20 + "<" + "div class=\"option\">" + Nl24 + Parser.InputOpen("radio") + " id=\"", "\" name=\"", "\" value=\"", "\"",
    ">" + Nl24 + "<label for=\"", "\">", "</label>" + Nl20 + "</div>"]

  const CheckboxOptionFormat: seq<string> := [
    Nl20 + "<" + "div class=\"checkbox-option\">" + Nl24 + Parser.InputOpen("checkbox") + " id=\"", "\" name=\"", "\" value=\"",
    "\">" + Nl24 + "<label for=\"", "\">", "</label>" + Nl20 + "</div>"]

  /** One radio or checkbox option of a question section. */
  function OptionHTML(kind: QuestionType, o: OptionInput): string {
    if kind == Radio then
      Format(RadioOptionFormat, [o.id, o.name, o.value, if o.required then " required" else "", o.id, o.caption])
    else
      Format(CheckboxOptionFormat, [o.id, o.name, o.value, o.id, o.caption])
  }

  /** The options written one after the other, in list order. */
  function OptionsHTML(kind: QuestionType, inputs: seq<OptionInput>): string {
    if inputs == [] then ""
    else OptionsHTML(kind, inputs[..|inputs| - 1]) + OptionHTML(kind, inputs[|inputs| - 1])
  }

  lemma OptionsHTMLSnoc(kind: QuestionType, inputs: seq<OptionInput>, x: OptionInput)
    ensures OptionsHTML(kind, inputs + [x]) == OptionsHTML(kind, inputs) + OptionHTML(kind, x)
  {
    assert (inputs + [x])[..|inputs|] == inputs;
  }

  /** The comment that names a question section. */
  function QuestionComment(q: Question): string {
    Nl12 + "<!-- " + Upper(q.id) + " -->"
  }

  /**
   * The opening tag of a question section: the hidden conditional wrapper
   * with id `{q.id}-section` when q depends on another question, a plain
   * section otherwise.
   */
  function SectionOpening(q: Question): string {
    if q.conditionalOn != "" then Nl12 + Parser.HiddenSectionMarker(q.id)
    else Nl12 + "<div class=\"question-section\">"
  }

  /** The title line; the title is HTML-escaped. */
  function TitleLine(q: Question): string {
    Nl16 + Parser.TitleOpen + HtmlEscape(q.title) + Parser.TitleClose
  }

  /** The option group: radio options, checkbox options, or nothing for an untyped question. */
  function OptionGroup(q: Question): string {
    match q.qtype
    case Radio => Nl16 + "<div class=\"options\">" + OptionsHTML(Radio, OptionInputs(q)) + Nl16 + "</div>"
    case Checkbox => Nl16 + "<div class=\"checkbox-group\">" + OptionsHTML(Checkbox, OptionInputs(q)) + Nl16 + "</div>"
    case Untyped => ""
  }

  /** The section generateQuestionHTML writes for a question. */
  function QuestionHTML(q: Question): string {
    QuestionComment(q) + SectionOpening(q) + TitleLine(q) + OptionGroup(q) + Nl12 + "</div>"
  }

  /** generateQuestionHTML */
  method GenerateQuestionHTML(q: Question) returns (html: string)
    ensures html == QuestionHTML(q)
  {
    html := Nl12 + "<!-- " + Upper(q.id) + " -->";
    if q.conditionalOn != "" {
      html := html + (Nl12 + Parser.HiddenSectionMarker(q.id));
    } else {
      html := html + (Nl12 + "<div class=\"question-section\">");
    }
    html := html + (Nl16 + Parser.TitleOpen + HtmlEscape(q.title) + Parser.TitleClose);
    if q.qtype == Radio || q.qtype == Checkbox {
      var group := if q.qtype == Radio then "<div class=\"options\">" else "<div class=\"checkbox-group\">";
      var options := WriteOptions(q);
      html := html + (Nl16 + group + options + Nl16 + "</div>");
    }
    html := html + Nl12 + "</div>";
  }

  /** The loop over q's options in generateQuestionHTML. */
  method WriteOptions(q: Question) returns (html: string)
    requires q.qtype == Radio || q.qtype == Checkbox
    ensures html == OptionsHTML(q.qtype, OptionInputs(q))
  {
    ghost var inputs := OptionInputs(q);
    html := "";
    var i := 0;
    while i < |q.options|
      invariant 0 <= i <= |q.options|
      invariant html == OptionsHTML(q.qtype, inputs[..i])
    {
      var opt := q.options[i];
      var optID := PositionalId(q.id, i + 1);
      var required := q.qtype == Radio && q.required && i == 0;
      var input := OptionInput(optID, q.id, HtmlEscape(opt.value), HtmlEscape(opt.caption), required);
      assert input == inputs[i];
      TakeSnoc(inputs, i);
      OptionsHTMLSnoc(q.qtype, inputs[..i], inputs[i]);
      html := html + OptionHTML(q.qtype, input);
      i := i + 1;
    }
    assert inputs[..i] == inputs;
  }

  // ---------------------------------------------------------------------
  // Which questions there are
  // ---------------------------------------------------------------------

  predicate AnyCheckbox(qs: seq<Question>) {
    exists i :: 0 <= i < |qs| && qs[i].qtype == Checkbox
  }

  predicate AnyConditional(qs: seq<Question>) {
    exists i :: 0 <= i < |qs| && qs[i].conditionalOn != ""
  }

  /** hasCheckboxQuestions */
  method HasCheckboxQuestions(ch: Chapter) returns (b: bool)
    ensures b <==> AnyCheckbox(ch.questions)
  {
    var i := 0;
    while i < |ch.questions|
      invariant 0 <= i <= |ch.questions|
      invariant forall k :: 0 <= k < i ==> ch.questions[k].qtype != Checkbox
    {
      if ch.questions[i].qtype == Checkbox {
        return true;
      }
      i := i + 1;
    }
    return false;
  }

  /** hasConditionalQuestions */
  method HasConditionalQuestions(ch: Chapter) returns (b: bool)
    ensures b <==> AnyConditional(ch.questions)
  {
    var i := 0;
    while i < |ch.questions|
      invariant 0 <= i <= |ch.questions|
      invariant forall k :: 0 <= k < i ==> ch.questions[k].conditionalOn == ""
    {
      if ch.questions[i].conditionalOn != "" {
        return true;
      }
      i := i + 1;
    }
    return false;
  }

  // ---------------------------------------------------------------------
  // The conditional show/hide script
  // ---------------------------------------------------------------------

  /** The option value that reveals a dependent question: "Yes" in English, "Si" otherwise. */
  function YesValue(lang: Language): (yes: string)
    ensures yes == "Yes" <==> lang == English
  {
    if lang == English then "Yes" else "Si"
  }

  /** The questions that depend on another one, in page order. */
  function Conditionals(qs: seq<Question>): (cs: seq<Question>)
    ensures |cs| <= |qs|
  {
    if qs == [] then []
    else Conditionals(qs[..|qs| - 1]) + (if qs[|qs| - 1].conditionalOn != "" then [qs[|qs| - 1]] else [])
  }

  /** Conditionals keeps exactly the questions with a parent, in their order. */
  lemma {:induction false} ConditionalsSpec(qs: seq<Question>)
    ensures forall c :: c in Conditionals(qs) <==> c in qs && c.conditionalOn != ""
    ensures |Conditionals(qs)| == 0 <==> !AnyConditional(qs)
  {
    if qs != [] {
      var init := qs[..|qs| - 1];
      var last := qs[|qs| - 1];
      var tail := if last.conditionalOn != "" then [last] else [];
      ConditionalsSpec(init);
      assert Conditionals(qs) == Conditionals(init) + tail;
      assert qs == init + [last];
      forall c ensures c in Conditionals(qs) <==> c in qs && c.conditionalOn != "" {
        assert c in Conditionals(qs) <==> c in Conditionals(init) || c in tail;
        assert c in qs <==> c in init || c == last;
      }
      if AnyConditional(init) {
        var k :| 0 <= k < |init| && init[k].conditionalOn != "";
        assert qs[k] == init[k];
      }
      if AnyConditional(qs) && !AnyConditional(init) {
        var k :| 0 <= k < |qs| && qs[k].conditionalOn != "";
      }
    }
  }

  /** The format string of one handler in generateConditionalJS, split at its `%s` verbs. */
  const HandlerFormat: seq<string> := [
    "\n            const ",
    "Radios = document.querySelectorAll('input[name=\"",
    "\"]');\n            const ",
    "Section = document.getElementById('",
    "-section');\n            const ",
    "Inputs = document.querySelectorAll('#",
    "-section input[type=\"",
    "\"]');\n\n            // ",
    " -> ",
    " logic\n            ",
    "Radios.forEach(radio => {\n                radio.addEventListener('change', function() {\n                    if (this.value === '",
    "') {\n                        ",
    "Section.classList.remove('hidden');\n                    } else {\n                        ",
    "Section.classList.add('hidden');\n                        // Clear ",
    " selections\n                        ",
    "Inputs.forEach(input => {\n                            input.checked = false;\n                        });\n                    }\n                });\n            });"]

  /**
   * The handler for one dependent question: when an input named after its
   * parent changes to the yes value its section is shown, otherwise hidden
   * and its inputs cleared. The input type is "checkbox" whatever the
   * question's type.
   */
  function Handler(q: Question, yes: string): string {
    var p := q.conditionalOn;
    var c := q.id;
    var inputType := "checkbox";
    Format(HandlerFormat, [p, p, c, c, c, c, inputType, Upper(p), Upper(c), p, yes, c, c, Upper(c), c])
  }

  /** The handlers of the given questions, one after the other. */
  function Handlers(cs: seq<Question>, yes: string): string {
    if cs == [] then "" else Handlers(cs[..|cs| - 1], yes) + Handler(cs[|cs| - 1], yes)
  }

  lemma ConditionalsSnoc(qs: seq<Question>, q: Question)
    ensures q.conditionalOn != "" ==> Conditionals(qs + [q]) == Conditionals(qs) + [q]
    ensures q.conditionalOn == "" ==> Conditionals(qs + [q]) == Conditionals(qs)
  {
    assert (qs + [q])[..|qs|] == qs;
    assert Conditionals(qs) + [] == Conditionals(qs);
  }

  lemma HandlersSnoc(cs: seq<Question>, c: Question, yes: string)
    ensures Handlers(cs + [c], yes) == Handlers(cs, yes) + Handler(c, yes)
  {
    assert (cs + [c])[..|cs|] == cs;
  }

  /** There is some handler text exactly when there is some dependent question. */
  lemma HandlersIff(qs: seq<Question>, yes: string)
    ensures Handlers(Conditionals(qs), yes) != "" <==> AnyConditional(qs)
  {
    ConditionalsSpec(qs);
    var cs := Conditionals(qs);
    if cs != [] {
      assert |Handler(cs[|cs| - 1], yes)| >= |HandlerFormat[0]| > 0;
    }
  }

  const ConditionalScriptOpen: string :=
    "\n\n    <script>\n        // Handle conditional questions\n        document.addEventListener('DOMContentLoaded', function() {"
  const ConditionalScriptClose: string := "\n        });\n    </script>"

  /** The script generateConditionalJS writes: one handler per dependent question. */
  function ConditionalJS(ch: Chapter): string {
    ConditionalScriptOpen + Handlers(Conditionals(ch.questions), YesValue(ch.language)) + ConditionalScriptClose
  }

  /** generateConditionalJS */
  method GenerateConditionalJS(ch: Chapter) returns (js: string)
    ensures js == ConditionalJS(ch)
  {
    var qs := ch.questions;
    var body := "";
    var i := 0;
    while i < |qs|
      invariant 0 <= i <= |qs|
      invariant body == Handlers(Conditionals(qs[..i]), YesValue(ch.language))
    {
      ghost var cs := Conditionals(qs[..i]);
      TakeSnoc(qs, i);
      ConditionalsSnoc(qs[..i], qs[i]);
      if qs[i].conditionalOn != "" {
        var yesValue := YesValue(ch.language);
        assert Conditionals(qs[..i + 1]) == cs + [qs[i]];
        HandlersSnoc(cs, qs[i], yesValue);
        body := body + Handler(qs[i], yesValue);
      } else {
        assert Conditionals(qs[..i + 1]) == cs;
      }
      i := i + 1;
    }
    assert qs[..i] == qs;
    js := ConditionalScriptOpen + body + ConditionalScriptClose;
  }

  // ---------------------------------------------------------------------
  // The surveyQuestions object
  // ---------------------------------------------------------------------

  /** `{id}: "{title}"` with the title's double quotes escaped. */
  function QuestionEntry(q: Question): string {
    Nl12 + q.id + ": \"" + EscapeQuotes(q.title) + "\""
  }

  function ConversationEntry(prompt: string): string {
    Nl12 + "conversation: \"" + EscapeQuotes(prompt) + "\""
  }

  /** The entries of surveyQuestions: one per question, then the conversation when it has a prompt. */
  function SurveyEntries(ch: Chapter): (entries: seq<string>)
    ensures |entries| == |ch.questions| + (if ch.conversation.prompt != "" then 1 else 0)
    ensures forall i :: 0 <= i < |ch.questions| ==> entries[i] == QuestionEntry(ch.questions[i])
    ensures ch.conversation.prompt != "" ==> entries[|ch.questions|] == ConversationEntry(ch.conversation.prompt)
  {
    seq(|ch.questions|, i requires 0 <= i < |ch.questions| => QuestionEntry(ch.questions[i]))
    + (if ch.conversation.prompt != "" then [ConversationEntry(ch.conversation.prompt)] else [])
  }

  /**
   * The entries loop of generateChapterHTML: an entry per question, a comma
   * after each one that is not the last entry, then the conversation entry
   * when the chapter has a prompt. The result is the entries joined by
   * commas, so no comma trails the last entry.
   */
  method WriteSurveyQuestions(ch: Chapter) returns (js: string)
    ensures js == Join(SurveyEntries(ch), ",")
  {
    var qs := ch.questions;
    var entries := SurveyEntries(ch);
    var qe := entries[..|qs|];
    js := "";
    for i := 0 to |qs|
      invariant i == 0 ==> js == ""
      invariant i > 0 ==> js == Join(qe[..i], ",") + (if i < |qs| || ch.conversation.prompt != "" then "," else "")
    {
      var jsTitle := EscapeQuotes(qs[i].title);
      assert Nl12 + qs[i].id + ": \"" + jsTitle + "\"" == qe[i];
      if i > 0 {
        JoinSnoc(qe[..i], qe[i], ",");
        assert qe[..i + 1] == qe[..i] + [qe[i]];
      } else {
        assert qe[..1] == [qe[0]];
      }
      js := js + (Nl12 + qs[i].id + ": \"" + jsTitle + "\"");
      if i < |qs| - 1 || ch.conversation.prompt != "" {
        js := js + ",";
      }
    }
    assert qe[..|qs|] == qe;
    if ch.conversation.prompt != "" {
      var jsConvLabel := EscapeQuotes(ch.conversation.prompt);
      var c := Nl12 + "conversation: \"" + jsConvLabel + "\"";
      if |qs| > 0 {
        JoinSnoc(qe, c, ",");
      }
      assert entries == qe + [c];
      js := js + c;
    } else {
      assert entries == qe;
    }
  }

  /** Every entry ends with a quote, so the joined object ends with one too (or is empty). */
  lemma SurveyEntriesEndInQuote(ch: Chapter)
    ensures var js := Join(SurveyEntries(ch), ","); js == [] || js[|js| - 1] == '"'
  {
    var entries := SurveyEntries(ch);
    if entries != [] {
      JoinEndsWithLast(entries, ",");
    }
  }

  /** sep.join never ends with the separator unless the last part does. */
  lemma {:induction false} JoinEndsWithLast(parts: seq<string>, sep: string)
    requires |parts| > 0
    ensures EndsWith(Join(parts, sep), parts[|parts| - 1])
  {
    if |parts| > 1 {
      JoinEndsWithLast(parts[1..], sep);
      var j := Join(parts[1..], sep);
      var last := parts[|parts| - 1];
      assert Join(parts, sep) == parts[0] + sep + j;
      assert (parts[0] + sep + j)[|parts[0] + sep + j| - |last|..] == j[|j| - |last|..];
    }
  }

  // ---------------------------------------------------------------------
  // The page
  // ---------------------------------------------------------------------

  /** The chapter's texts as they are written into the page. */
  datatype PageTexts = PageTexts(
    title: string, heading: string,
    conversationTitle: string, conversationPrompt: string, conversationPlaceholder: string,
    emailLabel: string, emailPlaceholder: string,
    submitText: string, resetText: string, successMsg: string, summaryTitle: string)

  /** Every text is HTML-escaped except the success message, which is written as it is. */
  function TextsOf(ch: Chapter): PageTexts {
    PageTexts(HtmlEscape(ch.title), HtmlEscape(ch.heading),
              HtmlEscape(ch.conversation.title), HtmlEscape(ch.conversation.prompt),
              HtmlEscape(ch.conversation.placeholder),
              HtmlEscape(ch.emailLabel), HtmlEscape(ch.emailPlaceholder),
              HtmlEscape(ch.submitText), HtmlEscape(ch.resetText), ch.successMsg,
              HtmlEscape(ch.summaryTitle))
  }

  /** No character that could open or close markup or an attribute. */
  predicate MarkupFree(s: string) {
    forall i :: 0 <= i < |s| ==> s[i] !in {'<', '>', '"', '\''}
  }

  /**
   * No text of the chapter can add markup to the page, except the success
   * message, which is inserted raw (so a success message may carry HTML).
   */
  lemma TextsEscaped(ch: Chapter)
    ensures var t := TextsOf(ch);
      MarkupFree(t.title) && MarkupFree(t.heading) && MarkupFree(t.conversationTitle)
      && MarkupFree(t.conversationPrompt) && MarkupFree(t.conversationPlaceholder)
      && MarkupFree(t.emailLabel) && MarkupFree(t.emailPlaceholder) && MarkupFree(t.submitText)
      && MarkupFree(t.resetText) && MarkupFree(t.summaryTitle) && t.successMsg == ch.successMsg
  {
    HtmlEscapeNoMarkup(ch.title);
    HtmlEscapeNoMarkup(ch.heading);
    HtmlEscapeNoMarkup(ch.conversation.title);
    HtmlEscapeNoMarkup(ch.conversation.prompt);
    HtmlEscapeNoMarkup(ch.conversation.placeholder);
    HtmlEscapeNoMarkup(ch.emailLabel);
    HtmlEscapeNoMarkup(ch.emailPlaceholder);
    HtmlEscapeNoMarkup(ch.submitText);
    HtmlEscapeNoMarkup(ch.resetText);
    HtmlEscapeNoMarkup(ch.summaryTitle);
  }

  // The fixed markup of the page, abbreviated to the elements that frame
  // each text (indentation, comments, style rules and script bodies dropped).

  const HeadFormat: seq<string> := ["<!DOCTYPE html>\n<html lang=\"", "\">\n<head>\n<title>", "</title>"]

  const CheckboxCSS: string := "\n<style>.checkbox-group, .checkbox-option, .hidden, .conditional-section</style>"

  const BodyFormat: seq<string> := ["\n</head>\n<body>\n<div class=\"container\">\n<h1>", "</h1>\n<form id=\"pollForm\">"]

  const ConversationFormat: seq<string> := [
    "\n<div class=\"question-section\">\n<div class=\"question-title\">",
    "</div>\n<label for=\"conversation\">",
    "</label>\n<textarea id=\"conversation\" name=\"conversation\" placeholder=\"",
    "\" required></textarea>\n</div>"]

  const EmailFormat: seq<string> := [
    "\n<div class=\"question-section\">\n<label for=\"email\">",
    "</label>\n<input type=\"email\" id=\"email\" name=\"email\" placeholder=\"",
    "\" required>\n</div>"]

  const RecaptchaSection: string := "\n<div class=\"g-recaptcha\"></div>"

  const ButtonsFormat: seq<string> := [
    "\n<button type=\"submit\" id=\"submitBtn\">", "</button>\n<button type=\"reset\" id=\"resetBtn\">",
    "</button>\n</form>"]

  const SuccessFormat: seq<string> := ["\n<div class=\"success-message\" id=\"successMessage\">", "</div>"]

  const SummaryFormat: seq<string> := ["\n<div class=\"summary-section\">\n<h2 class=\"summary-title\">", "</h2>\n</div>\n</div>"]

  const ChapterNameFormat: seq<string> := ["\n        };\n        window.chapterName = \"", "\";\n    </script>"]

  const PageScripts: string := "\n<script src=\"survey.js\"></script>\n</body>\n</html>\n"

  /** The question sections, each after a line break, in order. */
  function QuestionsHTML(qs: seq<Question>): string {
    if qs == [] then "" else QuestionsHTML(qs[..|qs| - 1]) + "\n" + QuestionHTML(qs[|qs| - 1])
  }

  lemma QuestionsHTMLSnoc(qs: seq<Question>, q: Question)
    ensures QuestionsHTML(qs + [q]) == QuestionsHTML(qs) + "\n" + QuestionHTML(q)
  {
    assert (qs + [q])[..|qs|] == qs;
  }

  /** The document head up to the style sheet link. */
  function HeadPart(ch: Chapter): string {
    Format(HeadFormat, [LanguageCode(ch.language), TextsOf(ch).title])
  }

  /** The end of the head, the container and the heading, up to the form's opening tag. */
  function BodyPart(ch: Chapter): string {
    Format(BodyFormat, [TextsOf(ch).heading])
  }

  /**
   * The fixed markup of a page, in the order generateChapterHTML writes it.
   * A `seq<string>` field holds the pieces of one formatted section, between
   * which the section's texts go; GoPage holds the generator's own text.
   */
  datatype PageTemplate = PageTemplate(
    head: seq<string>, checkboxStyle: string, body: seq<string>,
    conversation: seq<string>, email: seq<string>, recaptcha: string,
    buttons: seq<string>, success: seq<string>, summary: seq<string>,
    scriptOpen: string, questionsOpen: string, chapterName: seq<string>, scripts: string)

  /** Each formatted section has one piece more than it has texts. */
  predicate WellFormed(tpl: PageTemplate) {
    && |tpl.head| == 3 && |tpl.body| == 2 && |tpl.conversation| == 4 && |tpl.email| == 3
    && |tpl.buttons| == 3 && |tpl.success| == 2 && |tpl.summary| == 2 && |tpl.chapterName| == 2
  }

  const GoPage: PageTemplate :=
    PageTemplate(HeadFormat, CheckboxCSS, BodyFormat, ConversationFormat, EmailFormat, RecaptchaSection,
                 ButtonsFormat, SuccessFormat, SummaryFormat, "\n\n    <script>", "\n        window.surveyQuestions = {",
                 ChapterNameFormat, PageScripts)

  /** Everything before the question sections: head, optional checkbox styles, heading. */
  function PageTop(tpl: PageTemplate, ch: Chapter): string
    requires WellFormed(tpl)
  {
    Format(tpl.head, [LanguageCode(ch.language), TextsOf(ch).title])
    + (if AnyCheckbox(ch.questions) then tpl.checkboxStyle else "")
    + Format(tpl.body, [TextsOf(ch).heading])
  }

  /** The conversation, email, reCAPTCHA, button, success and summary sections. */
  function FixedSections(tpl: PageTemplate, ch: Chapter): string
    requires WellFormed(tpl)
  {
    var t := TextsOf(ch);
    Format(tpl.conversation, [t.conversationTitle, t.conversationPrompt, t.conversationPlaceholder])
    + Format(tpl.email, [t.emailLabel, t.emailPlaceholder])
    + tpl.recaptcha
    + Format(tpl.buttons, [t.submitText, t.resetText])
    + Format(tpl.success, [t.successMsg])
    + Format(tpl.summary, [t.summaryTitle])
  }

  /**
   * The survey script: the questions object and the chapter name. Without
   * conditional questions the generator writes one more line break first.
   */
  function SurveyScript(tpl: PageTemplate, ch: Chapter): string
    requires WellFormed(tpl)
  {
    tpl.scriptOpen + (if AnyConditional(ch.questions) then "" else "\n")
    + tpl.questionsOpen + Join(SurveyEntries(ch), ",")
    + Format(tpl.chapterName, [EscapeQuotes(ch.chapterName)])
  }

  /** The sections and scripts after the questions. */
  function PageBottom(tpl: PageTemplate, ch: Chapter): string
    requires WellFormed(tpl)
  {
    FixedSections(tpl, ch)
    + (if AnyConditional(ch.questions) then ConditionalJS(ch) else "")
    + SurveyScript(tpl, ch) + tpl.scripts
  }

  /** The page generateChapterHTML writes for a chapter, with the fixed markup of tpl. */
  function ChapterPage(tpl: PageTemplate, ch: Chapter): string
    requires WellFormed(tpl)
  {
    PageTop(tpl, ch) + QuestionsHTML(ch.questions) + PageBottom(tpl, ch)
  }

  /** generateChapterHTML */
  method GenerateChapterHTML(ch: Chapter) returns (html: string)
    ensures html == ChapterPage(GoPage, ch)
  {
    html := WritePage(GoPage, ch);
  }

  /** generateChapterHTML, over any fixed markup. */
  method WritePage(tpl: PageTemplate, ch: Chapter) returns (html: string)
    requires WellFormed(tpl)
    ensures html == ChapterPage(tpl, ch)
  {
    var hasCheckbox := HasCheckboxQuestions(ch);
    var style := "";
    if hasCheckbox {
      style := tpl.checkboxStyle;
    }
    var top := Format(tpl.head, [LanguageCode(ch.language), HtmlEscape(ch.title)]) + style
      + Format(tpl.body, [HtmlEscape(ch.heading)]);
    var sections := WriteQuestions(ch.questions);
    var bottom := WritePageBottom(tpl, ch);
    html := top + sections + bottom;
  }

  /** The question loop of generateChapterHTML. */
  method WriteQuestions(qs: seq<Question>) returns (sections: string)
    ensures sections == QuestionsHTML(qs)
  {
    sections := "";
    for i := 0 to |qs|
      invariant sections == QuestionsHTML(qs[..i])
    {
      var q := GenerateQuestionHTML(qs[i]);
      TakeSnoc(qs, i);
      QuestionsHTMLSnoc(qs[..i], qs[i]);
      sections := sections + "\n" + q;
    }
    assert qs[..|qs|] == qs;
  }

  /** The part of generateChapterHTML after the question loop. */
  method WritePageBottom(tpl: PageTemplate, ch: Chapter) returns (b: string)
    requires WellFormed(tpl)
    ensures b == PageBottom(tpl, ch)
  {
    b := Format(tpl.conversation, [HtmlEscape(ch.conversation.title), HtmlEscape(ch.conversation.prompt),
                                   HtmlEscape(ch.conversation.placeholder)])
      + Format(tpl.email, [HtmlEscape(ch.emailLabel), HtmlEscape(ch.emailPlaceholder)])
      + tpl.recaptcha
      + Format(tpl.buttons, [HtmlEscape(ch.submitText), HtmlEscape(ch.resetText)])
      + Format(tpl.success, [ch.successMsg])
      + Format(tpl.summary, [HtmlEscape(ch.summaryTitle)]);
    var hasConditional := HasConditionalQuestions(ch);
    var js := "";
    var lineBreak := "\n";
    if hasConditional {
      js := GenerateConditionalJS(ch);
      lineBreak := "";
    }
    var entries := WriteSurveyQuestions(ch);
    var script := tpl.scriptOpen + lineBreak + tpl.questionsOpen + entries
      + Format(tpl.chapterName, [EscapeQuotes(ch.chapterName)]);
    b := b + js + script + tpl.scripts;
  }

  // ---------------------------------------------------------------------
  // What the parser reads back from a generated page
  // ---------------------------------------------------------------------

  // Regrouping concatenations, stated over plain variables so that the
  // terms they are applied to are not taken apart.

  lemma Regroup3<T>(a: seq<T>, x: seq<T>, b: seq<T>, c: seq<T>, d: seq<T>)
    ensures a + x + b + c + d == a + x + (b + c + d)
  {
  }

  lemma Regroup6<T>(a: seq<T>, b: seq<T>, c: seq<T>, m: seq<T>, t: seq<T>, z: seq<T>)
    ensures a + b + (c + m) + t + z == a + b + c + m + (t + z)
  {
  }

  lemma Regroup8<T>(a: seq<T>, b: seq<T>, c: seq<T>, n: seq<T>, o: seq<T>, e: seq<T>, t: seq<T>, z: seq<T>)
    ensures a + b + c + (n + o + e + t) + z == (a + b + c + n) + (o + e + t + z)
  {
  }

  lemma Regroup10<T>(top: seq<T>, a: seq<T>, c: seq<T>, o: seq<T>, t: seq<T>, g: seq<T>, n: seq<T>, e: seq<T>,
                     b: seq<T>, bottom: seq<T>)
    ensures top + (a + (c + o + t + g + n + e) + b) + bottom == (top + a) + c + o + t + (g + n + e + b + bottom)
  {
  }

  /** The sections of qs split around the k-th one. */
  lemma {:induction false} QuestionsHTMLSplit(qs: seq<Question>, k: nat) returns (pre: string, post: string)
    requires k < |qs|
    ensures QuestionsHTML(qs) == pre + QuestionHTML(qs[k]) + post
  {
    var n := |qs| - 1;
    if k == n {
      pre, post := QuestionsHTML(qs[..n]) + "\n", "";
    } else {
      var pre', post' := QuestionsHTMLSplit(qs[..n], k);
      assert qs[..n][k] == qs[k];
      pre, post := pre', post' + "\n" + QuestionHTML(qs[n]);
      Regroup3(pre', QuestionHTML(qs[k]), post', "\n", QuestionHTML(qs[n]));
    }
  }

  /**
   * The page splits around the k-th question's section: the text before it,
   * then the question's comment, its opening tag and the rest.
   */
  lemma PageAroundQuestion(tpl: PageTemplate, ch: Chapter, k: nat) returns (pre: string, post: string)
    requires WellFormed(tpl) && k < |ch.questions|
    ensures ChapterPage(tpl, ch)
      == pre + QuestionComment(ch.questions[k]) + SectionOpening(ch.questions[k]) + TitleLine(ch.questions[k]) + post
  {
    var q := ch.questions[k];
    var a, b := QuestionsHTMLSplit(ch.questions, k);
    pre := PageTop(tpl, ch) + a;
    post := OptionGroup(q) + Nl12 + "</div>" + b + PageBottom(tpl, ch);
    Regroup10(PageTop(tpl, ch), a, QuestionComment(q), SectionOpening(q), TitleLine(q), OptionGroup(q), Nl12, "</div>",
              b, PageBottom(tpl, ch));
  }

  /**
   * A conditional question's section in a generated page is seen as hidden
   * by the parser, by either of its patterns.
   */
  lemma ConditionalSectionHidden(tpl: PageTemplate, ch: Chapter, k: nat)
    requires WellFormed(tpl) && k < |ch.questions| && ch.questions[k].conditionalOn != ""
    ensures Contains(ChapterPage(tpl, ch), Parser.HiddenSectionMarker(ch.questions[k].id))
    ensures Parser.SectionHidden(ChapterPage(tpl, ch), ch.questions[k].id)
  {
    var q := ch.questions[k];
    var pre, post := PageAroundQuestion(tpl, ch, k);
    var marker := Parser.HiddenSectionMarker(q.id);
    var p := pre + QuestionComment(q) + Nl12;
    var r := TitleLine(q) + post;
    Regroup6(pre, QuestionComment(q), Nl12, marker, TitleLine(q), post);
    Parser.GeneratedSectionIsHidden(p, r, q.id);
  }

  /** An escaped `Q<digits>:<text>` title is still text the title pattern accepts. */
  lemma EscapedTitle(d: string, text: string)
    requires |d| > 0 && AllDigits(d) && |text| > 0
    ensures Parser.IsTitleText(HtmlEscape("Q" + d + ":" + text))
    ensures Parser.TitleDigits(HtmlEscape("Q" + d + ":" + text)) == Some(d)
  {
    var esc := HtmlEscape("Q" + d + ":" + text);
    assert esc == "Q" + d + ":" + HtmlEscape(text) by {
      FlatAppend("Q" + d + ":", text, HtmlEscapeChar);
      HtmlEscapePlain("Q" + d + ":");
    }
    HtmlEscapeLength(text);
    HtmlEscapeNoMarkup("Q" + d + ":" + text);
    Parser.TitleDigitsOf(d, HtmlEscape(text));
  }

  /**
   * The title markup the generator writes is read back by the parser's title
   * pattern as the escaped title, when the title has the `Q<digits>:<text>`
   * form the pattern requires.
   */
  lemma TitleReadBack(s: string, p: nat, d: string, text: string, post: string)
    requires |d| > 0 && AllDigits(d) && |text| > 0
    requires p <= |s| && s[p..] == Parser.TitleOpen + HtmlEscape("Q" + d + ":" + text) + Parser.TitleClose + post
    ensures Parser.TitleAt(s, p) == Some(HtmlEscape("Q" + d + ":" + text))
  {
    var esc := HtmlEscape("Q" + d + ":" + text);
    EscapedTitle(d, text);
    var b := p + |Parser.TitleOpen|;
    var lt := b + |esc|;
    SuffixParts(s, p, Parser.TitleOpen, esc, Parser.TitleClose, post);
    assert FirstFrom(s, '<', b) == lt by {
      FirstFromSpec(s, '<', b);
      assert s[lt] == '<';
      assert forall j :: b <= j < lt ==> s[j] == esc[j - b];
    }
  }

  /** Every question of a generated page is found by the title pattern, under its escaped title. */
  lemma TitleInPage(tpl: PageTemplate, ch: Chapter, k: nat, d: string, text: string) returns (p: nat)
    requires WellFormed(tpl) && k < |ch.questions|
    requires |d| > 0 && AllDigits(d) && |text| > 0 && ch.questions[k].title == "Q" + d + ":" + text
    ensures p <= |ChapterPage(tpl, ch)|
    ensures Parser.TitleAt(ChapterPage(tpl, ch), p) == Some(HtmlEscape(ch.questions[k].title))
  {
    var q := ch.questions[k];
    var pre, post := PageAroundQuestion(tpl, ch, k);
    var page := ChapterPage(tpl, ch);
    var a := pre + QuestionComment(q) + SectionOpening(q) + Nl16;
    p := |a|;
    Regroup8(pre, QuestionComment(q), SectionOpening(q), Nl16, Parser.TitleOpen, HtmlEscape(q.title), Parser.TitleClose, post);
    assert page[p..] == Parser.TitleOpen + HtmlEscape(q.title) + Parser.TitleClose + post;
    TitleReadBack(page, p, d, text, post);
  }

  // ---------------------------------------------------------------------
  // What the option pattern reads back from a question section
  // ---------------------------------------------------------------------

  /** The input type the parser looks for in an option group of the given kind. */
  function InputKind(kind: QuestionType): string {
    if kind == Radio then "radio" else "checkbox"
  }

  /** The wrapper tag of one option, without its `<`. */
  function OptionDiv(kind: QuestionType): string {
    if kind == Radio then "div class=\"option\">" + Nl24 else "div class=\"checkbox-option\">" + Nl24
  }

  /** The text between the value's closing quote and the tag's `>`. */
  function RequiredAttr(kind: QuestionType, o: OptionInput): string {
    if kind == Radio && o.required then " required" else ""
  }

  /** One option input, regrouped into the pieces the option pattern takes apart. */
  lemma OptionText(kind: QuestionType, o: OptionInput, post: string)
    requires kind == Radio || kind == Checkbox
    ensures OptionHTML(kind, o) + post == Nl20 + ("<" + (OptionDiv(kind) + (Parser.InputOpen(InputKind(kind))
      + (" id=\"" + (o.id + ("\" " + (Parser.NameAttr(o.name) + (" " + (Parser.ValueOpen + (o.value + ("\""
      + (RequiredAttr(kind, o) + (">" + (Nl24 + (Parser.LabelOpen + (" for=\"" + (o.id + ("\">" + (o.caption
      + (Parser.LabelClose + (Nl20 + ("<" + ("/div>" + post)))))))))))))))))))))))
  {
    var r6 := Parser.LabelClose + (Nl20 + ("<" + ("/div>" + post)));
    var r4 := ">" + (Nl24 + (Parser.LabelOpen + (" for=\"" + (o.id + ("\">" + (o.caption + r6))))));
    var r2 := Parser.NameAttr(o.name) + (" " + (Parser.ValueOpen + (o.value + ("\"" + (RequiredAttr(kind, o) + r4)))));
    var r0 := Nl20 + ("<" + (OptionDiv(kind) + (Parser.InputOpen(InputKind(kind)) + (" id=\"" + (o.id + ("\" " + r2))))));
    ClosingPiece(post);
    if kind == Radio {
      var p, args := RadioOptionFormat, [o.id, o.name, o.value, RequiredAttr(kind, o), o.id, o.caption];
      Format6Post(p, args, post);
      LabelPiece(o.id + ("\">" + (o.caption + r6)));
      NamePiece(o.name, o.value + ("\"" + (RequiredAttr(kind, o) + r4)));
      RadioHead(o.id + ("\" " + r2));
    } else {
      var p, args := CheckboxOptionFormat, [o.id, o.name, o.value, o.id, o.caption];
      Format5Post(p, args, post);
      CheckboxLabelPiece(o.id + ("\">" + (o.caption + r6)));
      NamePiece(o.name, o.value + ("\"" + (RequiredAttr(kind, o) + r4)));
      CheckboxHead(o.id + ("\" " + r2));
    }
  }

  /** One piece and argument of a format taken off the front, with text after the format. */
  lemma FormatPost(p: seq<string>, args: seq<string>, k: nat, post: string)
    requires |p| == |args| + 1 && k < |args|
    ensures Format(p[k..], args[k..]) + post == p[k] + (args[k] + (Format(p[k + 1..], args[k + 1..]) + post))
  {
    FormatFront(p, args, k);
  }

  /** A format of 6 arguments followed by more text, associated to the right. */
  lemma Format6Post(p: seq<string>, args: seq<string>, post: string)
    requires |p| == 7 && |args| == 6
    ensures Format(p, args) + post
      == p[0] + (args[0] + (p[1] + (args[1] + (p[2] + (args[2] + (p[3] + (args[3] + (p[4] + (args[4]
        + (p[5] + (args[5] + (p[6] + post))))))))))))
  {
    assert p[0..] == p && args[0..] == args;
    FormatPost(p, args, 0, post);
    FormatPost(p, args, 1, post);
    FormatPost(p, args, 2, post);
    FormatPost(p, args, 3, post);
    FormatPost(p, args, 4, post);
    FormatPost(p, args, 5, post);
    assert Format(p[6..], args[6..]) == p[6];
  }

  /** A format of 5 arguments followed by more text, associated to the right. */
  lemma Format5Post(p: seq<string>, args: seq<string>, post: string)
    requires |p| == 6 && |args| == 5
    ensures Format(p, args) + post
      == p[0] + (args[0] + (p[1] + (args[1] + (p[2] + (args[2] + (p[3] + (args[3] + (p[4] + (args[4]
        + (p[5] + post))))))))))
  {
    assert p[0..] == p && args[0..] == args;
    FormatPost(p, args, 0, post);
    FormatPost(p, args, 1, post);
    FormatPost(p, args, 2, post);
    FormatPost(p, args, 3, post);
    FormatPost(p, args, 4, post);
    assert Format(p[5..], args[5..]) == p[5];
  }

  // The literal pieces of the option formats, split where the option pattern looks.

  lemma RadioHead(z: string)
    ensures RadioOptionFormat[0] + z
      == Nl20 + ("<" + (OptionDiv(Radio) + (Parser.InputOpen(InputKind(Radio)) + (" id=\"" + z))))
  {
    HeadRegroup(Nl20, "div class=\"option\">", Nl24, Parser.InputOpen(InputKind(Radio)), z);
  }

  lemma CheckboxHead(z: string)
    ensures CheckboxOptionFormat[0] + z
      == Nl20 + ("<" + (OptionDiv(Checkbox) + (Parser.InputOpen(InputKind(Checkbox)) + (" id=\"" + z))))
  {
    HeadRegroup(Nl20, "div class=\"checkbox-option\">", Nl24, Parser.InputOpen(InputKind(Checkbox)), z);
  }

  lemma HeadRegroup(n: string, d: string, m: string, i: string, z: string)
    ensures n + "<" + d + m + i + " id=\"" + z == n + ("<" + ((d + m) + (i + (" id=\"" + z))))
  {
  }

  lemma NamePiece(name: string, y: string)
    ensures "\" name=\"" + (name + ("\" value=\"" + y)) == "\" " + (Parser.NameAttr(name) + (" " + (Parser.ValueOpen + y)))
  {
  }

  lemma LabelPiece(x: string)
    ensures RadioOptionFormat[4] + x == ">" + (Nl24 + (Parser.LabelOpen + (" for=\"" + x)))
  {
  }

  lemma CheckboxLabelPiece(x: string)
    ensures CheckboxOptionFormat[3] + x == "\"" + ("" + (">" + (Nl24 + (Parser.LabelOpen + (" for=\"" + x)))))
  {
  }

  lemma ClosingPiece(post: string)
    ensures RadioOptionFormat[6] + post == Parser.LabelClose + (Nl20 + ("<" + ("/div>" + post)))
    ensures CheckboxOptionFormat[5] + post == Parser.LabelClose + (Nl20 + ("<" + ("/div>" + post)))
  {
  }

  /**
   * An option input the option pattern reads back as written: the id and
   * the value hold no `"` or `>` and do not end in `=`, the name holds no
   * `>`, and the caption is non-empty and holds no `<`.
   */
  predicate Recoverable(o: OptionInput) {
    '"' !in o.id && '>' !in o.id && (o.id == "" || o.id[|o.id| - 1] != '=') && '>' !in o.name
    && '"' !in o.value && '>' !in o.value && (o.value == "" || o.value[|o.value| - 1] != '=')
    && o.caption != "" && '<' !in o.caption
  }

  // The literal text around an option input, as the option pattern sees it.

  lemma IndentPlain()
    ensures '<' !in Nl20 && forall i :: 0 <= i < |Nl24| ==> Parser.IsReSpace(Nl24[i])
  {
  }

  lemma OptionDivPlain(kind: QuestionType)
    ensures '<' !in OptionDiv(kind) && OptionDiv(kind) != [] && OptionDiv(kind)[0] != 'i'
    ensures '<' !in "/div>" && "/div>"[0] != 'i'
  {
    var d := if kind == Radio then "div class=\"option\">" else "div class=\"checkbox-option\">";
    assert '<' !in d && d[0] == 'd';
    assert OptionDiv(kind) == d + Nl24;
  }

  lemma RequiredPlain(kind: QuestionType, o: OptionInput)
    ensures '"' !in RequiredAttr(kind, o) && '>' !in RequiredAttr(kind, o)
  {
  }

  /**
   * The option pattern finds a written option input, with its value and
   * caption as written, and goes on after the option's closing `</div>`.
   */
  lemma OptionReadBack(kind: QuestionType, o: OptionInput, post: string)
    requires (kind == Radio || kind == Checkbox) && Recoverable(o)
    ensures Parser.OptionHits(OptionHTML(kind, o) + post, InputKind(kind), o.name)
      == [(o.value, o.caption)] + Parser.OptionHits(post, InputKind(kind), o.name)
  {
    var k := InputKind(kind);
    var r6 := Parser.LabelClose + (Nl20 + ("<" + ("/div>" + post)));
    var input := Parser.InputOpen(k) + (" id=\"" + (o.id + ("\" " + (Parser.NameAttr(o.name) + (" " + (Parser.ValueOpen
      + (o.value + ("\"" + (RequiredAttr(kind, o) + (">" + (Nl24 + (Parser.LabelOpen + (" for=\"" + (o.id + ("\">"
      + (o.caption + r6))))))))))))))));
    OptionText(kind, o, post);
    IndentPlain();
    OptionDivPlain(kind);
    RequiredPlain(kind, o);
    Parser.OptionHitsOverTag(Nl20, OptionDiv(kind), input, k, o.name);
    Parser.OptionHitsInput(k, o.id, o.name, o.value, RequiredAttr(kind, o), Nl24, o.caption,
                           Nl20 + ("<" + ("/div>" + post)));
    Parser.OptionHitsOverTag(Nl20, "/div>", post, k, o.name);
  }

  /** The (value, caption) pairs of the inputs, in order. */
  function Pairs(inputs: seq<OptionInput>): seq<(string, string)> {
    seq(|inputs|, i requires 0 <= i < |inputs| => (inputs[i].value, inputs[i].caption))
  }

  /** The options written one after the other are found one after the other. */
  lemma {:induction false} OptionsReadBack(kind: QuestionType, inputs: seq<OptionInput>, qID: string, post: string)
    requires (kind == Radio || kind == Checkbox) && '>' !in qID
    requires AllRecoverable(inputs, qID)
    ensures Parser.OptionHits(OptionsHTML(kind, inputs) + post, InputKind(kind), qID)
      == Pairs(inputs) + Parser.OptionHits(post, InputKind(kind), qID)
  {
    if inputs == [] {
      NoOptions(kind, qID, post);
    } else {
      var n := |inputs| - 1;
      var x := inputs[n];
      var k := InputKind(kind);
      AllRecoverableSplit(inputs, qID);
      OptionsReadBack(kind, inputs[..n], qID, OptionHTML(kind, x) + post);
      OptionReadBack(kind, x, post);
      PairsSnoc(inputs);
      assert OptionsHTML(kind, inputs) == OptionsHTML(kind, inputs[..n]) + OptionHTML(kind, x);
      Assoc(OptionsHTML(kind, inputs[..n]), OptionHTML(kind, x), post);
      Chain(Parser.OptionHits(OptionsHTML(kind, inputs[..n]) + (OptionHTML(kind, x) + post), k, qID),
            Parser.OptionHits(OptionHTML(kind, x) + post, k, qID), Parser.OptionHits(post, k, qID),
            Pairs(inputs[..n]), (x.value, x.caption), Pairs(inputs));
    }
  }

  predicate AllRecoverable(inputs: seq<OptionInput>, qID: string) {
    forall i :: 0 <= i < |inputs| ==> Recoverable(inputs[i]) && inputs[i].name == qID
  }

  lemma AllRecoverableSplit(inputs: seq<OptionInput>, qID: string)
    requires inputs != [] && AllRecoverable(inputs, qID)
    ensures AllRecoverable(inputs[..|inputs| - 1], qID)
    ensures Recoverable(inputs[|inputs| - 1]) && inputs[|inputs| - 1].name == qID
  {
  }

  lemma NoOptions(kind: QuestionType, qID: string, post: string)
    requires '>' !in qID
    ensures Parser.OptionHits(OptionsHTML(kind, []) + post, InputKind(kind), qID)
      == Pairs([]) + Parser.OptionHits(post, InputKind(kind), qID)
  {
    assert OptionsHTML(kind, []) + post == post;
    assert Pairs([]) == [];
  }

  lemma Assoc(a: string, b: string, c: string)
    ensures (a + b) + c == a + (b + c)
  {
  }

  /** Chaining the matches: those of the earlier inputs, then the last one's, then the rest. */
  lemma Chain(all: seq<(string, string)>, last: seq<(string, string)>, rest: seq<(string, string)>,
              before: seq<(string, string)>, x: (string, string), pairs: seq<(string, string)>)
    requires all == before + last && last == [x] + rest && pairs == before + [x]
    ensures all == pairs + rest
  {
  }

  lemma PairsSnoc(inputs: seq<OptionInput>)
    requires inputs != []
    ensures Pairs(inputs) == Pairs(inputs[..|inputs| - 1]) + [(inputs[|inputs| - 1].value, inputs[|inputs| - 1].caption)]
  {
    var n := |inputs| - 1;
    var a := Pairs(inputs);
    var b := Pairs(inputs[..n]) + [(inputs[n].value, inputs[n].caption)];
    forall i | 0 <= i < |a| ensures a[i] == b[i] {
      if i < n {
        assert inputs[..n][i] == inputs[i];
      }
    }
  }

  /** The pairs of a question's inputs are its escaped values and captions. */
  lemma PairsOfInputs(q: Question)
    ensures Pairs(OptionInputs(q))
      == seq(|q.options|, i requires 0 <= i < |q.options| => (HtmlEscape(q.options[i].value), HtmlEscape(q.options[i].caption)))
  {
    var a := Pairs(OptionInputs(q));
    var b := seq(|q.options|, i requires 0 <= i < |q.options| => (HtmlEscape(q.options[i].value), HtmlEscape(q.options[i].caption)));
    forall i | 0 <= i < |a| ensures a[i] == b[i] {
    }
  }

  /** The wrapper tag of an option group, without its `<`. */
  function GroupDiv(kind: QuestionType): string {
    if kind == Radio then "div class=\"options\">" else "div class=\"checkbox-group\">"
  }

  /** An option group, regrouped around the option inputs. */
  lemma GroupText(q: Question, post: string)
    requires q.qtype == Radio || q.qtype == Checkbox
    ensures OptionGroup(q) + post
      == Nl16 + ("<" + (GroupDiv(q.qtype) + (OptionsHTML(q.qtype, OptionInputs(q)) + (Nl16 + ("<" + ("/div>" + post))))))
  {
    RadioGroupTag();
    CheckboxGroupTag();
    CloseTag();
    GroupRegroup(Nl16, GroupDiv(q.qtype), OptionsHTML(q.qtype, OptionInputs(q)), post);
  }

  lemma GroupPlain(kind: QuestionType)
    ensures '<' !in Nl16 && '<' !in GroupDiv(kind) && GroupDiv(kind) != [] && GroupDiv(kind)[0] != 'i'
    ensures '<' !in "/div>" && "/div>"[0] != 'i'
  {
    var d := if kind == Radio then "div class=\"option\">" else "div class=\"checkbox-option\">";
    assert '<' !in d && d[0] == 'd';
    assert OptionDiv(kind) == d + Nl24;
  }

  // The group tags split after their `<`.

  lemma RadioGroupTag()
    ensures "<div class=\"options\">" == "<" + GroupDiv(Radio)
  {
  }

  lemma CheckboxGroupTag()
    ensures "<div class=\"checkbox-group\">" == "<" + GroupDiv(Checkbox)
  {
  }

  lemma CloseTag()
    ensures "</div>" == "<" + "/div>"
  {
  }

  lemma GroupRegroup(n: string, d: string, m: string, post: string)
    ensures n + ("<" + d) + m + n + ("<" + "/div>") + post == n + ("<" + (d + (m + (n + ("<" + ("/div>" + post))))))
  {
  }

  /** A positional option id holds no `"` or `>` when the question id holds none, and ends in a digit. */
  lemma PositionalIdPlain(qid: string, n: nat)
    requires '"' !in qid && '>' !in qid
    ensures var id := PositionalId(qid, n); '"' !in id && '>' !in id && id[|id| - 1] != '='
  {
    var d := NatToString(n);
    assert PositionalId(qid, n) == qid + "_" + d;
    assert forall c :: c in d ==> IsDigit(c);
  }

  /**
   * The inputs of a question the option pattern reads back: the question id
   * holds no `"` or `>`, and every option has a non-empty caption and a
   * value that does not end in `=`.
   */
  predicate ReadableOptions(q: Question) {
    '"' !in q.id && '>' !in q.id &&
    forall i :: 0 <= i < |q.options| ==>
      q.options[i].caption != "" && (q.options[i].value == "" || q.options[i].value[|q.options[i].value| - 1] != '=')
  }

  lemma InputsRecoverable(q: Question)
    requires ReadableOptions(q)
    ensures AllRecoverable(OptionInputs(q), q.id)
  {
    forall i | 0 <= i < |q.options| ensures Recoverable(OptionInputs(q)[i]) {
      var o := q.options[i];
      PositionalIdPlain(q.id, i + 1);
      HtmlEscapeNoMarkup(o.value);
      HtmlEscapeNoMarkup(o.caption);
      HtmlEscapeEnd(o.value);
      HtmlEscapeLength(o.caption);
      var e := HtmlEscape(o.value);
      var c := HtmlEscape(o.caption);
      assert '"' !in e && '>' !in e by {
        assert forall k :: 0 <= k < |e| ==> e[k] != '"' && e[k] != '>';
      }
      assert '<' !in c by {
        assert forall k :: 0 <= k < |c| ==> c[k] != '<';
      }
    }
  }

  /**
   * The option pattern, run over a question's option group and text with no
   * option input after it, finds the question's options in order, value and
   * caption HTML-escaped.
   */
  lemma GroupReadBack(q: Question, post: string)
    requires (q.qtype == Radio || q.qtype == Checkbox) && ReadableOptions(q)
    requires !Contains(post, Parser.InputOpen(InputKind(q.qtype)))
    ensures Parser.OptionHits(OptionGroup(q) + post, InputKind(q.qtype), q.id)
      == seq(|q.options|, i requires 0 <= i < |q.options| => (HtmlEscape(q.options[i].value), HtmlEscape(q.options[i].caption)))
  {
    var k := InputKind(q.qtype);
    var options := OptionsHTML(q.qtype, OptionInputs(q));
    var close := Nl16 + ("<" + ("/div>" + post));
    GroupText(q, post);
    GroupPlain(q.qtype);
    Parser.OptionHitsOverTag(Nl16, GroupDiv(q.qtype), options + close, k, q.id);
    InputsRecoverable(q);
    OptionsReadBack(q.qtype, OptionInputs(q), q.id, close);
    Parser.OptionHitsOverTag(Nl16, "/div>", post, k, q.id);
    Parser.OptionHitsNone(post, k, q.id);
    PairsOfInputs(q);
    assert Pairs(OptionInputs(q)) + [] == Pairs(OptionInputs(q));
  }

  /**
   * A radio question whose values and captions hold none of the characters
   * HTML escaping rewrites is read back by extractRadioOptions with exactly
   * its options; a checkbox question likewise by extractCheckboxOptions.
   */
  lemma OptionsRoundTrip(q: Question, post: string)
    requires (q.qtype == Radio || q.qtype == Checkbox) && ReadableOptions(q)
    requires !Contains(post, Parser.InputOpen(InputKind(q.qtype)))
    requires forall i :: 0 <= i < |q.options| ==> Unescaped(q.options[i].value) && Unescaped(q.options[i].caption)
    ensures q.qtype == Radio ==> Parser.RadioOptions(Parser.OptionHits(OptionGroup(q) + post, "radio", q.id)) == q.options
    ensures q.qtype == Checkbox ==>
      Parser.CheckboxOptions(Parser.OptionHits(OptionGroup(q) + post, "checkbox", q.id)) == q.options
  {
    GroupReadBack(q, post);
    forall i | 0 <= i < |q.options|
      ensures HtmlEscape(q.options[i].value) == q.options[i].value
      ensures HtmlEscape(q.options[i].caption) == q.options[i].caption
      ensures Parser.DecodeHTMLEntities(q.options[i].value) == q.options[i].value
    {
      HtmlEscapePlain(q.options[i].value);
      HtmlEscapePlain(q.options[i].caption);
      assert '&' !in q.options[i].value by {
        assert forall k :: 0 <= k < |q.options[i].value| ==> q.options[i].value[k] != '&';
      }
      Parser.DecodePlain(q.options[i].value);
    }
  }

  /** Text without any of the five characters HTML escaping rewrites. */
  predicate Unescaped(s: string) {
    forall i :: 0 <= i < |s| ==> s[i] !in {'<', '>', '&', '\'', '"'}
  }
}
