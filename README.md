# Survey chapter toolkit — a Dafny model

This project models the core of a content-migration toolkit for a survey
website. The site is a set of chapter pages ("capítulos" in Spanish,
"chapters" in English). Each page holds radio or checkbox questions, a
conversation prompt, an email field and a `window.surveyQuestions`
JavaScript object that names every question. The toolkit has two halves:

- **The chapter manager** (Go, `chapter-manager/`). It holds the chapter
  record and its language defaults (`Models`). It reads pages back into
  records (`Parser`) and writes a page from a record (`Generator`). Its
  editing operations (`Editor`) add, remove and renumber questions, and
  edit, add and remove options. The two editors are classes whose methods
  change their fields in place, as the Go code changes `*Chapter` and
  `*Question`.
- **The migration scripts** (Python, `scripts/`).
  - `ImportExcel` writes chapter pages from a Questions sheet and a UI
    Elements sheet.
  - `ExportExcel` reads pages back into those two sheets. The importer
    is proved to read the exported sheets back: each chapter other than
    0 gets its questions, without their empty options, and the UI texts
    of its last record. Chapter 0, which the exporter gives a file whose
    name has no `capitulo_<digit>`, is skipped by `if not row[0]`. A
    question whose id or text cell reads back as None raises on the
    page.
  - `FixDiscussions` replaces Spanish discussion prompts and escapes the
    quotes inside the `surveyQuestions` block.
  - `FixTranslations` replaces whole Spanish labels and values by English.
  - `TranslateChapters` rewrites option inputs, labels and conversation
    fields from a "cap N" sheet.
  - `GenerateEnglish` writes a minimal English page from a "cap N" sheet.
  - `GenerateEnglishV2` translates a Spanish page with the English lines
    of a sheet.

Helper modules hold what several files share: `Text` (the string
functions of Go and Python: trimming, search, replace-all, decimal
formatting and parsing, split and join, the escapes), `Rewrite` (the
`re.sub` scan), `Workbook` (sheets, the "cap N" sheet filter and folds
over rows), `Sorting` (an insertion sort by a comparison), `Survey` (the
positional option ids) and `Wrappers` (`Option`).

A state-changing loop of the source is a method with a loop. Each such
method is proved equal to a function that specifies it. The properties
the source promises are lemmas about those functions: round trips, what
is kept and what changes, ordering, idempotence, if-and-only-if
classifications. Regular expressions are modelled as the string
functions they compute, the parser's option pattern included. A sheet is a sequence of rows of cells, and an HTML tree the scripts query is given as the list of
elements they find.

## Model

| member | source | states |
|---|---|---|
| Models.LanguageCode | chapter-manager/models.go:4-9 | each of the two languages has a two-letter code ("es", "en") |
| Models.LanguageDefaults | chapter-manager/models.go:62-93 | the defaults carry the requested language, number 0, empty title, chapter name, question list and conversation label, no custom CSS/JS, the language's conversation title, and non-empty button, email and success texts |
| Models.LanguageWordsDistinct | chapter-manager/models.go:96-117 | English and Spanish differ in code, file prefix, chapter label and title suffix, and no file prefix contains `_`, so file names of the two languages never collide |
| Models.TypeNamesDistinct | chapter-manager/models.go:12-17 | the type names are pairwise distinct, so a question type is recovered from its name |
| Parser.ChapterLeTotalPreorder | chapter-manager/parser.go:33-39 | the language-then-number comparison handed to the sort is a total preorder |
| Parser.SortChapters | chapter-manager/parser.go:14-40 | the sorted list is a permutation of the parsed chapters; English ("en") chapters all precede Spanish ("es") ones; numbers never decrease within a language |
| Parser.ExtractChapterNumberShape | chapter-manager/parser.go:150-156 | the extracted text is either "" or a digit string D such that the name ends in `_D.html` |
| Parser.ExtractChapterNumberOf | chapter-manager/parser.go:150-156 | every name `<p>_D.html` with non-empty digits D yields exactly D |
| Parser.ParseChapterNumber | chapter-manager/parser.go:75-81 | the number is accepted exactly when Atoi accepts the extracted digits, and is then non-negative; otherwise it is the "invalid chapter number" error |
| Parser.ExtractBetweenTagsWithoutOpen | chapter-manager/parser.go:159-164 | a page without the opening tag yields "" |
| Parser.ExtractBetweenTagsWithoutClose | chapter-manager/parser.go:165-169 | no closing tag after the first opening tag yields "" |
| Parser.ExtractBetweenTagsExcludesClose | chapter-manager/parser.go:159-170 | the extracted text never contains the (non-empty) closing tag |
| Parser.ExtractBetweenTagsAt | chapter-manager/parser.go:159-170 | with the first opening tag at i and the first closing tag after it at j, the result is the trimmed text between them |
| Parser.EncodeIsCharwise | chapter-manager/parser.go:278-284 | the four replace-all passes, `&` first, equal the per-character map `&`→`&amp;`, `"`→`&quot;`, `<`→`&lt;`, `>`→`&gt;` |
| Parser.EncodedHasNoMarkup | chapter-manager/parser.go:278-284 | encoded text contains no raw `"`, `<` or `>` |
| Parser.DecodeEncode | chapter-manager/parser.go:269-284 | decoding undoes encoding for every text without `&` |
| Parser.DecodeEncodeFailsWithAmpersand | chapter-manager/parser.go:269-284 | the round trip fails on `&lt;`: it encodes to `&amp;lt;`, which decodes to `<` because `&amp;` is decoded before `&lt;` |
| Parser.ParentOfNumberedId | chapter-manager/parser.go:288-295 | the parent of `q<n>` is `q<n-1>` when n ≥ 2 and "" when n ≤ 1 |
| Parser.NoParentWithoutNumber | chapter-manager/parser.go:288-295 | an id with no number after its `q` has no parent |
| Parser.HiddenClassEnd | chapter-manager/parser.go:302-303 | a match of `class="[^"]*hidden[^"]*"` ends after the attribute name and inside the page |
| Parser.TagEnd | chapter-manager/parser.go:302-303 | `[^>]*` stops at the first `>` at or after its start, or at the end of the page |
| Parser.GeneratedSectionIsHidden | chapter-manager/parser.go:206-209 | the wrapper written around a conditional question is found both by the literal marker extractQuestions looks for and by the class-then-id pattern of detectConditionals |
| Parser.DetectConditionals | chapter-manager/parser.go:298-308 | every question whose section is marked hidden (id before class, or class before id) gets the parent findConditionalParent gives; every other question, and every other field, is unchanged |
| Parser.TitleDigits | chapter-manager/parser.go:186-193 | `^Q(\d+):` captures a non-empty digit string |
| Parser.TitleDigitsShape | chapter-manager/parser.go:186-193 | the captured digits are those of the title's `Q<digits>:` prefix |
| Parser.TitleDigitsOf | chapter-manager/parser.go:186-193 | a title `Q<digits>:<text>` yields those digits |
| Parser.TitleAt | chapter-manager/parser.go:177 | a match of the title regex captures text of the form `Q<digits>:` followed by at least one character, with no `<`, and the whole markup lies inside the page |
| Parser.TitleAtShape | chapter-manager/parser.go:177 | a match is the opening tag, the captured title and the closing `</div>` |
| Parser.TitleHits | chapter-manager/parser.go:177-178 | all matches lie in the page, at strictly increasing positions |
| Parser.TitleHitsMatch | chapter-manager/parser.go:177-178 | every hit found is a match of the title regex at its position |
| Parser.TitleHitsApart | chapter-manager/parser.go:177-178 | successive matches do not overlap: each starts after the previous one ends |
| Parser.ExtractQuestions | chapter-manager/parser.go:173-238 | one question per title match, in page order; each has id `q<digits>` from its title, the title itself, a type checked checkbox first, the options the option pattern finds in its section for that type and id (values entity-decoded for checkboxes), required exactly when the section mentions "required", and a parent only when the page holds its hidden-section marker |
| Parser.QuestionAt | chapter-manager/parser.go:180-234 | one pass of the extractQuestions loop builds the question of the i-th match as above |
| Parser.OptionHitsInput | chapter-manager/parser.go:243-244 | an option input written as `<input type="T" id="I" name="ID" value="V"R>`, white space, `<label for="I">C</label>` is one match of the option pattern for T and ID, capturing V and C exactly, and the scan goes on right after `</label>` |
| Parser.OptionAtInput | chapter-manager/parser.go:243 | at the head of such an input the pattern matches with V and C captured and the rest left over, when V and I hold no `"` or `>` and do not end in `=`, R holds no `"` or `>`, and C is non-empty without `<` |
| Parser.OptionHitsAt | chapter-manager/parser.go:244 | FindAllStringSubmatch: after a match the next match is searched in the text that follows it |
| Parser.OptionHitsStep | chapter-manager/parser.go:244 | where no input of the type opens, the search moves on by one character |
| Parser.OptionHitsFound | chapter-manager/parser.go:244 | a match that leaves `rest` over contributes its pair, then the matches in `rest` |
| Parser.OptionHitsSkip | chapter-manager/parser.go:244 | text without `<` in front of the rest adds no match |
| Parser.OptionHitsPass | chapter-manager/parser.go:244 | a character that opens no option input adds no match |
| Parser.OptionHitsOverTag | chapter-manager/parser.go:244 | text with one `<` that does not start `<i` adds no match |
| Parser.OptionHitsNone | chapter-manager/parser.go:243-244 | text that holds no `<input type="T"` has no matches |
| Parser.LastValueNone | chapter-manager/parser.go:243 | with no `value="` between the name attribute and the tag's `>`, the pattern does not match there |
| Parser.OptionAtSteps | chapter-manager/parser.go:243 | the pattern matches at an input opening once the first `name="ID"` ends before the tag's first `>` and a `value="` part after it matches |
| Parser.ReSpaceRunOf | chapter-manager/parser.go:243 | `\s*` takes exactly the white-space run before a non-space character |
| Parser.DecodePlain | chapter-manager/parser.go:269-275 | decodeHTMLEntities leaves text without `&` as it is |
| Parser.JoinPath | chapter-manager/parser.go:337-340 | the joined path ends in the file name |
| Parser.ChapterFilePathParsesBack | chapter-manager/parser.go:337-340 | the path written for chapter n yields the zero-padded digits of n back, and parses to n |
| Parser.GetNextChapterNumber | chapter-manager/parser.go:349-362 | when no file holds chapter MaxInt64, the result is at least 1, exceeds every parseable chapter number, and is 1 or one more than a number that occurs; when one does, the int64 sum wraps to MinInt64 |
| Parser.NextAfterLargest | chapter-manager/parser.go:354-361 | the max loop: without MaxInt64 among the numbers read, the result exceeds every one of them and is 1 or one more than one of them; with it, the result wraps to MinInt64 |
| Parser.MaxInt64FileNumber | chapter-manager/parser.go:349-361 | the file name of chapter MaxInt64 is read back as MaxInt64, so the wrap of the sum is reachable |
| Generator.OptionInputs | chapter-manager/generator.go:239-266 | one input per option, in list order |
| Generator.OptionInputsRules | chapter-manager/generator.go:239-266 | option i (from 1) has id `{q.ID}_{i}` and name q.ID, the ids are distinct, only the first option can be required, it is required exactly when the question is a required radio question, and checkbox options never are |
| Generator.GenerateQuestionHTML | chapter-manager/generator.go:217-276 | the builder output equals QuestionHTML: comment, the hidden conditional wrapper when ConditionalOn is set and a plain section otherwise, the escaped title, the option group of the question's type |
| Generator.WriteOptions | chapter-manager/generator.go:236-269 | the option loop writes OptionsHTML of OptionInputs, one option after the other in list order |
| Generator.HasCheckboxQuestions | chapter-manager/generator.go:347-355 | true exactly when some question is a checkbox question |
| Generator.HasConditionalQuestions | chapter-manager/generator.go:357-365 | true exactly when some question has a non-empty ConditionalOn |
| Generator.YesValue | chapter-manager/generator.go:297-301 | the revealing value is "Yes" exactly for English ("Si" otherwise) |
| Generator.Conditionals | chapter-manager/generator.go:289-292 | the dependent questions are at most all of them |
| Generator.ConditionalsSpec | chapter-manager/generator.go:289-292 | a question is kept exactly when it is in the chapter with ConditionalOn set; none is kept exactly when no question is conditional |
| Generator.HandlersIff | chapter-manager/generator.go:288-337 | handler text is emitted exactly when some question is conditional |
| Generator.GenerateConditionalJS | chapter-manager/generator.go:279-345 | the script is the opening, one handler per conditional question in order (parent, child and the language's yes value), and the closing |
| Generator.SurveyEntries | chapter-manager/generator.go:174-186 | one entry per question, in order, keyed by q.ID with the title's quotes escaped, followed by a conversation entry exactly when Conversation.Label is non-empty |
| Generator.WriteSurveyQuestions | chapter-manager/generator.go:174-186 | the comma placement of the loop yields the entries joined by commas: no trailing comma |
| Generator.SurveyEntriesEndInQuote | chapter-manager/generator.go:174-186 | the joined object is empty or ends with the last entry's closing quote, never with a comma |
| Generator.JoinEndsWithLast | chapter-manager/generator.go:174-186 | a comma-join ends with its last part |
| Generator.TextsEscaped | chapter-manager/generator.go:11-158 | every chapter text written into the page is HTML-escaped and so free of `<`, `>`, `"` and `'`; the success message alone is written raw |
| Generator.GenerateChapterHTML | chapter-manager/generator.go:11-214 | the page is ChapterPage of the chapter alone: head with the language code and escaped title, checkbox CSS iff some checkbox question, heading, the question sections in order, the fixed sections, the conditional script iff some conditional question, the survey object and the escaped chapter name |
| Generator.WritePage | chapter-manager/generator.go:11-214 | the same layout over any well-formed fixed markup |
| Generator.WriteQuestions | chapter-manager/generator.go:104-108 | the question loop writes each section after a line break, in order |
| Generator.WritePageBottom | chapter-manager/generator.go:110-211 | the part after the questions: fixed sections, the conditional script exactly when needed (with one extra line break otherwise), the questions object and the chapter name |
| Generator.QuestionsHTMLSplit | chapter-manager/generator.go:104-108 | the written sections split around the k-th question's own section |
| Generator.PageAroundQuestion | chapter-manager/generator.go:11-276 | the page splits around the comment, opening tag and title line of the k-th question |
| Generator.ConditionalSectionHidden | chapter-manager/generator.go:224-230 | in a generated page every conditional question's section is found hidden by both parser patterns, so the conditional link survives being written and parsed |
| Generator.EscapedTitle | chapter-manager/generator.go:233-234 | escaping a `Q<digits>:<text>` title keeps it acceptable to the parser's title pattern with the same digits |
| Generator.OptionReadBack | chapter-manager/generator.go:243-248 | the option pattern finds a written option input, with its value and caption as written, and goes on after the option's closing `</div>` |
| Generator.OptionsReadBack | chapter-manager/generator.go:237-251 | the options written one after the other are found one after the other, each with its value and caption |
| Generator.PositionalIdPlain | chapter-manager/generator.go:239 | the option id `{q.ID}_{i}` holds no `"` or `>` when the question id holds none, and ends in a digit |
| Generator.InputsRecoverable | chapter-manager/generator.go:239-266 | when the question id holds no `"` or `>` and every option has a non-empty caption and a value not ending in `=`, every written input is one the option pattern reads back |
| Generator.GroupReadBack | chapter-manager/generator.go:235-268 | the option pattern, run over a question's option group followed by text with no option input, finds the question's options in order, value and caption HTML-escaped |
| Generator.OptionsRoundTrip | chapter-manager/generator.go:235-268 | a radio question whose values and captions hold none of the five escaped characters is read back by extractRadioOptions with exactly its options; a checkbox question likewise by extractCheckboxOptions |
| Generator.TitleReadBack | chapter-manager/generator.go:233-234 | the title markup written is matched by the parser's title pattern and captures the escaped title |
| Generator.TitleInPage | chapter-manager/generator.go:233-234 | every `Q<digits>:<text>` question of a generated page is found by the parser under its escaped title |
| Editor.Selection | chapter-manager/main.go:470-476 | a menu choice selects a 0-based index below the item count, or nothing |
| Editor.SelectionOfNumber | chapter-manager/main.go:470-476 | typing the 1-based number of an item selects that item |
| Editor.SelectionRejectsText | chapter-manager/main.go:470-475 | input that does not start like a number selects nothing |
| Editor.ReadChapterNumber | chapter-manager/main.go:769-778 | the result is 0 or positive; it is positive exactly when the trimmed input parses to a positive number, and it is then that number |
| Editor.ReadChapterNumberOf | chapter-manager/main.go:769-778 | a positive number typed in decimal is read back |
| Editor.Truncate | chapter-manager/main.go:780-785 | text within the limit is returned unchanged; longer text becomes exactly maxLen characters ending in "...", after a prefix of the original |
| Editor.TruncateIdempotent | chapter-manager/main.go:780-785 | the result never exceeds the limit, and truncating again changes nothing |
| Editor.ColonAfterNumber | chapter-manager/main.go:787-798 | in `Q<n>:…` the first ':' is the one right after the number |
| Editor.ReplaceQuestionPrefixOf | chapter-manager/main.go:787-798 | `Q<d><rest>` with rest starting at ':' becomes `Q<n><rest>` |
| Editor.ReplaceQuestionPrefixSpec | chapter-manager/main.go:787-798 | a title without a 'Q' start or without ':' is unchanged; otherwise everything from the first ':' is kept, the prefix becomes `Q<n>`, and the parser reads n back from it |
| Editor.ReplaceQuestionPrefixTwice | chapter-manager/main.go:787-798 | renumbering a title twice equals renumbering it once, to the last number |
| Editor.QId | chapter-manager/main.go:483 | `q<n>` is 'q' followed by the decimal digits of n |
| Editor.QIdInjective | chapter-manager/main.go:483 | distinct numbers give distinct ids |
| Editor.Ids | chapter-manager/main.go:484 | the ids of the questions, one per question, in order |
| Editor.RetargetedAbsent | chapter-manager/main.go:488-492 | a reference equal to none of the old ids is never changed by the renumbering steps |
| Editor.RetargetedHit | chapter-manager/main.go:488-492 | a reference to the t-th old id becomes `q<t+1>` when no earlier old id equals it and no later one equals `q<t+1>` |
| Editor.Without | chapter-manager/main.go:479 | the slice splice removes exactly the r-th question and keeps the others in order |
| Editor.RemoveAndRenumberShape | chapter-manager/main.go:478-496 | one question fewer; survivors keep their order, type, options and required flag; ids are `q1..qn` by position; each title's prefix becomes `Q<position>` |
| Editor.SurvivorIds | chapter-manager/main.go:478-484 | with ids `q1..qn`, the survivors' old ids are those numbers with the removed one missing |
| Editor.RetargetedAroundGap | chapter-manager/main.go:482-492 | after the first i steps a reference `q<m>` has become its question's new id once that question's step has run, and a reference to the removed `q<r+1>` is never touched |
| Editor.RemoveRetargetsSurvivor | chapter-manager/main.go:482-492 | when ids were `q1..qn`, a ConditionalOn that named a surviving question names that question's new id |
| Editor.RemoveKeepsReferenceToRemoved | chapter-manager/main.go:482-492 | a reference to the removed question is left as it was, so it now names the question that moved into the removed one's place |
| Editor.RemoveKeepsOtherReferences | chapter-manager/main.go:488-492 | a reference to no surviving id is kept |
| Editor.EntryCount | chapter-manager/main.go:445-453 | the number of lines before the first blank one is at most the number of lines |
| Editor.EnteredOptionsSpec | chapter-manager/main.go:444-453 | one option per line before the first blank line, in the order typed, each with the trimmed line as value and label; the loop stops at the first blank line |
| Editor.NewQuestionSpec | chapter-manager/main.go:417-440 | the new n-th question has id `q<n>`, is required and unconditional, and its title `Q<n>: …` reads back as number n and is already numbered n |
| Editor.AddKeepsIdsInOrder | chapter-manager/main.go:416-457 | appending the next question keeps the ids `q1..qn` |
| Editor.ToggledType | chapter-manager/main.go:338-342 | the toggle always yields radio or checkbox, and a type different from the old one |
| Editor.ToggleTwice | chapter-manager/main.go:338-342 | toggling a radio or checkbox question twice restores its type |
| Editor.QuestionEditor.constructor | chapter-manager/main.go:303 | the editor holds the selected question |
| Editor.QuestionEditor.EditOption | chapter-manager/main.go:364-384 | an invalid choice, or an empty new label, leaves the question unchanged; otherwise the chosen option's label and value both become the new label and nothing else changes |
| Editor.QuestionEditor.AddOption | chapter-manager/main.go:386-395 | a blank label adds nothing; otherwise exactly one option with the trimmed label as value and label is appended |
| Editor.QuestionEditor.RemoveOption | chapter-manager/main.go:397-414 | an invalid choice leaves the options unchanged; otherwise exactly the chosen option is removed |
| Editor.QuestionEditor.ToggleType | chapter-manager/main.go:337-343 | only the type changes, radio to checkbox and anything else to radio |
| Editor.RemovedOptionKeepsOthers | chapter-manager/main.go:412 | removal keeps every other option, in order |
| Editor.ChapterEditor.constructor | chapter-manager/main.go:416 | the editor holds the chapter being edited |
| Editor.ChapterEditor.AddQuestion | chapter-manager/main.go:416-457 | a blank title changes nothing; otherwise exactly one question is appended, numbered one past the old count, with the chosen type and the typed options |
| Editor.ChapterEditor.RemoveQuestion | chapter-manager/main.go:459-499 | an empty chapter or an invalid choice changes nothing; a valid choice leaves the renumbered survivors and changes no other field |
| Editor.ReadOptions | chapter-manager/main.go:444-453 | the option loop reads the options typed before the first blank line |
| Editor.Renumber | chapter-manager/main.go:482-496 | after the loop each question has id `q<position>`, a renumbered title prefix and its references rewritten by all steps |
| Editor.RenumberStepAt | chapter-manager/main.go:482-496 | one pass of the outer loop advances every question by one renaming, one reference step and one retitling |
| Editor.Retarget | chapter-manager/main.go:488-492 | every reference equal to the old id becomes the new id; nothing else changes |
| ImportExcel.PyInt | scripts/import_from_excel.py:148 | int() accepts only text that is non-empty once stripped |
| ImportExcel.PyIntSkipsUnderscore | scripts/import_from_excel.py:148 | digits with one underscore between them, as in "1_000", are read as the digits alone |
| ImportExcel.PyIntOfNat | scripts/import_from_excel.py:148 | the decimal text of a number is read back as that number |
| ImportExcel.OrEmpty | scripts/import_from_excel.py:173-182 | `cell or ''` is the cell itself or the empty text |
| ImportExcel.ReadablePrefix | scripts/import_from_excel.py:144-148 | once a read row has a chapter cell int() rejects, the whole sheet fails to load |
| ImportExcel.ReadableStep | scripts/import_from_excel.py:144-148 | one more row keeps the sheet loadable exactly when that row is skipped or has a numeric chapter cell |
| ImportExcel.NonEmpty | scripts/import_from_excel.py:151 | filtering keeps at most the cells it is given |
| ImportExcel.NonEmptyAppend | scripts/import_from_excel.py:151 | the filter splits over concatenation, so cells keep their column order |
| ImportExcel.NonEmptyOne | scripts/import_from_excel.py:151 | a single cell is kept exactly when it is true: not empty, not 0 and not '' |
| ImportExcel.NonEmptyCells | scripts/import_from_excel.py:151 | no kept option is empty, 0 or '' |
| ImportExcel.QuestionsOfAppend | scripts/import_from_excel.py:153-160 | a chapter's questions over two stretches of rows are those of the first followed by those of the second: row order is kept |
| ImportExcel.QuestionsOfOne | scripts/import_from_excel.py:145-160 | a row contributes its question to its own chapter only, and a skipped row to none |
| ImportExcel.ChaptersIff | scripts/import_from_excel.py:153-160 | a chapter is present exactly when some row contributes a question to it |
| ImportExcel.GroupedStep | scripts/import_from_excel.py:153-160 | one more row appends its question to its chapter's list (creating it and its key on first use) |
| ImportExcel.GroupedSpec | scripts/import_from_excel.py:153-160 | the dict's keys are exactly the chapters that occur, and each maps to its questions in row order |
| ImportExcel.ChapterOrderSpec | scripts/import_from_excel.py:153-154 | the key order lists every chapter that occurs exactly once |
| ImportExcel.LoadedQuestionsSpec | scripts/import_from_excel.py:140-160 | the loaded dict lists each chapter once and maps it to its questions in row order |
| ImportExcel.LoadQuestions | scripts/import_from_excel.py:140-160 | rows whose first cell is empty, 0 or '' are skipped; the loop fails exactly when another row's chapter cell is a text int() rejects, and otherwise builds the grouped dict of the id, text and option cells as loaded |
| ImportExcel.AddQuestion | scripts/import_from_excel.py:153-160 | the question is appended to its chapter's list, created with its key on first use; keys and map stay in step |
| ImportExcel.UiOfAppend | scripts/import_from_excel.py:171-182 | a later UI row for a chapter replaces an earlier one |
| ImportExcel.UiOfChapters | scripts/import_from_excel.py:166-182 | a chapter has UI texts exactly when some UI row belongs to it |
| ImportExcel.LatestStep | scripts/import_from_excel.py:171-182 | one more UI row overwrites its chapter's entry |
| ImportExcel.LatestSpec | scripts/import_from_excel.py:166-182 | the UI map holds, for each chapter that occurs, the texts of its last row, a false cell as '' |
| ImportExcel.LoadUi | scripts/import_from_excel.py:162-182 | rows whose first cell is empty, 0 or '' are skipped; the loop fails exactly on a chapter text int() rejects and otherwise builds the last-row-wins map |
| ImportExcel.LoadExcelData | scripts/import_from_excel.py:136-184 | both sheets load exactly when both are readable, giving the grouped questions and the UI map |
| ImportExcel.SheetOptionInputs | scripts/import_from_excel.py:193-202 | one input per option |
| ImportExcel.SheetOptionRules | scripts/import_from_excel.py:130-133 | option n (from 1) has id `{q_id}_{n}`, name q_id and the option text as value and label; ids are distinct and only the first is required |
| ImportExcel.OptionHTMLs | scripts/import_from_excel.py:193-202 | one option fragment per option |
| ImportExcel.QuestionSections | scripts/import_from_excel.py:191-209 | one section per question |
| ImportExcel.WriteOptionLines | scripts/import_from_excel.py:193-202 | the inner loop collects the option fragments in order |
| ImportExcel.GenerateQuestionHtml | scripts/import_from_excel.py:187-211 | the sections of the questions, in order, concatenated |
| ImportExcel.JsEntries | scripts/import_from_excel.py:214-226 | one entry per question plus one more |
| ImportExcel.JsEntriesShape | scripts/import_from_excel.py:214-226 | the entries list the questions in order, the last is the single conversation entry, and the joined text ends with it |
| ImportExcel.JsEntryReadBack | scripts/import_from_excel.py:219-224 | every quote in an entry's value is escaped, and removing the escapes gives the text back |
| ImportExcel.GenerateJsQuestions | scripts/import_from_excel.py:214-226 | the entries joined with ",\n" |
| ImportExcel.WithPrefix | scripts/import_from_excel.py:282-284 | the prefix given replaces only the prefix of a copy; the language, CSS and JS settings are kept |
| ImportExcel.LangConfigAgrees | scripts/import_from_excel.py:22-35 | the importer's prefixes and language codes are the chapter manager's |
| ImportExcel.ConversationTitle | scripts/import_from_excel.py:235 | "Conversen:" exactly for "es", "Discuss:" otherwise |
| ImportExcel.ChapterName | scripts/import_from_excel.py:238-241 | "Capítulo N" for "es", "Chapter N" otherwise |
| ImportExcel.PageFields | scripts/import_from_excel.py:243-261 | the seventeen template fields, one per gap of the template |
| ImportExcel.GenerateChapterHtml | scripts/import_from_excel.py:229-263 | the page is the template filled with the language settings, the UI texts, the question sections and the joined JS entries |
| ImportExcel.ChapterPageSections | scripts/import_from_excel.py:49-261 | the page holds the JS entries between the surveyQuestions opening and closing, and the question sections inside the form |
| ImportExcel.FileNameAgrees | scripts/import_from_excel.py:304 | with the language's own prefix, `{prefix}_{NN}.html` is the chapter manager's file name and parses back to the chapter number |
| ImportExcel.SortedStrictly | scripts/import_from_excel.py:296 | sorting distinct chapter numbers gives a strictly ascending list |
| ImportExcel.SortedChapters | scripts/import_from_excel.py:296 | sorted() of the keys is strictly ascending and holds exactly the dict's chapters |
| ImportExcel.PageQuestion | scripts/import_from_excel.py:205-219 | a question reaches the page exactly when its id and text cells are texts (`.upper()` and `.replace()` raise on None and on numbers), with the same id and text and each option written with str() |
| ImportExcel.PageQuestionsSpec | scripts/import_from_excel.py:191-209 | the questions reach the page exactly when every one does, each in its place |
| ImportExcel.PageUi | scripts/import_from_excel.py:223 | the UI texts reach the page exactly when the conversation label is a text, which is kept; the title is written with str() |
| ImportExcel.ChapterOutcomeSpec | scripts/import_from_excel.py:296-316 | a chapter is skipped exactly when it has no UI texts; its page raises exactly when the label or some question does not reach the page; a written file carries its chapter and `{prefix}_{NN}.html` |
| ImportExcel.OutcomeNumbered | scripts/import_from_excel.py:304 | the file written for chapter c is chapter c's |
| ImportExcel.RunsValid | scripts/import_from_excel.py:296-316 | each file written is the one its chapter's step writes, for a chapter of the loop |
| ImportExcel.RunsAscending | scripts/import_from_excel.py:296 | over ascending keys the files come in ascending chapter order, none past the last key |
| ImportExcel.StepInOrder | scripts/import_from_excel.py:296 | one loop pass keeps the files in ascending order |
| ImportExcel.RunsCover | scripts/import_from_excel.py:296-316 | without an exception every key whose page is written gets a file |
| ImportExcel.RunsFailed | scripts/import_from_excel.py:296-316 | the loop ends in an exception exactly when the page of some key raises |
| ImportExcel.RunsStop | scripts/import_from_excel.py:296-316 | over ascending keys no file is written for a chapter at or past one whose page raises |
| ImportExcel.RunsFailedStays | scripts/import_from_excel.py:296-316 | once an exception has ended the loop, later keys change nothing |
| ImportExcel.RunsStep | scripts/import_from_excel.py:296-316 | the loop over one more key: skip, stop or append that key's file |
| ImportExcel.WriteChapterFile | scripts/import_from_excel.py:301-316 | the file of one chapter, its name and its page, or nothing exactly when generating the page raises |
| ImportExcel.ImportChapters | scripts/import_from_excel.py:296-316 | the files are those of the loop over the sorted chapters: each the page of its chapter, in strictly ascending chapter order; the program stops exactly when some chapter's page raises, and otherwise every chapter with UI texts gets its file |
| ImportExcel.SortedCover | scripts/import_from_excel.py:296 | some sorted key's page raises exactly when some chapter's does, and every chapter whose page is written is among the keys |
| ExportExcel.SearchNumberNone | scripts/export_to_excel.py:27-28 | the search fails exactly when no `capitulo_<digit>` starts at or after the position |
| ExportExcel.SearchNumberFound | scripts/export_to_excel.py:27-28 | a successful search finds the leftmost match and reads its whole digit run |
| ExportExcel.ChapterNumberAbsent | scripts/export_to_excel.py:27-28 | a name without `capitulo_<digit>` gets chapter 0 |
| ExportExcel.ChapterNumberOfDigits | scripts/export_to_excel.py:27-28 | `capitulo_` followed by digits yields the number those digits spell |
| ExportExcel.ChapterNumberOfFileName | scripts/export_to_excel.py:27-28 | the file the chapter manager writes for Spanish chapter n is read back as chapter n |
| ExportExcel.CollectLabels | scripts/export_to_excel.py:70-73 | the option texts of the options that have a label, in document order |
| ExportExcel.ReadSection | scripts/export_to_excel.py:58-103 | one section: skipped without a title; a 'Q' title adds a question; else a 'Convers' title sets the conversation fields that are present; else a 'Correo'/'Email' title sets the email label and any placeholder |
| ExportExcel.ExtractChapterData | scripts/export_to_excel.py:20-124 | the record equals Extracted: defaults, then the title and h1, the sections in order, then the buttons, success message and summary title |
| ExportExcel.QuestionsInSnoc | scripts/export_to_excel.py:57-83 | the questions of the sections split over concatenation |
| ExportExcel.AbsorbAllFrame | scripts/export_to_excel.py:57-103 | the section loop only appends questions and sets conversation and email fields; the number, name, title, instruction and button texts are untouched, and the questions read are those of the question sections, in order |
| ExportExcel.AbsorbAllNoConversation | scripts/export_to_excel.py:86-94 | without a conversation section the conversation fields are kept |
| ExportExcel.AbsorbAllNoEmail | scripts/export_to_excel.py:97-103 | without an email section the email fields are kept |
| ExportExcel.AbsorbAllLastEmail | scripts/export_to_excel.py:97-103 | the email label is the title of the last email section |
| ExportExcel.ExtractedFields | scripts/export_to_excel.py:25-124 | the number comes from the file name, every element text is '' when the element is missing, and the questions are those of the question sections in order |
| ExportExcel.ExtractedWithout | scripts/export_to_excel.py:30-103 | a page without a conversation (email) section exports empty conversation (email) texts |
| ExportExcel.QuestionsInTitles | scripts/export_to_excel.py:66 | every question read has a title starting with 'Q' |
| ExportExcel.MaxOptionsBound | scripts/export_to_excel.py:147-151 | no question has more options than max_options |
| ExportExcel.MaxOptionsReached | scripts/export_to_excel.py:147-151 | a positive max_options is the option count of some question |
| ExportExcel.ComputeMaxOptions | scripts/export_to_excel.py:147-151 | the nested loop computes the largest option count, 0 when there are no questions |
| ExportExcel.ByChapterOrder | scripts/export_to_excel.py:164-207 | the chapters are written in ascending chapter order, each as often as given |
| ExportExcel.UiRow | scripts/export_to_excel.py:208-220 | a UI row has one value per UI header column |
| ExportExcel.WriteQuestionRow | scripts/export_to_excel.py:166-178 | a question's row: chapter, id, text, then option k in column 4 + k and empty cells up to the sheet width |
| ExportExcel.WriteChapterRows | scripts/export_to_excel.py:166-178 | one row per question of the chapter, in order |
| ExportExcel.CreateQuestionsSheet | scripts/export_to_excel.py:143-178 | the header Chapter, Question ID, Question Text, Option 1..max_options in row 1, then the questions in chapter order from row 2 |
| ExportExcel.CreateUiSheet | scripts/export_to_excel.py:192-225 | the UI header, then one row per chapter in chapter order |
| ExportExcel.CreateExcel | scripts/export_to_excel.py:127-237 | both sheets' contents |
| ExportExcel.ExportChapters | scripts/export_to_excel.py:240-259 | nothing is exported without chapter files; otherwise both sheets are built from every file's record |
| ExportExcel.QuestionRowReadBack | scripts/export_to_excel.py:166-178 | the importer reads an exported question row back as its chapter, skipping it exactly when that is 0, and as its question: the id and text cells (empty when the text is empty) and the non-empty options |
| ExportExcel.NonEmptyTexts | scripts/import_from_excel.py:151 | of texts stored one per cell, the importer keeps exactly the non-empty ones, in order |
| ExportExcel.NonBlank | scripts/import_from_excel.py:151 | no text kept is empty |
| ExportExcel.ReimportedOnPage | scripts/import_from_excel.py:205 | a reloaded question reaches the page exactly when its id and text are not empty (an empty id, given to a question without inputs, comes back as None and raises), and then it is the question itself without its empty options |
| ExportExcel.ReadableSnoc | scripts/import_from_excel.py:144-148 | a loadable sheet stays loadable with one more row that is skipped or has a numeric chapter cell |
| ExportExcel.ReadableAppend | scripts/import_from_excel.py:144-148 | two loadable sequences of rows are loadable one after the other |
| ExportExcel.RowsReadBack | scripts/export_to_excel.py:166-178 | the rows of one chapter are readable and give its questions back in order, none for chapter 0 |
| ExportExcel.QuestionRowsReadBack | scripts/export_to_excel.py:163-178 | the data rows of all chapters are readable and give each chapter other than 0 its questions back in order |
| ExportExcel.QuestionsSheetReadBack | scripts/export_to_excel.py:163-178 | the importer can read every exported Questions row, and gets each chapter's questions back in sheet order, with their empty options dropped; chapter 0, the number of a file whose name has no `capitulo_<digit>`, is skipped |
| ExportExcel.UiRowReadBack | scripts/export_to_excel.py:206-225 | the importer reads an exported UI row back as its chapter, skipping it exactly when that is 0, and its ten texts reach the page unchanged |
| ExportExcel.StoredBack | scripts/import_from_excel.py:173-182 | a text stored in a cell and read with `or ''` is that text again, the empty text included |
| ExportExcel.LastUiOnPage | scripts/export_to_excel.py:206-225 | the loaded UI texts of a chapter exist exactly when it has a record, and reach the page as the texts of its last record |
| ExportExcel.UiRowsReadBack | scripts/export_to_excel.py:206-225 | the UI rows are readable and give each chapter other than 0 the texts of its last record |
| ExportExcel.UiSheetReadBack | scripts/export_to_excel.py:192-225 | the importer can read every exported UI row, and gets for each chapter other than 0 the texts of its last record in chapter order |
| ExportExcel.TotalQuestionsSorted | scripts/export_to_excel.py:164 | sorting the records keeps the number of questions |
| ExportExcel.QuestionRowsShape | scripts/export_to_excel.py:163-178 | one row per question, each 3 + width cells wide, when no question has more options than the width |
| ExportExcel.QuestionsSheetShape | scripts/export_to_excel.py:143-178 | the Questions sheet has the header plus one row per question, all 3 + max_options cells wide |
| FixDiscussions.TranslatedAbsent | scripts/fix_discussions.py:131-132 | a text holding none of the Spanish phrases comes through the replacement pass unchanged |
| FixDiscussions.TranslatedIdentity | scripts/fix_discussions.py:131-132 | pairs that map a phrase to itself change nothing |
| FixDiscussions.ApplyTranslations | scripts/fix_discussions.py:131-132 | the loop replaces every occurrence of each Spanish phrase by its English text, pair after pair in table order |
| FixDiscussions.CandidateStep | scripts/fix_discussions.py:167-171 | a line is inside the block when it holds `window.surveyQuestions`, or the line before was inside and this one is not `};` once stripped |
| FixDiscussions.InBlockAfterIff | scripts/fix_discussions.py:165-171 | the in-block flag after line i is set exactly when some earlier or equal line opened the block and no line since closed it |
| FixDiscussions.KeyLengthOf | scripts/fix_discussions.py:175 | a `q<digits>` or `conversation<digits>` key followed by a colon is read whole |
| FixDiscussions.KeyLengthParts | scripts/fix_discussions.py:175 | what the key reader takes is a key of that form |
| FixDiscussions.QuotedValueParts | scripts/fix_discussions.py:175 | `"(.+)"(,?)$` takes a non-empty value up to the last quote and then nothing or one comma |
| FixDiscussions.QuotedValueOf | scripts/fix_discussions.py:175 | every such value and comma is matched back |
| FixDiscussions.MatchValueParts | scripts/fix_discussions.py:175 | after the colon: blank space, then the quoted value and the comma |
| FixDiscussions.MatchValueOf | scripts/fix_discussions.py:175 | every blank gap, quoted value and comma is matched back |
| FixDiscussions.MatchKeyedParts | scripts/fix_discussions.py:175 | after the indent: a key, a colon, then the value part |
| FixDiscussions.MatchKeyedOf | scripts/fix_discussions.py:175 | every key, colon and value part is matched back |
| FixDiscussions.LeadingSpace | scripts/fix_discussions.py:175 | the indent group is all whitespace |
| FixDiscussions.MatchLineParts | scripts/fix_discussions.py:175-180 | a matched line is indent, key, colon, blank gap, quoted non-empty value and an optional comma |
| FixDiscussions.MatchLineOf | scripts/fix_discussions.py:175-180 | every line of that shape matches, with exactly those groups |
| FixDiscussions.ShapeContains | scripts/fix_discussions.py:173 | a key line holds a colon and a quote, so the pre-test lets it through |
| FixDiscussions.QuoteCountIsUnescaped | scripts/fix_discussions.py:183 | `value.count('"') - value.count('\\"')` is the number of quotes not preceded by a backslash |
| FixDiscussions.EscapeNoop | scripts/fix_discussions.py:187 | `re.sub(r'(?<!\\)"', ...)` changes nothing when no quote is unescaped |
| FixDiscussions.EscapeLength | scripts/fix_discussions.py:187 | the substitution adds exactly one backslash per unescaped quote |
| FixDiscussions.EscapeChars | scripts/fix_discussions.py:187 | the substitution brings in no character but the backslash |
| FixDiscussions.EscapeEscapes | scripts/fix_discussions.py:187 | after the substitution every quote is preceded by a backslash |
| FixDiscussions.EscapeFixesEscaped | scripts/fix_discussions.py:187 | a text whose quotes are all escaped is left alone |
| FixDiscussions.EscapeIdempotent | scripts/fix_discussions.py:187 | escaping twice is escaping once |
| FixDiscussions.EscapeAppend | scripts/fix_discussions.py:187 | escaping a concatenation escapes each part, the second knowing whether the first ends in a backslash |
| FixDiscussions.EscapeAtQuote | scripts/fix_discussions.py:187 | a quote gains a backslash exactly when the character before it is not one |
| FixDiscussions.EscapeQuoteHead | scripts/fix_discussions.py:187 | a leading quote gains a backslash exactly when a backslash does not precede it |
| FixDiscussions.FixedValueEscaped | scripts/fix_discussions.py:182-187 | the test on the quote count changes nothing: the value always ends up escaped |
| FixDiscussions.RewriteKeepsParts | scripts/fix_discussions.py:175-189 | the rewritten line keeps indent, key and comma, puts one space after the colon and escapes the value |
| FixDiscussions.FixLineNoNewline | scripts/fix_discussions.py:173-189 | rewriting a line puts no newline into it |
| FixDiscussions.FixLineIdempotent | scripts/fix_discussions.py:173-189 | rewriting an already rewritten line changes nothing |
| FixDiscussions.ScannedSpec | scripts/fix_discussions.py:163-191 | the scan keeps the number of lines and treats each line with the block state after it |
| FixDiscussions.ScannedStep | scripts/fix_discussions.py:167-191 | one more line updates the flag by the open/close rule and appends that line's result |
| FixDiscussions.FixedLinesSpec | scripts/fix_discussions.py:163-191 | the fixed lines are as many as the lines, each fixed with the flag after it |
| FixDiscussions.FixedLineAt | scripts/fix_discussions.py:167-191 | line i is rewritten when it is inside the block and kept otherwise |
| FixDiscussions.FixedLinesNoNewlines | scripts/fix_discussions.py:163-191 | the fixed lines hold no newline |
| FixDiscussions.TranslatedLines | scripts/fix_discussions.py:163 | the lines of the translated text hold no newline |
| FixDiscussions.FixedContentLines | scripts/fix_discussions.py:163-193 | splitting the joined result gives back the fixed lines, as many as the translated text had |
| FixDiscussions.FixedContentOutsideBlock | scripts/fix_discussions.py:163-193 | without a line inside the block the result is the translated text |
| FixDiscussions.RewriteLine | scripts/fix_discussions.py:173-189 | the body of the line loop computes the line's rewrite |
| FixDiscussions.ScanLines | scripts/fix_discussions.py:163-191 | the loop with its flag computes the fixed lines |
| FixDiscussions.FixChapterFile | scripts/fix_discussions.py:123-199 | the fixed text is the joined fixed lines of the translated text, and it is written back exactly when it differs from the original |
| FixDiscussions.FixDiscussionFile | scripts/fix_discussions.py:10-199 | the same with the table of discussion prompts |
| FixTranslations.OptionsOfAppend | scripts/fix_all_translations.py:27-37 | the options of a sheet keep the order of its rows |
| FixTranslations.OptionsOfIn | scripts/fix_all_translations.py:27-37 | a text is an option of a sheet exactly when some row's first cell yields it |
| FixTranslations.BulletOption | scripts/fix_all_translations.py:32-33 | a bullet, a space and a trimmed answer read back as that answer |
| FixTranslations.LetterOption | scripts/fix_all_translations.py:34-35 | a letter prefix "A. " to "D. " and a trimmed answer read back as that answer |
| FixTranslations.ListedWordKept | scripts/fix_all_translations.py:36-37 | a listed answer such as Yes or Very much is kept as written |
| FixTranslations.ExtractOptions | scripts/fix_all_translations.py:26-37 | the row loop collects the options of the sheet's rows in row order |
| FixTranslations.MappingKeys | scripts/fix_all_translations.py:17-39 | a chapter is in the mapping exactly when some sheet is named `cap <digits>` for it |
| FixTranslations.MappingLastWins | scripts/fix_all_translations.py:39 | of several sheets for one chapter, the last one gives its options |
| FixTranslations.ExtractOptionsMapping | scripts/fix_all_translations.py:12-41 | the sheet loop builds that mapping |
| FixTranslations.OnlyChapter22 | scripts/fix_all_translations.py:151-154 | the chapter-22 table makes no difference to any other chapter, whose page sees only the common table |
| FixTranslations.CommonStepClean | scripts/fix_all_translations.py:142-148 | a common pass changes nothing when its source is not a whole label or value of the page |
| FixTranslations.PairStepClean | scripts/fix_all_translations.py:152-154 | a chapter-22 pass changes nothing when its source is not a whole label or value of the page |
| FixTranslations.WithCommonClean | scripts/fix_all_translations.py:142-148 | a page with no source of the table as a whole label or value goes through the table unchanged |
| FixTranslations.WithPairsClean | scripts/fix_all_translations.py:152-154 | the same for the chapter-22 table |
| FixTranslations.LabelsApart | scripts/fix_all_translations.py:144 | the labels `>s<` of two different plain texts cannot overlap |
| FixTranslations.ValueShift | scripts/fix_all_translations.py:146 | a `value="…"` laid past the start of another misses it |
| FixTranslations.ValuesApart | scripts/fix_all_translations.py:146 | the values of two different plain texts cannot overlap |
| FixTranslations.LabelValueApart | scripts/fix_all_translations.py:144-146 | a label and a value cannot overlap |
| FixTranslations.PlainApart | scripts/fix_all_translations.py:144-146 | no label or value of one plain text overlaps those of another |
| FixTranslations.PassKeeps | scripts/fix_all_translations.py:144-148 | one replacement whose target cannot overlap a word's label or value does not create them |
| FixTranslations.CommonStepKeeps | scripts/fix_all_translations.py:142-148 | a common pass creates no label or value of a word other than its target |
| FixTranslations.PairStepKeeps | scripts/fix_all_translations.py:152-154 | a chapter-22 pass creates no label or value of a word other than its target |
| FixTranslations.CommonStepRemoves | scripts/fix_all_translations.py:142-148 | after its common pass a pair that changes something leaves no whole label or value of its source |
| FixTranslations.PairStepRemoves | scripts/fix_all_translations.py:152-154 | the same for a chapter-22 pass |
| FixTranslations.NotInside | scripts/fix_all_translations.py:144-148 | a text that cannot be laid over another at any offset does not occur in it |
| FixTranslations.OtherPhraseKept | scripts/fix_all_translations.py:144-154 | the label or value of a different plain phrase, even one holding the source, is left alone |
| FixTranslations.WholePhraseReplaced | scripts/fix_all_translations.py:144-154 | a whole label or value of the source becomes the label or value of its English text |
| FixTranslations.WithCommonCleans | scripts/fix_all_translations.py:142-148 | after the common table no source of a changing pair is left as a whole label or value |
| FixTranslations.WithPairsCleans | scripts/fix_all_translations.py:152-154 | after the chapter-22 table no source of a changing pair of it is left |
| FixTranslations.WithPairsKeeps | scripts/fix_all_translations.py:150-154 | the chapter-22 table does not bring back what the common table removed |
| FixTranslations.FixedIdempotent | scripts/fix_all_translations.py:134-160 | running the fixer on its own output changes nothing, for tables whose texts are plain and whose targets are no changing source |
| FixTranslations.FixWith | scripts/fix_all_translations.py:139-160 | the two loops compute the fixed page, written back exactly when it differs from the original |
| FixTranslations.FixChapterFile | scripts/fix_all_translations.py:45-160 | the same with the common and chapter-22 tables |
| TranslateChapters.RunAppend | scripts/translate_all_chapters.py:22-69 | reading rows a then rows b is reading a + b |
| TranslateChapters.StepSound | scripts/translate_all_chapters.py:51-69 | one row keeps every kept question a question line with an option, and the open one a question line |
| TranslateChapters.RunSound | scripts/translate_all_chapters.py:22-69 | the row loop keeps that invariant |
| TranslateChapters.ExtractedSound | scripts/translate_all_chapters.py:51-73 | every question read from a sheet ends in '?' or ':' and has at least one option |
| TranslateChapters.RunKeepsQuestions | scripts/translate_all_chapters.py:51-55 | questions are only ever appended after the ones already kept |
| TranslateChapters.DiscussionSticky | scripts/translate_all_chapters.py:40-48 | once a discussion has begun it never ends: no question or option is read any more and prompts are only added |
| TranslateChapters.NoDiscussionNoPrompts | scripts/translate_all_chapters.py:40-48 | without a line starting with "discuss" in any case, a sheet has no prompts |
| TranslateChapters.NoQuestionNoOptions | scripts/translate_all_chapters.py:51-73 | without a question line every option is dropped and no question is read |
| TranslateChapters.ExtractChapterContent | scripts/translate_all_chapters.py:12-75 | the row loop with its skips and continues computes the reader's result |
| TranslateChapters.LastValue | scripts/translate_all_chapters.py:102 | the greedy `[^>]*` before `value="` picks the last such attribute in the range, one with a closing quote after it |
| TranslateChapters.InputHit | scripts/translate_all_chapters.py:102 | a match of the input pattern keeps its first group and ends after the closing quote |
| TranslateChapters.TagValueHit | scripts/translate_all_chapters.py:102 | inside the input tag, the match takes the last `value="` with the id before it; the kept text ends at the value's start and the match ends after its closing quote |
| TranslateChapters.LabelHit | scripts/translate_all_chapters.py:106 | a match of the label pattern keeps the tag and ends after `</label>` |
| TranslateChapters.ConversationLabelHit | scripts/translate_all_chapters.py:114-120 | a match of the conversation label pattern keeps the tag and ends after `</label>` |
| TranslateChapters.ConversationValueHit | scripts/translate_all_chapters.py:116-122 | a match of the script field pattern keeps `NAME: "` and ends after the closing quote |
| TranslateChapters.Match | scripts/translate_all_chapters.py:102-123 | every match of the four patterns lies within the page, its replaced part between the kept groups |
| TranslateChapters.NoOpeningNoHit | scripts/translate_all_chapters.py:102-123 | no match starts where the pattern's literal opening is not |
| TranslateChapters.NoOpeningNoHits | scripts/translate_all_chapters.py:102-123 | the same over a range of positions |
| TranslateChapters.SubstitutedAbsent | scripts/translate_all_chapters.py:103-123 | a page without the pattern's opening text comes through re.sub unchanged |
| TranslateChapters.SubstitutedOnce | scripts/translate_all_chapters.py:103-123 | with one match and no other opening text, the page is rewritten at that match alone |
| TranslateChapters.SubstitutedOnly | scripts/translate_all_chapters.py:103-123 | with a match at one position and none elsewhere, the page is rewritten there alone |
| TranslateChapters.LabelRewritten | scripts/translate_all_chapters.py:106-107 | `<label for="ID">WAS</label>` with its tag once in the page has WAS replaced by the option and nothing else changes |
| TranslateChapters.LabelPage | scripts/translate_all_chapters.py:106 | where the parts of such a label lie in the page |
| TranslateChapters.LabelOnce | scripts/translate_all_chapters.py:106-107 | the label tag once in the page: its text up to `</label>` is replaced |
| TranslateChapters.ConversationLabelRewritten | scripts/translate_all_chapters.py:114-121 | `<label for="NAME" ATTRS>WAS</label>` with its tag once in the page has WAS replaced by the prompt and nothing else changes |
| TranslateChapters.TagPage | scripts/translate_all_chapters.py:114 | the conversation tag occurs where it is placed |
| TranslateChapters.OpenPage | scripts/translate_all_chapters.py:114 | the first `>` after the tag is the one that ends it |
| TranslateChapters.ConversationLabelOnce | scripts/translate_all_chapters.py:114-115 | the conversation tag once in the page: the text after its `>` up to `</label>` is replaced |
| TranslateChapters.ConversationValueRewritten | scripts/translate_all_chapters.py:116-123 | `NAME: "WAS"` with its key once in the page has WAS replaced by the prompt and nothing else changes |
| TranslateChapters.KeyPage | scripts/translate_all_chapters.py:116 | the key of a script field occurs where it is placed |
| TranslateChapters.SpacePage | scripts/translate_all_chapters.py:116 | after the key come exactly the spaces the `\s*` takes |
| TranslateChapters.QuotePage | scripts/translate_all_chapters.py:116 | the value runs from the opening quote to the next one |
| TranslateChapters.ConversationValueOnce | scripts/translate_all_chapters.py:116-117 | the key once in the page: the text between the quotes is replaced |
| TranslateChapters.InputHitHas | scripts/translate_all_chapters.py:102 | an input match needs the id inside the tag |
| TranslateChapters.LastValueIs | scripts/translate_all_chapters.py:102 | the last `value="` of a range is the one found by scanning down from its top |
| TranslateChapters.InputOnce | scripts/translate_all_chapters.py:102-103 | the one input tag carrying the id has the text of its last value replaced |
| TranslateChapters.InputHitAt | scripts/translate_all_chapters.py:102 | the input match at a tag, from the positions that determine it |
| TranslateChapters.InputMiss | scripts/translate_all_chapters.py:102 | an input tag without the id, or no input tag at all, is no match |
| TranslateChapters.InputRewritten | scripts/translate_all_chapters.py:102-103 | `<input A id="ID" B value="WAS" C>`, the only input tag carrying the id, has WAS replaced by the option and nothing else changes |
| TranslateChapters.InputAt | scripts/translate_all_chapters.py:102-103 | the input tag's last value attribute is the one rewritten |
| TranslateChapters.InputOpenPage | scripts/translate_all_chapters.py:102 | the input tag opens where it is placed |
| TranslateChapters.InputEndPage | scripts/translate_all_chapters.py:102 | the first `>` after `<input` closes the tag |
| TranslateChapters.InputAttrPage | scripts/translate_all_chapters.py:102 | the id attribute lies between `<input` and the value attribute |
| TranslateChapters.InputValuePage | scripts/translate_all_chapters.py:102 | the value runs to the next quote and the page splits around it |
| TranslateChapters.InputLaterPage | scripts/translate_all_chapters.py:102 | no second `value="` starts inside the tag after the rewritten one |
| TranslateChapters.OptionIdInjective | scripts/translate_all_chapters.py:94-99 | distinct (question, option) numbers give distinct ids `q{j}_{k}` |
| TranslateChapters.UpdatedUsesTwoPrompts | scripts/translate_all_chapters.py:109-123 | the first prompt fills the `conversation` field, the second the `conversation2` field, and further prompts are dropped |
| TranslateChapters.OnePrompt | scripts/translate_all_chapters.py:111-117 | a single prompt fills the `conversation` field |
| TranslateChapters.TwoPrompts | scripts/translate_all_chapters.py:111-123 | two prompts fill `conversation`, then `conversation2` |
| TranslateChapters.QuietUnchanged | scripts/translate_all_chapters.py:102-123 | no pattern of the translator matches in a page with no input, label or conversation field |
| TranslateChapters.OptionsQuiet | scripts/translate_all_chapters.py:97-107 | the option rewrites leave such a page alone |
| TranslateChapters.QuestionsQuiet | scripts/translate_all_chapters.py:94-107 | the question loop leaves such a page alone |
| TranslateChapters.PromptsQuiet | scripts/translate_all_chapters.py:110-123 | the prompt rewrites leave such a page alone |
| TranslateChapters.UpdatedQuiet | scripts/translate_all_chapters.py:93-123 | a page with none of the rewritten fields is left as it is, whatever the content |
| TranslateChapters.UpdateChapterFile | scripts/translate_all_chapters.py:78-129 | a missing page is reported as not updated; otherwise the page is rewritten and written back exactly when its text changed |
| GenerateEnglish.OptionOf | scripts/generate_english_chapters.py:63-87 | the option text a bullet, letter or checkbox line gives is stripped |
| GenerateEnglish.ParseExcelChapter | scripts/generate_english_chapters.py:26-121 | the row loop with its skips and continues computes the sheet's items, the last open one included |
| GenerateEnglish.AppendPlain | scripts/generate_english_chapters.py:110-116 | a line no check classifies can be appended as a prompt |
| GenerateEnglish.UnclassifiedSound | scripts/generate_english_chapters.py:110-116 | such a line becomes a prompt of an open discussion or of an option-less question, keeping the parser's invariant |
| GenerateEnglish.UnmarkedSound | scripts/generate_english_chapters.py:89-116 | a line that is no title, question or option keeps the invariant |
| GenerateEnglish.ScaleSound | scripts/generate_english_chapters.py:90-93 | marking the open item as a scale keeps the invariant |
| GenerateEnglish.OpenedSound | scripts/generate_english_chapters.py:58-106 | opening a new item after appending the open one keeps the invariant |
| GenerateEnglish.ClassifySound | scripts/generate_english_chapters.py:50-116 | classifying a kept line by the first check it passes keeps the invariant |
| GenerateEnglish.StepSound | scripts/generate_english_chapters.py:32-116 | one row keeps the invariant |
| GenerateEnglish.RunSound | scripts/generate_english_chapters.py:31-116 | the row loop keeps the invariant |
| GenerateEnglish.ParsedSound | scripts/generate_english_chapters.py:26-121 | every item comes from a kept line of its own kind, the earlier checks having failed; options are stripped; a checkbox question has an option |
| GenerateEnglish.NoMenWomenSections | scripts/generate_english_chapters.py:57-103 | "For Men" and "For Women" are taken by the question check made first and never become sections |
| GenerateEnglish.Those | scripts/generate_english_chapters.py:213-214 | the list comprehension keeps only items of the kind |
| GenerateEnglish.ThoseIn | scripts/generate_english_chapters.py:213-214 | an item is kept exactly when it is in the list and of the kind |
| GenerateEnglish.OptionLines | scripts/generate_english_chapters.py:224-230 | one option line per option |
| GenerateEnglish.Blocks | scripts/generate_english_chapters.py:221-239 | one question section per shown question |
| GenerateEnglish.QuestionEntries | scripts/generate_english_chapters.py:240 | one surveyQuestions entry per shown question |
| GenerateEnglish.PageFormat | scripts/generate_english_chapters.py:264-336 | the page has five fields: the number twice, the sections, the discussion and the entries |
| GenerateEnglish.BlocksSnoc | scripts/generate_english_chapters.py:221-241 | one more shown question appends its section, numbered after the earlier ones |
| GenerateEnglish.EntriesSnoc | scripts/generate_english_chapters.py:240-241 | one more shown question appends its entry, numbered after the earlier ones |
| GenerateEnglish.WriteShown | scripts/generate_english_chapters.py:215-240 | the question loop writes one section and one entry per question with options, numbered consecutively from 1 |
| GenerateEnglish.WriteQuestion | scripts/generate_english_chapters.py:221-239 | the section of question qIdx holds its option lines and the title "Q{qIdx}: text"; its entry is `q{qIdx}: "Q{qIdx}: text"` |
| GenerateEnglish.WriteOptions | scripts/generate_english_chapters.py:223-230 | the inner loop writes the question's option lines, " required" on the first |
| GenerateEnglish.WriteDiscussion | scripts/generate_english_chapters.py:242-262 | the conversation section and entry exist only when some discussion has a prompt, and both use the first prompt |
| GenerateEnglish.CollectPrompts | scripts/generate_english_chapters.py:246-249 | the nested loop collects the prompts of all discussions in order |
| GenerateEnglish.CreateMinimalEnglishChapter | scripts/generate_english_chapters.py:210-337 | the page built from the questions with options and the first discussion prompt |
| GenerateEnglish.ShownIff | scripts/generate_english_chapters.py:213-222 | the page shows exactly the questions that have options |
| GenerateEnglish.OptionLineShape | scripts/generate_english_chapters.py:225-230 | option i of question q is the radio input and label translate_all_chapters rewrites by the id `q{q}_{i}` |
| GenerateEnglish.NameAttrPlain | scripts/generate_english_chapters.py:228 | the name attribute holds no `>` |
| GenerateEnglish.OptionFormatSplit | scripts/generate_english_chapters.py:227-230 | the option markup cut where the translator's patterns look |
| GenerateEnglish.FormatShape | scripts/generate_english_chapters.py:227-230 | filling the option markup lays out input, id, value and label as the translator expects |
| GenerateEnglish.OptionRegroup | scripts/generate_english_chapters.py:228-229 | the same text grouped as the translator's patterns read it |
| GenerateEnglish.PromptsOfIff | scripts/generate_english_chapters.py:246-251 | some prompt is collected exactly when some discussion has a prompt |
| GenerateEnglish.ConversationIff | scripts/generate_english_chapters.py:244-262 | there is a conversation section and entry exactly when some discussion has a prompt |
| GenerateEnglish.FirstPromptUsed | scripts/generate_english_chapters.py:256-262 | the section and the entry use the first prompt of the first discussion that has one |
| GenerateEnglish.PageEntries | scripts/generate_english_chapters.py:240-336 | the page holds the entries joined by ",\n" inside `window.surveyQuestions = {…};` |
| GenerateEnglish.ScriptAt | scripts/generate_english_chapters.py:264-336 | the entries field lies inside the surveyQuestions object |
| GenerateEnglish.GenerateEnglishChapters | scripts/generate_english_chapters.py:340-373 | the sheet loop writes one file per "cap N" sheet with items |
| GenerateEnglish.OutputsFrom | scripts/generate_english_chapters.py:346-373 | the files written are those the sheets give |
| GenerateEnglish.OnDisk | scripts/generate_english_chapters.py:370-372 | a file written several times holds what the last write put there; a name never written is absent |
| GenerateEnglish.LastWrittenWins | scripts/generate_english_chapters.py:370-372 | of the files a run writes, the last one with a given name is the one left on disk |
| GenerateEnglish.FileNameInjective | scripts/generate_english_chapters.py:370 | `chapter_{n:02d}.html` names differ for different chapter numbers |
| GenerateEnglish.LaterSheetWins | scripts/generate_english_chapters.py:346-373 | when several "cap N" sheets with items name the same chapter (say "cap 1" and "cap 01"), chapter_NN.html ends up holding the page of the last of them |
| GenerateEnglish.CapSheetsOnly | scripts/generate_english_chapters.py:348-350 | only sheets whose name starts with "cap " give a file |
| GenerateEnglishV2.LinesSound | scripts/generate_english_v2.py:29-39 | every line kept is stripped, non-empty, and neither introduction nor Spanish text |
| GenerateEnglishV2.LinesIn | scripts/generate_english_v2.py:29-39 | a text is kept exactly when some row's first cell strips to it and it is not skipped |
| GenerateEnglishV2.LinesAppend | scripts/generate_english_v2.py:29-39 | the lines of consecutive rows are each part's lines, in row order |
| GenerateEnglishV2.TranslationsKeys | scripts/generate_english_v2.py:19-41 | a chapter has lines exactly when some sheet is named `cap <digits>` for it |
| GenerateEnglishV2.TranslationsLastWins | scripts/generate_english_v2.py:41 | of several sheets for one chapter, the last one gives its lines |
| GenerateEnglishV2.SheetLines | scripts/generate_english_v2.py:28-39 | the row loop of one sheet collects its lines |
| GenerateEnglishV2.ExtractEnglishTranslations | scripts/generate_english_v2.py:14-43 | the sheet loop builds the chapter-to-lines map |
| GenerateEnglishV2.FirstTitleSpec | scripts/generate_english_v2.py:49-53 | the search finds a title exactly when some line matches, and then it is the group of the first such line |
| GenerateEnglishV2.DefaultTitle | scripts/generate_english_v2.py:48-54 | without a matching line, or without lines for the chapter, the title is "Chapter N" |
| GenerateEnglishV2.NumberedTitle | scripts/generate_english_v2.py:51-53 | a first line "N. " followed by one line of text gives that text as the title |
| GenerateEnglishV2.OtherNumberNoTitle | scripts/generate_english_v2.py:51 | another chapter's number of the same length does not make a title |
| GenerateEnglishV2.QuestionNonEmpty | scripts/generate_english_v2.py:69-74 | a question line is never empty, so the current question counts as set |
| GenerateEnglishV2.AnswerWordsKept | scripts/generate_english_v2.py:91-92 | True, False, Yes and No are options as they stand and not questions |
| GenerateEnglishV2.BulletValue | scripts/generate_english_v2.py:76-78 | a bullet, a space and a one-line trimmed answer give that answer |
| GenerateEnglishV2.ScanSpec | scripts/generate_english_v2.py:67-72 | the questions are the question lines in order, each with an option list, the current one the last |
| GenerateEnglishV2.NoQuestionNoOptions | scripts/generate_english_v2.py:74 | before the first question every line is ignored |
| GenerateEnglishV2.CollectedNone | scripts/generate_english_v2.py:69-71 | lines without a question give no question |
| GenerateEnglishV2.OptionsAfterLast | scripts/generate_english_v2.py:67-93 | the options of the last question are the option values of the lines after it, in order; a repeated question starts a fresh list |
| GenerateEnglishV2.OptionStep | scripts/generate_english_v2.py:74-93 | a line that is no question adds its option value, if any, to the current question |
| GenerateEnglishV2.ReadQuestions | scripts/generate_english_v2.py:63-93 | the question loop computes the questions and their options |
| GenerateEnglishV2.PageTitleHit | scripts/generate_english_v2.py:110 | a title match lies within the page, after the start position |
| GenerateEnglishV2.HeadingHit | scripts/generate_english_v2.py:114 | an h1 match lies within the page |
| GenerateEnglishV2.ChapterNameHit | scripts/generate_english_v2.py:118 | a chapterName match lies within the page |
| GenerateEnglishV2.QuestionTitleHit | scripts/generate_english_v2.py:125 | a question-title match keeps the key and spaces and replaces text up to the `<` |
| GenerateEnglishV2.Match | scripts/generate_english_v2.py:110-176 | every match of the page's patterns lies within the page |
| GenerateEnglishV2.NoOpeningNoHit | scripts/generate_english_v2.py:110-176 | no match starts where the pattern's literal opening is not |
| GenerateEnglishV2.NoOpeningUnchanged | scripts/generate_english_v2.py:110-176 | a page without the opening text comes through both kinds of substitution unchanged |
| GenerateEnglishV2.FirstMatchOnly | scripts/generate_english_v2.py:129-176 | with count=1 the first match alone is rewritten and the rest of the page kept |
| GenerateEnglishV2.TranslateCapitulo | scripts/generate_english_v2.py:57-187 | the page rewritten with the chapter's first twenty questions |
| GenerateEnglishV2.RewritePage | scripts/generate_english_v2.py:106-176 | the substitutions in the order the script makes them: lang, title, h1, chapterName, question titles, options, UI texts, script strings |
| GenerateEnglishV2.ReplaceTitles | scripts/generate_english_v2.py:122-129 | the question-title loop rewrites title i by question i |
| GenerateEnglishV2.ReplaceOptions | scripts/generate_english_v2.py:132-152 | the option loop replaces each pair's whole labels, then its values |
| GenerateEnglishV2.ReplaceScript | scripts/generate_english_v2.py:171-176 | the script loop rewrites string i with "Qi: " and question i, quotes escaped |
| GenerateEnglishV2.LaterLinesIgnored | scripts/generate_english_v2.py:122-171 | once a chapter's lines hold twenty questions, further lines change nothing in the page |
| GenerateEnglishV2.QuestionTitleRewritten | scripts/generate_english_v2.py:125-129 | the first title of key Qi has its text replaced by the question; a later title with the same key is left alone |
| GenerateEnglishV2.QuestionTitleAt | scripts/generate_english_v2.py:125 | the key at i, then spaces, then text other than `<`: a match that keeps up to the text |
| GenerateEnglishV2.KeyedTitleAt | scripts/generate_english_v2.py:125 | the same for any key |
| GenerateEnglishV2.KeyAndSpaces | scripts/generate_english_v2.py:125-174 | a key, then spaces, then no space: the key occurs there and `\s*` takes exactly the spaces |
| GenerateEnglishV2.TextRun | scripts/generate_english_v2.py:125 | text without `<` runs up to the `<` that follows it |
| GenerateEnglishV2.TextRunFind | scripts/generate_english_v2.py:125 | the first `<` after such text is the one that follows it |
| GenerateEnglishV2.ScriptQuestionRewritten | scripts/generate_english_v2.py:173-176 | the first script string of key qi gets "Qi: " and the question with its quotes escaped; a later one is left alone |
| GenerateEnglishV2.ScriptQuestionAt | scripts/generate_english_v2.py:174 | the key, spaces and opening quote, then the next quote: a match of the value |
| GenerateEnglishV2.NamedValueAt | scripts/generate_english_v2.py:174 | the same for any name |
| GenerateEnglishV2.ScriptTextEscaped | scripts/generate_english_v2.py:173-175 | every quote of the inserted script string has a backslash before it (a question ending in a backslash, or already holding `\"`, can still end the string early) |
| GenerateEnglishV2.NumberPrefixPlain | scripts/generate_english_v2.py:175 | the "Qi: " prefix holds no quote |
| GenerateEnglishV2.OptionPassKeeps | scripts/generate_english_v2.py:148-152 | the option pass touches only whole labels and values: a page holding none of the table's sources comes through unchanged |
| Workbook.SheetChapter | scripts/fix_all_translations.py:18-22 | a sheet has a chapter number only when its name starts with "cap " (`^cap (\d+)$`) |
| Workbook.SheetChapterOf | scripts/fix_all_translations.py:18-22 | every sheet named "cap N" is read as chapter N |
| Workbook.CollectedAppend | scripts/fix_all_translations.py:27-37 | collecting over consecutive rows keeps their order |
| Workbook.CollectedIn | scripts/fix_all_translations.py:27-37 | an item is collected exactly when some row yields it |
| Workbook.ByChapterKeys | scripts/generate_english_v2.py:19-41 | a chapter has an entry exactly when some sheet is named for it |
| Workbook.ByChapterLastWins | scripts/generate_english_v2.py:41 | of several sheets for one chapter, the last one gives its entry |
| Workbook.StripTrimmed | scripts/generate_english_v2.py:32 | str.strip() leaves no space at either end |
| Rewrite.SubFromSkip | scripts/translate_all_chapters.py:103 | re.sub copies the text where no match starts |
| Rewrite.SubFromAt | scripts/translate_all_chapters.py:103 | a match keeps its two groups, puts the text between them, and the scan resumes after it |
| Rewrite.SubFromOnce | scripts/translate_all_chapters.py:103 | with a single match the text is rewritten there alone |
| Rewrite.ThreeParts | scripts/translate_all_chapters.py:103 | the text around a single match is kept |
| Rewrite.SubOnceNone | scripts/generate_english_v2.py:129 | re.sub with count=1 changes nothing without a match |
| Rewrite.SubOnceFirst | scripts/generate_english_v2.py:129 | re.sub with count=1 rewrites the first match and keeps everything else |
| Rewrite.SubOnceAt | scripts/generate_english_v2.py:129 | a match at the scan position is the one rewritten |
| Rewrite.SubOnceSkip | scripts/generate_english_v2.py:129 | positions where no match starts are copied through unchanged and the scan resumes after them |
| Rewrite.LineEnd | scripts/generate_english_chapters.py:51-65 | `(.+)$` takes a non-empty line, with at most one final newline after it |
| Rewrite.SpaceGroupOf | scripts/generate_english_chapters.py:51 | `\s+(.+)$` on a one-line text takes all that follows the spaces |
| Rewrite.SpaceGroupShort | scripts/generate_english_chapters.py:51 | too few spaces: no match |
| Sorting.Insert | scripts/export_to_excel.py:164 | inserting keeps every element and adds the new one |
| Sorting.InsertSorted | scripts/export_to_excel.py:164 | inserting into a sorted list keeps it sorted |
| Sorting.SortByPermutation | chapter-manager/parser.go:33-39 | the sorted list holds exactly the input's elements |
| Sorting.SortBySorted | chapter-manager/parser.go:33-39 | under a total preorder the result is in order |
| Survey.PositionalId | chapter-manager/generator.go:240 | the option id is the question id, `_` and the position |
| Survey.PositionalIdInjective | chapter-manager/generator.go:240 | the options of one question never share an id |
| Survey.PositionalIdUnique | scripts/translate_all_chapters.py:99 | with question ids free of `_`, an option id names its question and its position |
| Text.PyStrip | scripts/fix_discussions.py:170 | str.strip() |
| Text.TrimOfTrimmed | chapter-manager/main.go:388 | a text without spaces at its ends is its own trim |
| Text.GoAtoi | chapter-manager/main.go:296 | strconv.Atoi accepts an optional sign and digits within the 64-bit range |
| Text.WrapInt64 | chapter-manager/parser.go:361 | Go's int64 sum: the result lies in the int64 range, equals the exact value when that is in range, and differs from it by a multiple of 2^64 |
| Text.AtoiOfDigits | chapter-manager/main.go:296 | Atoi of an unsigned digit string is its value |
| Text.AtoiOfNat | chapter-manager/main.go:296 | Atoi reads back the decimal form of a number |
| Text.AtoiRejectsNonNumeric | chapter-manager/main.go:296-299 | a text not starting with a sign or a digit is rejected |
| Text.Pad2 | chapter-manager/parser.go:339 | `%02d` writes at least two characters |
| Text.Pad2Value | chapter-manager/parser.go:339 | a zero-padded number reads back as itself |
| Text.NatToString | chapter-manager/parser.go:339 | the decimal form is digits without a leading zero |
| Text.NatToStringValue | chapter-manager/parser.go:339 | the decimal form reads back as the number |
| Text.NatToStringInjective | chapter-manager/generator.go:240 | different numbers have different decimal forms |
| Text.Split | scripts/fix_discussions.py:163 | str.split on one character gives at least one part, none containing it |
| Text.JoinSplit | scripts/fix_discussions.py:163-193 | joining the parts of a split gives the text back |
| Text.SplitJoin | scripts/fix_discussions.py:163-193 | splitting joined parts free of the separator gives the parts back |
| Text.IndexOfSpec | chapter-manager/parser.go:159-170 | strings.Index finds the first occurrence, -1 meaning none |
| Text.ContainsIff | scripts/fix_discussions.py:168 | `in` holds exactly when the text occurs somewhere |
| Text.ReplaceAllAbsent | scripts/fix_discussions.py:132 | str.replace changes nothing when the pattern does not occur |
| Text.ReplaceAllWhole | scripts/fix_all_translations.py:148 | a text that is exactly the pattern becomes the replacement |
| Text.ReplaceAllSelf | scripts/fix_all_translations.py:148 | replacing a pattern by itself changes nothing |
| Text.ReplaceAllOccurrence | scripts/fix_all_translations.py:148 | an occurrence in the result was in the original, unless it overlaps a copy of the replacement |
| Text.ReplaceAllNoNew | scripts/fix_all_translations.py:148 | a replacement that cannot overlap a text creates no occurrence of it |
| Text.EscapeQuotesGuarded | chapter-manager/generator.go:175 | after `strings.ReplaceAll(s, "\"", "\\\"")` every quote has a backslash before it |
| Text.UnescapeQuotes | chapter-manager/generator.go:175 | deleting the backslash in front of every quote undoes the escape |
| Text.HtmlEscapePlain | chapter-manager/generator.go:234 | html.EscapeString leaves text without special characters alone |
| Text.HtmlEscapeLength | chapter-manager/generator.go:234 | escaping never shortens text |
| Text.HtmlEscapeNoMarkup | chapter-manager/generator.go:234 | escaped text holds no raw `<`, `>` or quote |
| Text.HtmlEscapeEnd | chapter-manager/generator.go:248 | escaping keeps text that does not end in `=` from ending in `=` |
| Text.UpperIdempotent | chapter-manager/generator.go:221 | upper-casing twice is upper-casing once |
| Text.UpperOfLower | scripts/import_from_excel.py:205 | lower-casing first does not change what upper-casing gives |
| Text.LowerOfUpper | scripts/import_from_excel.py:205 | without ÿ and µ, whose capitals lie outside Latin-1, upper-casing first does not change what lower-casing gives |
| Text.Format | chapter-manager/generator.go:217-276 | a format with `%s` verbs starts with its first literal piece |
| Text.FormatAt | chapter-manager/generator.go:217-276 | the k-th argument stands between the k-th and the next piece |

## Left out

- File system and console I/O: reading and writing files, globbing, `os.path.exists`, stdin prompts, the menus of `main.go` and every `print`. File contents are strings, directory listings are sequences of names, and what the user types is a method parameter.
- The `main` drivers of `translate_all_chapters.py`, `generate_english_v2.py`, `fix_discussions.py` and `fix_all_translations.py`: they only loop over chapters 1 to 22, open files and call the modelled functions.
- `export_to_excel.py` `main`: the sorted glob order of the file names is not modelled. The sheets are sorted by chapter number afterwards, and that sort is modelled.
- openpyxl: workbook loading, cell types and all styling (fonts, fills, borders, widths, freeze panes). The importer sees a cell as empty, an integer or a text. Float, boolean and date cells are not modelled. The other scripts see a cell as its text, and a number cell as its decimal text.
- BeautifulSoup: a page is given as the list of elements the script finds, each text already stripped.
- The regular-expression engine: each pattern is the string function it computes. A replacement template is inserted literally, so its escapes are not processed. Not modelled: `\1` directly followed by a digit names another group; and in `generate_english_v2.py`, where the question goes into the templates `\1{eng_q}` and `\1Q{i}: {safe_q}\2`, a `\n` in the question becomes a newline, `\\` becomes one backslash, and a backslash before an ASCII letter raises `re.error`. `\d` is an ASCII digit, and `\s` is Python's whitespace.
- ImportExcel.PyInt: `int()` also accepts decimal digits outside ASCII (Arabic-Indic and other Unicode digits). The model reads only the ASCII digits, so a chapter cell written with other digits makes the load fail where Python loads it.
- `str.lower()` is modelled on ASCII and the Latin-1 letters only.
- Text.Upper: `strings.ToUpper` and `str.upper()` are modelled on ASCII and the Latin-1 letters only. ß is left as it is, which is what Go does, but `str.upper()` gives "SS". Characters beyond Latin-1 are not mapped.
- Parser.JoinPath: the Clean step of `filepath.Join` is not modelled. It collapses repeated slashes, drops `.` elements and resolves `..` in the directory. The file name part is the same either way, and so is the chapter number read back from it.
- Go's `html.EscapeString` is modelled as the five-character escape it performs.
- UTF-8: strings are sequences of characters, not bytes.
- Editor.Truncate: measures length in characters rather than bytes, so a cut inside a multi-byte character is not modelled. It requires a limit of at least 3 when the text is longer, as the Go slice would panic otherwise.
- Byte-exact page boilerplate (CSS, script bodies, third-party keys and URLs) carries no behaviour. The generators use abbreviated markup, or a markup/template parameter, that keeps every element a text is written into.
- Text.GoTrim and Text.PyStrip: Go's `strings.TrimSpace` and Python's `str.strip()` differ on the characters U+001C to U+001F. The two are kept apart, not unified.
- Dead code: `escape_js_quotes` and `process_match` in `fix_discussions.py`; the `pass` loops in the two English generators; `generate_english_chapter` and `read_capitulo_file`, which `main` never calls; the `discussion_prompts` loop of `generate_english_v2.py`, whose result is never used; the unused `chapter_name_format` parameter; `precedingContent` in `parser.go`.
- `generate_english_v2.py`: the `english_options` map is built but never read. The model keeps it (`Lookup.options`, stated by `GenerateEnglishV2.OptionsAfterLast`), and the page uses the question list only.
- The checkbox and scale flags of `generate_english_chapters.py` are read but never affect the page. The model records them and the page ignores them.
- `parseChapterFile` in `parser.go`: the field-by-field regex reads of the title, heading, conversation, email and button texts are not modelled. Question discovery, conditionals, options and the chapter number are.
- Parser.ExtractQuestions: the option pattern is proved to read back an option group the generator writes, followed by text without an input opening. That slicing a whole generated page at the title matches hands each question exactly its own group is not proved.
- Editor: the title edit and the conditional-parent edit in `editQuestion` are not modelled. They are free-text assignments behind menu prompts. The type toggle is modelled.
- Parser.TitleHits: the hits are proved sound (each is a real title at its position, in increasing order). That every title of the page is found is not proved.
- FixTranslations.FixedIdempotent: proved for any tables whose texts hold no `<`, `>`, `"` or `=` and whose targets are never the source of a changing pair. That the two literal tables meet this was checked by reading them, not proved.
- GenerateEnglishV2.OptionPassKeeps: the option patterns are built without `re.escape`. The model treats them as literal, which agrees with the table because no entry holds a regex metacharacter.
- Sorting.SortBySorted: Go's `sort.Slice` is not stable. The model sorts with a stable insertion sort, so the order between chapters with equal keys is one of the orders Go may produce.
