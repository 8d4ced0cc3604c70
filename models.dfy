/**
 * The chapter data model of the chapter manager: languages, question types,
 * options, questions, the conversation prompt and the chapter record, with
 * the per-language defaults and file-naming words.
 */
module Models {
  import opened Text

  /** The two site languages; "es" and "en" are their codes. */
  datatype Language = Spanish | English

  function LanguageCode(lang: Language): (code: string)
    ensures |code| == 2
  {
    match lang
    case Spanish => "es"
    case English => "en"
  }

  /**
   * The input type of a question. Untyped is the Go zero value "" that a
   * parsed question keeps when its section has neither kind of input.
   */
  datatype QuestionType = Radio | Checkbox | Untyped

  function TypeName(t: QuestionType): string {
    match t
    case Radio => "radio"
    case Checkbox => "checkbox"
    case Untyped => ""
  }

  /** An answer option; `caption` is the text shown next to the input (Go's Label). */
  datatype QuestionOption = QuestionOption(value: string, caption: string)

  datatype Question = Question(
    id: string,
    title: string,
    qtype: QuestionType,
    options: seq<QuestionOption>,
    required: bool,
    /** Id of the question whose "yes" answer reveals this one, or "". */
    conditionalOn: string)

  /** The discussion prompt; `prompt` is the label of its text area (Go's Label). */
  datatype Conversation = Conversation(title: string, prompt: string, placeholder: string)

  datatype Chapter = Chapter(
    number: int,
    language: Language,
    title: string,
    heading: string,
    questions: seq<Question>,
    conversation: Conversation,
    emailLabel: string,
    emailPlaceholder: string,
    submitText: string,
    resetText: string,
    successMsg: string,
    summaryTitle: string,
    chapterName: string,
    hasCustomCSS: bool,
    hasCustomJS: bool)

  /** The page text of a new chapter in the given language. */
  function LanguageDefaults(lang: Language): (c: Chapter)
    ensures c.language == lang
    ensures c.number == 0 && c.title == "" && c.chapterName == "" && c.questions == []
    ensures c.conversation.prompt == "" && !c.hasCustomCSS && !c.hasCustomJS
    ensures c.conversation.title == if lang == English then "Discuss:" else "Conversen:"
    ensures c.submitText != "" && c.resetText != "" && c.emailLabel != "" && c.successMsg != ""
  {
    match lang
    case English =>
      Chapter(0, English, "", "After watching the video, complete this exercise:", [],
              Conversation("Discuss:", "", "Write your answer here..."),
              "Email Address", "example@email.com", "Submit Survey", "Clear",
              "✓ Survey submitted successfully!", "Summary of your answers", "", false, false)
    case Spanish =>
      Chapter(0, Spanish, "", "Después de ver el video, realiza este ejercicio:", [],
              Conversation("Conversen:", "", "Escribe tu respuesta aquí..."),
              "Correo Electrónico", "ejemplo@correo.com", "Enviar Encuesta", "Limpiar",
              "✓ ¡Encuesta enviada correctamente!", "Resumen de tus respuestas", "", false, false)
  }

  /** File names are `<prefix>_NN.html`. */
  function FilePrefix(lang: Language): string {
    if lang == English then "chapter" else "capitulo"
  }

  /** The word in front of the number in a chapter name. */
  function ChapterLabel(lang: Language): string {
    if lang == English then "Chapter" else "Capítulo"
  }

  /** The tail of a chapter's page title. */
  function TitleSuffix(lang: Language): string {
    if lang == English then "After watching the video" else "Después de ver el video"
  }

  /**
   * The two languages never share a code, a file prefix, a chapter label or
   * a title suffix, and no prefix holds the `_` that separates it from the
   * number, so file names of the two languages cannot collide.
   */
  lemma LanguageWordsDistinct()
    ensures LanguageCode(English) != LanguageCode(Spanish)
    ensures FilePrefix(English) != FilePrefix(Spanish)
    ensures ChapterLabel(English) != ChapterLabel(Spanish)
    ensures TitleSuffix(English) != TitleSuffix(Spanish)
    ensures forall lang :: '_' !in FilePrefix(lang)
  {
    assert LanguageCode(English)[1] != LanguageCode(Spanish)[1];
    assert FilePrefix(English)[1] != FilePrefix(Spanish)[1];
    assert ChapterLabel(English)[1] != ChapterLabel(Spanish)[1];
    assert TitleSuffix(English)[0] != TitleSuffix(Spanish)[0];
  }

  /** Type names are distinct, so a type survives being written as its name. */
  lemma TypeNamesDistinct(a: QuestionType, b: QuestionType)
    requires TypeName(a) == TypeName(b)
    ensures a == b
  {
  }
}
