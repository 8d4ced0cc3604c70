/**
 * The translation fixer: it reads the English option lines of every
 * "cap N" sheet, and it replaces Spanish answer labels and values in a
 * chapter page by their English text, using a common table for every
 * chapter and a second table for chapter 22. Each table is an ordered list
 * of (Spanish, English) pairs; a source is replaced only where it stands as
 * a whole label `>source<` or a whole value `value="source"`.
 */
module FixTranslations {
  import opened Wrappers
  import opened Text
  import opened Workbook

  // ---------------------------------------------------------------------
  // Reading the options of the workbook
  // ---------------------------------------------------------------------

  /** The answers that are kept exactly as they are written. */
  const ListedWords: seq<string> :=
    ["Yes", "No", "True", "False", "Very much", "Not so much", "A little bit"]

  /**
   * The option a cell yields: the trimmed text after a bullet or after a
   * letter prefix (whose following spaces the final trim removes), or a
   * listed word; nothing for any other text or an empty cell.
   */
  function OptionOf(cell: Option<string>): Option<string> {
    match cell
    case None => None
    case Some(c) =>
      var text := PyStrip(c);
      if |text| > 0 && IsBullet(text[0]) then Some(PyStrip(text[1..]))
      else if IsLettered(text) then Some(PyStrip(text[2..]))
      else if text in ListedWords then Some(text)
      else None
  }

  /** The option a row yields, from its first cell. */
  function RowOption(row: seq<Option<string>>): Option<string> {
    OptionOf(FirstCell(row))
  }

  /** The options of a sheet's rows, in row order. */
  function OptionsOf(rows: seq<seq<Option<string>>>): seq<string> {
    Collected(rows, RowOption)
  }

  /** Options keep the order of the rows they come from. */
  lemma OptionsOfAppend(a: seq<seq<Option<string>>>, b: seq<seq<Option<string>>>)
    ensures OptionsOf(a + b) == OptionsOf(a) + OptionsOf(b)
  {
    CollectedAppend(a, b, RowOption);
  }

  /** A text is an option of a sheet exactly when some row yields it. */
  lemma OptionsOfIn(rows: seq<seq<Option<string>>>, x: string)
    ensures x in OptionsOf(rows) <==> exists i :: 0 <= i < |rows| && OptionOf(FirstCell(rows[i])) == Some(x)
  {
    CollectedIn(rows, RowOption, x);
  }

  /** A bullet, a space and a trimmed answer read back as that answer. */
  lemma BulletOption(b: char, w: string)
    requires IsBullet(b) && w != [] && Trimmed(w)
    ensures OptionOf(Some([b, ' '] + w)) == Some(w)
  {
    var line := [b, ' '] + w;
    assert !IsPySpace(line[0]) && line[|line| - 1] == w[|w| - 1];
    TrimOfTrimmed(line, IsPySpace);
    assert line[1..] == [' '] + w;
    TrimAfterSpaces([' '], w, IsPySpace);
  }

  /** "A. " to "D. " and a trimmed answer read back as that answer. */
  lemma LetterOption(l: char, w: string)
    requires 'A' <= l <= 'D' && w != [] && Trimmed(w)
    ensures OptionOf(Some([l, '.', ' '] + w)) == Some(w)
  {
    var line := [l, '.', ' '] + w;
    assert !IsPySpace(line[0]) && line[|line| - 1] == w[|w| - 1];
    TrimOfTrimmed(line, IsPySpace);
    assert !IsBullet(line[0]) && IsLettered(line);
    assert line[2..] == [' '] + w;
    TrimAfterSpaces([' '], w, IsPySpace);
  }

  /** A listed answer in a cell is kept as it is written. */
  lemma ListedWordKept(w: string)
    requires w in ListedWords
    ensures OptionOf(Some(w)) == Some(w)
  {
    assert !IsPySpace(w[0]) && !IsPySpace(w[|w| - 1]);
    TrimOfTrimmed(w, IsPySpace);
    assert PyStrip(w) == w;
    assert !IsBullet(w[0]) && !IsLettered(w);
  }

  method ExtractOptions(rows: seq<seq<Option<string>>>) returns (options: seq<string>)
    ensures options == OptionsOf(rows)
  {
    options := [];
    var k := 0;
    while k < |rows|
      invariant 0 <= k <= |rows|
      invariant options == Collected(rows[..k], RowOption)
    {
      assert rows[..k + 1][..k] == rows[..k];
      var option := OptionOf(FirstCell(rows[k]));
      if option.Some? {
        options := options + [option.value];
      }
      k := k + 1;
    }
    assert rows[..|rows|] == rows;
  }

  /** Chapter number to options, over the "cap N" sheets in workbook order. */
  function Mapping(sheets: seq<Sheet>): map<nat, seq<string>> {
    ByChapter(sheets, OptionsOf)
  }

  /** A chapter is mapped exactly when some sheet is named for it. */
  lemma MappingKeys(sheets: seq<Sheet>, n: nat)
    ensures n in Mapping(sheets) <==> exists i :: 0 <= i < |sheets| && SheetChapter(sheets[i].name) == Some(n)
  {
    ByChapterKeys(sheets, OptionsOf, n);
  }

  /** Of several sheets for one chapter, the last one gives its options. */
  lemma MappingLastWins(sheets: seq<Sheet>, i: nat, n: nat)
    requires i < |sheets| && SheetChapter(sheets[i].name) == Some(n)
    requires forall j :: i < j < |sheets| ==> SheetChapter(sheets[j].name) != Some(n)
    ensures n in Mapping(sheets) && Mapping(sheets)[n] == OptionsOf(sheets[i].rows)
  {
    ByChapterLastWins(sheets, OptionsOf, i, n);
  }

  method ExtractOptionsMapping(sheets: seq<Sheet>) returns (mappings: map<nat, seq<string>>)
    ensures mappings == Mapping(sheets)
  {
    mappings := map[];
    var k := 0;
    while k < |sheets|
      invariant 0 <= k <= |sheets|
      invariant mappings == Mapping(sheets[..k])
    {
      assert sheets[..k + 1][..k] == sheets[..k];
      var chapter := SheetChapter(sheets[k].name);
      if chapter.Some? {
        var options := ExtractOptions(sheets[k].rows);
        mappings := mappings[chapter.value := options];
      }
      k := k + 1;
    }
    assert sheets[..|sheets|] == sheets;
  }

  // ---------------------------------------------------------------------
  // The translation tables
  // ---------------------------------------------------------------------

  /** Answers shared by all chapters, in table order. */
  function CommonTranslations(): seq<(string, string)> {
    [
      ("Si", "Yes"),
      ("Sí", "Yes"),
      ("No", "No"),
      ("Verdadero", "True"),
      ("Falso", "False"),
      ("Dinero", "Money"),
      ("Felicidad", "Happiness"),
      ("Paz", "Peace"),
      ("Placer", "Pleasure"),
      ("Amor", "Love"),
      ("Autoestima", "Self-esteem"),
      ("Riqueza", "Wealth"),
      ("La infancia", "Childhood"),
      ("Infancia", "Childhood"),
      ("La adolescencia", "Adolescence"),
      ("Adolescencia", "Adolescence"),
      ("La adultez", "Adulthood"),
      ("Adultez", "Adulthood"),
      ("Todas las anteriores", "All of the above"),
      ("Todo lo anterior", "All of the above"),
      ("Ninguna", "None"),
      ("La relación se vuelve más fácil", "The relationship becomes easier"),
      ("Que implican sentirse amados y queridos", "They entail feeling loved and wanted"),
      ("Que implican obtención de poder, prestigio y placer", "They involve gaining power, prestige, and pleasure"),
      ("La plata te ayuda a conseguir las otras P", "Money contributes to all of the P's"),
      ("La gente no la busca", "People don't seek it"),
      ("Lo demás es más importante", "Other things are more important"),
      ("Sus logros, apariencia y afecto recibido", "Her accomplishments, appearance, and received affection"),
      ("El poder, prestigio y placer que obtiene", "The power, prestige, and pleasure she obtains"),
      ("Sentirse querida y amada", "Feeling loved"),
      ("Que la provean", "Being provided for"),
      ("Sentirse emocionalmente conectada con su esposo", "Feeling emotionally connected to her husband"),
      ("A las mujeres les gusta comprar", "Women like shopping"),
      ("Tener dinero aumenta su autoestima", "Having money boosts his self-esteem"),
      ("Todo el mundo es atraído por el dinero", "Everyone is enticed by money"),
      ("No fue suficiente", "It wasn't enough"),
      ("Quería pasar tiempo con él", "She wanted to spend time with him"),
      ("Tienen intereses diferentes", "They have different interests"),
      ("No entienden sus diferencias", "They don't understand their differences"),
      ("Él no la consultó", "He didn't consult with her"),
      ("Ella quería control", "She wanted control"),
      ("Ver su programa de televisión favorito", "Watch their favorite TV show"),
      ("Hablar con su pareja", "Talk with their partner"),
      ("Reflexionar sobre lo que pasó durante el día", "Reflect on what happened during the day"),
      ("Relajarse solo", "Relax by himself"),
      ("Así es como se sienten amadas", "That is how they feel loved"),
      ("Están aburridas", "They are bored"),
      ("Necesitan desahogarse", "They need to vent"),
      ("No encuentran interés en los temas de conversación", "They don't find interest in the topics of the conversation"),
      ("No se dan cuenta de cuánto ella valora hablar", "They fail to see how much she values talking"),
      ("Sienten que ya han hablado suficiente", "They feel they've already spoken enough"),
      ("Está más feliz", "She's happier"),
      ("No le afecta", "It doesn't affect her"),
      ("Se siente sola", "She feels lonely"),
      ("Conversen:", "Discuss:"),
      ("Reflexión:", "Reflection:"),
      ("Compara tus respuestas", "Compare your answers"),
      ("Compartan sus respuestas", "Share your responses with each other")
    ]
  }

  /** Answers of chapter 22, in table order. */
  function Chapter22Translations(): seq<(string, string)> {
    [
      ("Mucho", "Very much"),
      ("No tanto", "Not so much"),
      ("Un poco", "A little bit"),
      ("La intimidad no es una actividad simple, sino que involucra nuestras emociones", "Because intimacy is not a dry activity it involves our emotions"),
      ("La armonía crea un ciclo de conexión", "Harmony creates a cycle of connection"),
      ("Una mejor relación lleva a una intimidad más satisfactoria", "Better the relationship greater the intimacy"),
      ("Se debe buscar ayuda profesional", "One should seek professional help"),
      ("A veces la abstinencia y la distancia pueden ayudar a generar mayor interés", "Sometimes abstinence and distance can help generate greater interest"),
      ("Se necesita comunicar las necesidades y llegar a un entendimiento con la pareja", "One needs to communicate their needs and reach an understanding with their spouse"),
      ("Conversen acerca de cómo se sienten cada uno en relación con la intimidad en el matrimonio y qué pueden hacer si es necesario para mejorarla", "How each one feels regarding the intimacy in the marriage and what can be done if necessary to improve it")
    ]
  }

  // ---------------------------------------------------------------------
  // Fixing a chapter page
  // ---------------------------------------------------------------------

  /** The text of an element: `>s<`. */
  function Label(s: string): string { ">" + s + "<" }

  /** A value attribute: `value="s"`. */
  function ValueAttr(s: string): string { "value=\"" + s + "\"" }

  /** The source as a whole label, the source as a whole value, then the label again. */
  function CommonStep(content: string, pair: (string, string)): string {
    var labels := ReplaceAll(content, Label(pair.0), Label(pair.1));
    var values := ReplaceAll(labels, ValueAttr(pair.0), ValueAttr(pair.1));
    ReplaceAll(values, Label(pair.0), Label(pair.1))
  }

  /** The source as a whole label, then as a whole value. */
  function PairStep(content: string, pair: (string, string)): string {
    var labels := ReplaceAll(content, Label(pair.0), Label(pair.1));
    ReplaceAll(labels, ValueAttr(pair.0), ValueAttr(pair.1))
  }

  function WithCommon(content: string, pairs: seq<(string, string)>): string {
    if pairs == [] then content
    else CommonStep(WithCommon(content, pairs[..|pairs| - 1]), pairs[|pairs| - 1])
  }

  function WithPairs(content: string, pairs: seq<(string, string)>): string {
    if pairs == [] then content
    else PairStep(WithPairs(content, pairs[..|pairs| - 1]), pairs[|pairs| - 1])
  }

  /** The page after the common table, and for chapter 22 after its own table too. */
  function Fixed(content: string, chapter: int, common: seq<(string, string)>, specific: seq<(string, string)>): string {
    var c := WithCommon(content, common);
    if chapter == 22 then WithPairs(c, specific) else c
  }

  /** The chapter-22 table makes no difference to any other chapter. */
  lemma OnlyChapter22(content: string, chapter: int, common: seq<(string, string)>, s1: seq<(string, string)>, s2: seq<(string, string)>)
    requires chapter != 22
    ensures Fixed(content, chapter, common, s1) == Fixed(content, chapter, common, s2)
    ensures Fixed(content, chapter, common, s1) == WithCommon(content, common)
  {
  }

  /** The source stands in the page as a whole label or a whole value. */
  predicate Delimited(content: string, s: string) {
    Contains(content, Label(s)) || Contains(content, ValueAttr(s))
  }

  /** Whole labels and values of every pair that changes something are gone. */
  ghost predicate Clean(content: string, pairs: seq<(string, string)>) {
    forall k :: 0 <= k < |pairs| && pairs[k].0 != pairs[k].1 ==> !Delimited(content, pairs[k].0)
  }

  /** A pass over a clean page changes nothing. */
  lemma CommonStepClean(content: string, pair: (string, string))
    requires pair.0 == pair.1 || !Delimited(content, pair.0)
    ensures CommonStep(content, pair) == content
  {
    if pair.0 == pair.1 {
      ReplaceAllSelf(content, Label(pair.0));
      ReplaceAllSelf(content, ValueAttr(pair.0));
    } else {
      ContainsIff(content, Label(pair.0));
      ContainsIff(content, ValueAttr(pair.0));
      ReplaceAllAbsent(content, Label(pair.0), Label(pair.1));
      ReplaceAllAbsent(content, ValueAttr(pair.0), ValueAttr(pair.1));
    }
  }

  lemma PairStepClean(content: string, pair: (string, string))
    requires pair.0 == pair.1 || !Delimited(content, pair.0)
    ensures PairStep(content, pair) == content
  {
    if pair.0 == pair.1 {
      ReplaceAllSelf(content, Label(pair.0));
      ReplaceAllSelf(content, ValueAttr(pair.0));
    } else {
      ContainsIff(content, Label(pair.0));
      ContainsIff(content, ValueAttr(pair.0));
      ReplaceAllAbsent(content, Label(pair.0), Label(pair.1));
      ReplaceAllAbsent(content, ValueAttr(pair.0), ValueAttr(pair.1));
    }
  }

  /**
   * A page where no source of the table stands as a whole label or value
   * (a source inside a longer label counts for nothing) goes through the
   * table unchanged.
   */
  lemma {:induction false} WithCommonClean(content: string, pairs: seq<(string, string)>)
    requires Clean(content, pairs)
    ensures WithCommon(content, pairs) == content
  {
    if pairs != [] {
      var init := pairs[..|pairs| - 1];
      assert Clean(content, init) by {
        forall k | 0 <= k < |init| && init[k].0 != init[k].1 ensures !Delimited(content, init[k].0) {
          assert init[k] == pairs[k];
        }
      }
      WithCommonClean(content, init);
      CommonStepClean(content, pairs[|pairs| - 1]);
    }
  }

  lemma {:induction false} WithPairsClean(content: string, pairs: seq<(string, string)>)
    requires Clean(content, pairs)
    ensures WithPairs(content, pairs) == content
  {
    if pairs != [] {
      var init := pairs[..|pairs| - 1];
      assert Clean(content, init) by {
        forall k | 0 <= k < |init| && init[k].0 != init[k].1 ensures !Delimited(content, init[k].0) {
          assert init[k] == pairs[k];
        }
      }
      WithPairsClean(content, init);
      PairStepClean(content, pairs[|pairs| - 1]);
    }
  }

  // ---------------------------------------------------------------------
  // A second run changes nothing
  // ---------------------------------------------------------------------

  /** No character that delimits a label or a value, and no `=`. */
  predicate Plain(w: string) {
    forall i :: 0 <= i < |w| ==> w[i] != '<' && w[i] != '>' && w[i] != '"' && w[i] != '='
  }

  lemma LabelsApart(s: string, e: string)
    requires Plain(s) && Plain(e) && s != e
    ensures Disjoint(Label(s), Label(e))
  {
    var p, t := Label(s), Label(e);
    forall d | -|p| < d < |t| ensures !Agrees(p, t, d) {
      if d > 0 {
        assert p[0] != t[d];
      } else if d < 0 {
        assert p[-d] != t[0];
      } else if |s| < |e| {
        assert p[|s| + 1] != t[|s| + 1];
      } else if |s| > |e| {
        assert p[|e| + 1] != t[|e| + 1];
      } else {
        var i :| 0 <= i < |s| && s[i] != e[i];
        assert p[i + 1] != t[i + 1];
      }
    }
  }

  /** The attribute name of a value laid past the start of another value misses it. */
  lemma ValueShift(s: string, e: string, d: int)
    requires Plain(e) && 0 < d < |ValueAttr(e)|
    ensures !Agrees(ValueAttr(s), ValueAttr(e), d)
  {
    var p, t := ValueAttr(s), ValueAttr(e);
    if d + 5 < |t| {
      assert p[5] != t[d + 5];
    } else {
      assert p[|t| - 1 - d] != t[|t| - 1];
    }
  }

  lemma ValuesApart(s: string, e: string)
    requires Plain(s) && Plain(e) && s != e
    ensures Disjoint(ValueAttr(s), ValueAttr(e))
  {
    var p, t := ValueAttr(s), ValueAttr(e);
    forall d | -|p| < d < |t| ensures !Agrees(p, t, d) {
      if d > 0 {
        ValueShift(s, e, d);
      } else if d < 0 {
        AgreesSym(p, t, d);
        ValueShift(e, s, -d);
      } else if |s| < |e| {
        assert p[|s| + 7] != t[|s| + 7];
      } else if |s| > |e| {
        assert p[|e| + 7] != t[|e| + 7];
      } else {
        var i :| 0 <= i < |s| && s[i] != e[i];
        assert p[i + 7] != t[i + 7];
      }
    }
  }

  lemma LabelValueApart(s: string, e: string)
    requires Plain(s) && Plain(e)
    ensures Disjoint(Label(s), ValueAttr(e))
  {
    var p, t := Label(s), ValueAttr(e);
    forall d | -|p| < d < |t| ensures !Agrees(p, t, d) {
      if d >= 0 {
        assert p[0] != t[d];
      } else if |p| - 1 + d < |t| {
        assert p[|p| - 1] != t[|p| - 1 + d];
      } else {
        assert p[6 - d] != t[6];
      }
    }
  }

  /** A label or value of w cannot overlap the label or value of e. */
  ghost predicate Apart(w: string, e: string) {
    Disjoint(Label(w), Label(e)) && Disjoint(Label(w), ValueAttr(e))
    && Disjoint(ValueAttr(w), Label(e)) && Disjoint(ValueAttr(w), ValueAttr(e))
  }

  lemma PlainApart(w: string, e: string)
    requires Plain(w) && Plain(e) && w != e
    ensures Apart(w, e)
  {
    LabelsApart(w, e);
    ValuesApart(w, e);
    LabelValueApart(w, e);
    LabelValueApart(e, w);
    DisjointSym(ValueAttr(w), Label(e));
  }

  /** One replacement that w's label and value cannot overlap keeps them out. */
  lemma PassKeeps(content: string, from: string, to: string, w: string)
    requires |from| > 0 && |to| > 0
    requires Disjoint(Label(w), to) && Disjoint(ValueAttr(w), to)
    requires !Delimited(content, w)
    ensures !Delimited(ReplaceAll(content, from, to), w)
  {
    ReplaceAllNoNew(content, from, to, Label(w));
    ReplaceAllNoNew(content, from, to, ValueAttr(w));
  }

  /** A step keeps out the label and value of a word that is not its target. */
  lemma CommonStepKeeps(content: string, pair: (string, string), w: string)
    requires Plain(pair.1) && Plain(w) && w != pair.1
    requires !Delimited(content, w)
    ensures !Delimited(CommonStep(content, pair), w)
  {
    var (s, e) := pair;
    PlainApart(w, e);
    var labels := ReplaceAll(content, Label(s), Label(e));
    PassKeeps(content, Label(s), Label(e), w);
    var values := ReplaceAll(labels, ValueAttr(s), ValueAttr(e));
    PassKeeps(labels, ValueAttr(s), ValueAttr(e), w);
    PassKeeps(values, Label(s), Label(e), w);
  }

  lemma PairStepKeeps(content: string, pair: (string, string), w: string)
    requires Plain(pair.1) && Plain(w) && w != pair.1
    requires !Delimited(content, w)
    ensures !Delimited(PairStep(content, pair), w)
  {
    var (s, e) := pair;
    PlainApart(w, e);
    var labels := ReplaceAll(content, Label(s), Label(e));
    PassKeeps(content, Label(s), Label(e), w);
    PassKeeps(labels, ValueAttr(s), ValueAttr(e), w);
  }

  /** After its step, a pair that changes something leaves no label or value of its source. */
  lemma CommonStepRemoves(content: string, pair: (string, string))
    requires Plain(pair.0) && Plain(pair.1) && pair.0 != pair.1
    ensures !Delimited(CommonStep(content, pair), pair.0)
  {
    var (s, e) := pair;
    PlainApart(s, e);
    var labels := ReplaceAll(content, Label(s), Label(e));
    ReplaceAllNoNew(content, Label(s), Label(e), Label(s));
    var values := ReplaceAll(labels, ValueAttr(s), ValueAttr(e));
    ReplaceAllNoNew(labels, ValueAttr(s), ValueAttr(e), Label(s));
    ReplaceAllNoNew(labels, ValueAttr(s), ValueAttr(e), ValueAttr(s));
    ReplaceAllNoNew(values, Label(s), Label(e), Label(s));
    ReplaceAllNoNew(values, Label(s), Label(e), ValueAttr(s));
  }

  lemma PairStepRemoves(content: string, pair: (string, string))
    requires Plain(pair.0) && Plain(pair.1) && pair.0 != pair.1
    ensures !Delimited(PairStep(content, pair), pair.0)
  {
    var (s, e) := pair;
    PlainApart(s, e);
    var labels := ReplaceAll(content, Label(s), Label(e));
    ReplaceAllNoNew(content, Label(s), Label(e), Label(s));
    ReplaceAllNoNew(labels, ValueAttr(s), ValueAttr(e), Label(s));
    ReplaceAllNoNew(labels, ValueAttr(s), ValueAttr(e), ValueAttr(s));
  }

  /** A text that cannot be laid over x at any offset does not occur in x. */
  lemma NotInside(p: string, x: string)
    requires |p| > 0 && Disjoint(p, x)
    ensures !Contains(x, p)
  {
    forall j ensures !OccursAt(x, p, j) {
      if 0 <= j && j + |p| <= |x| {
        assert !Agrees(p, x, j);
        var i :| 0 <= i < |p| && 0 <= i + j < |x| && p[i] != x[i + j];
        assert x[j..j + |p|][i] != p[i];
      }
    }
    ContainsIff(x, p);
  }

  /**
   * The label or value of another plain phrase, a longer one holding the
   * source among them, goes through a step unchanged.
   */
  lemma OtherPhraseKept(t: string, pair: (string, string))
    requires Plain(t) && Plain(pair.0) && t != pair.0
    ensures CommonStep(Label(t), pair) == Label(t) && PairStep(Label(t), pair) == Label(t)
    ensures CommonStep(ValueAttr(t), pair) == ValueAttr(t) && PairStep(ValueAttr(t), pair) == ValueAttr(t)
  {
    var s := pair.0;
    PlainApart(s, t);
    NotInside(Label(s), Label(t));
    NotInside(ValueAttr(s), Label(t));
    NotInside(Label(s), ValueAttr(t));
    NotInside(ValueAttr(s), ValueAttr(t));
    CommonStepClean(Label(t), pair);
    PairStepClean(Label(t), pair);
    CommonStepClean(ValueAttr(t), pair);
    PairStepClean(ValueAttr(t), pair);
  }

  /** A whole label or value of the source becomes that of the target. */
  lemma WholePhraseReplaced(s: string, e: string)
    requires Plain(s) && Plain(e) && s != e
    ensures CommonStep(Label(s), (s, e)) == Label(e) && PairStep(Label(s), (s, e)) == Label(e)
    ensures CommonStep(ValueAttr(s), (s, e)) == ValueAttr(e) && PairStep(ValueAttr(s), (s, e)) == ValueAttr(e)
  {
    PlainApart(s, e);
    ReplaceAllWhole(Label(s), Label(e));
    ReplaceAllWhole(ValueAttr(s), ValueAttr(e));
    NotInside(ValueAttr(s), Label(e));
    NotInside(Label(s), Label(e));
    NotInside(Label(s), ValueAttr(e));
    NotInside(ValueAttr(s), ValueAttr(e));
    LabelValueApart(s, s);
    DisjointSym(ValueAttr(s), Label(s));
    NotInside(Label(s), ValueAttr(s));
    NotInside(ValueAttr(s), Label(s));
    ContainsIff(Label(e), ValueAttr(s));
    ContainsIff(Label(e), Label(s));
    ContainsIff(ValueAttr(e), Label(s));
    ContainsIff(ValueAttr(s), Label(s));
    ContainsIff(Label(s), ValueAttr(s));
    ReplaceAllAbsent(Label(e), ValueAttr(s), ValueAttr(e));
    ReplaceAllAbsent(Label(e), Label(s), Label(e));
    ReplaceAllAbsent(Label(s), ValueAttr(s), ValueAttr(e));
    ReplaceAllAbsent(ValueAttr(s), Label(s), Label(e));
    ReplaceAllAbsent(ValueAttr(e), Label(s), Label(e));
  }

  /**
   * Every text of the table is plain, and no target is the source of a pair
   * that changes something.
   */
  ghost predicate Separated(pairs: seq<(string, string)>) {
    (forall k :: 0 <= k < |pairs| ==> Plain(pairs[k].0) && Plain(pairs[k].1))
    && forall j, k :: 0 <= j < |pairs| && 0 <= k < |pairs| && pairs[k].0 != pairs[k].1 ==> pairs[j].1 != pairs[k].0
  }

  /** No target of `later` is the source of a pair of `earlier` that changes something. */
  ghost predicate Unrecreated(earlier: seq<(string, string)>, later: seq<(string, string)>) {
    forall j, k :: 0 <= j < |later| && 0 <= k < |earlier| && earlier[k].0 != earlier[k].1 ==> later[j].1 != earlier[k].0
  }

  lemma {:induction false} WithCommonCleans(content: string, pairs: seq<(string, string)>)
    requires Separated(pairs)
    ensures Clean(WithCommon(content, pairs), pairs)
  {
    if pairs != [] {
      var init := pairs[..|pairs| - 1];
      var last := pairs[|pairs| - 1];
      assert Separated(init) by {
        forall j, k | 0 <= j < |init| && 0 <= k < |init| ensures init[j] == pairs[j] && init[k] == pairs[k] { }
      }
      WithCommonCleans(content, init);
      var before := WithCommon(content, init);
      forall k | 0 <= k < |pairs| && pairs[k].0 != pairs[k].1
        ensures !Delimited(CommonStep(before, last), pairs[k].0)
      {
        if k < |init| {
          assert init[k] == pairs[k];
          CommonStepKeeps(before, last, pairs[k].0);
        } else {
          CommonStepRemoves(before, last);
        }
      }
    }
  }

  lemma {:induction false} WithPairsCleans(content: string, pairs: seq<(string, string)>)
    requires Separated(pairs)
    ensures Clean(WithPairs(content, pairs), pairs)
  {
    if pairs != [] {
      var init := pairs[..|pairs| - 1];
      var last := pairs[|pairs| - 1];
      assert Separated(init) by {
        forall j, k | 0 <= j < |init| && 0 <= k < |init| ensures init[j] == pairs[j] && init[k] == pairs[k] { }
      }
      WithPairsCleans(content, init);
      var before := WithPairs(content, init);
      forall k | 0 <= k < |pairs| && pairs[k].0 != pairs[k].1
        ensures !Delimited(PairStep(before, last), pairs[k].0)
      {
        if k < |init| {
          assert init[k] == pairs[k];
          PairStepKeeps(before, last, pairs[k].0);
        } else {
          PairStepRemoves(before, last);
        }
      }
    }
  }

  /** The chapter-22 table does not bring back what the common table removed. */
  lemma {:induction false} WithPairsKeeps(content: string, earlier: seq<(string, string)>, pairs: seq<(string, string)>)
    requires Separated(earlier) && Separated(pairs) && Unrecreated(earlier, pairs)
    requires Clean(content, earlier)
    ensures Clean(WithPairs(content, pairs), earlier)
  {
    if pairs != [] {
      var init := pairs[..|pairs| - 1];
      var last := pairs[|pairs| - 1];
      assert Separated(init) && Unrecreated(earlier, init) by {
        forall j | 0 <= j < |init| ensures init[j] == pairs[j] { }
      }
      WithPairsKeeps(content, earlier, init);
      var before := WithPairs(content, init);
      forall k | 0 <= k < |earlier| && earlier[k].0 != earlier[k].1
        ensures !Delimited(PairStep(before, last), earlier[k].0)
      {
        PairStepKeeps(before, last, earlier[k].0);
      }
    }
  }

  /**
   * Running the fixer on its own output changes nothing, for tables whose
   * texts are plain and whose targets are never the source of a pair that
   * changes something.
   */
  lemma FixedIdempotent(content: string, chapter: int, common: seq<(string, string)>, specific: seq<(string, string)>)
    requires Separated(common) && Separated(specific) && Unrecreated(common, specific)
    ensures Fixed(Fixed(content, chapter, common, specific), chapter, common, specific)
         == Fixed(content, chapter, common, specific)
  {
    var once := Fixed(content, chapter, common, specific);
    var afterCommon := WithCommon(content, common);
    WithCommonCleans(content, common);
    if chapter == 22 {
      WithPairsCleans(afterCommon, specific);
      WithPairsKeeps(afterCommon, common, specific);
      WithPairsClean(once, specific);
    }
    WithCommonClean(once, common);
  }

  method FixWith(content: string, chapter: int, common: seq<(string, string)>, specific: seq<(string, string)>)
    returns (written: bool, fixed: string)
    ensures fixed == Fixed(content, chapter, common, specific)
    ensures written <==> fixed != content
  {
    fixed := content;
    var k := 0;
    while k < |common|
      invariant 0 <= k <= |common|
      invariant fixed == WithCommon(content, common[..k])
    {
      assert common[..k + 1][..k] == common[..k];
      var (spanish, english) := common[k];
      fixed := ReplaceAll(fixed, Label(spanish), Label(english));
      fixed := ReplaceAll(fixed, ValueAttr(spanish), ValueAttr(english));
      fixed := ReplaceAll(fixed, Label(spanish), Label(english));
      k := k + 1;
    }
    assert common[..|common|] == common;
    if chapter == 22 {
      var afterCommon := fixed;
      k := 0;
      while k < |specific|
        invariant 0 <= k <= |specific|
        invariant fixed == WithPairs(afterCommon, specific[..k])
      {
        assert specific[..k + 1][..k] == specific[..k];
        var (spanish, english) := specific[k];
        fixed := ReplaceAll(fixed, Label(spanish), Label(english));
        fixed := ReplaceAll(fixed, ValueAttr(spanish), ValueAttr(english));
        k := k + 1;
      }
      assert specific[..|specific|] == specific;
    }
    written := fixed != content;
  }

  /** fix_chapter_file with the two tables. */
  method FixChapterFile(content: string, chapter: int) returns (written: bool, fixed: string)
    ensures fixed == Fixed(content, chapter, CommonTranslations(), Chapter22Translations())
    ensures written <==> fixed != content
  {
    written, fixed := FixWith(content, chapter, CommonTranslations(), Chapter22Translations());
  }
}
