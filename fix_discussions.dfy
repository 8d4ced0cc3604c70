/**
 * The discussion fixer: it replaces Spanish discussion prompts by their
 * English text, then walks the lines of the `window.surveyQuestions` block
 * and rewrites each `key: "value"` line so that the quotes inside the value
 * are backslash-escaped. The translation table is a parameter: an ordered
 * list of (Spanish, English) pairs, applied in that order.
 */
module FixDiscussions {
  import opened Wrappers
  import opened Text

  // ---------------------------------------------------------------------
  // The translation pass
  // ---------------------------------------------------------------------

  /** The text after replacing every pair's source by its target, pair by pair. */
  function Translated(content: string, pairs: seq<(string, string)>): string
    decreases |pairs|
  {
    if pairs == [] then content
    else
      var last := pairs[|pairs| - 1];
      ReplaceAll(Translated(content, pairs[..|pairs| - 1]), last.0, last.1)
  }

  /** The Spanish discussion prompts and their English text, in table order. */
  function DiscussionTranslations(): seq<(string, string)> {
    [
      ("Compartan juntos sus conclusiones y busquen ejemplos en su relación donde se vean sus diferencias.", "Share thoughts of your relationship with each other and provide examples of your most distinct perceptions."),
      ("¿Cómo define cada una la felicidad?", "How do both of you, individually, define happiness?"),
      ("Si cada uno se siente feliz. ¿Cómo está el nivel de autoestima de cada uno y cuál es la conexión entre la autoestima y la felicidad?", "Do both of you feel happy? How would you describe your self-esteem, and how does it relate to happiness?"),
      ("Para el hombre, ¿Cómo percibes las P en tu vida?", "Husband - How do you perceive the \"P's\" (Power, Prestige, Pleasure) in your life?"),
      ("Para la mujer, ¿Cómo percibes que tu esposo satisface las P que necesita?", "Wife - How do you see your husband looking for his P's?"),
      ("Para la mujer, ¿Cómo demuestras la importancia de las A en tu vida?", "How does the wife demonstrate the importance of the \"A's\" (Affection, Attention, Appreciation) in her life?"),
      ("Para el hombre, ¿Cómo percibes las necesidades de tu esposa?", "How does the husband understand his wife's needs?"),
      ("¿Cómo manejarían ustedes esta situación basándose en lo aprendido hasta ahora?", "Based on this example, how would you manage a similar situation in your relationship?"),
      ("Conversen acerca de cómo comprender y valorar las diferentes necesidades de los dos, puede mejorar la convivencia.", "Discuss how understanding and valuing each other's different needs can improve your relationship."),
      ("¿Qué tipo de actividades fortalecen su relación?", "What kinds of activities strengthen your relationship as a couple?"),
      ("Conversen acerca de como cada uno de ustedes demuestra su amor al otro y cómo pueden mejorar la situación.", "Discuss how each of you shows love and how your relationship could be improved."),
      ("¿Cómo le demuestras tu amor?", "How do you show your love?"),
      ("¿Cómo pueden mejorar la situación?", "How could your relationship be improved?"),
      ("¿Cuál es tu lenguaje de amor en las diferentes épocas del matrimonio?", "What has been your main \"love language\" over the years?"),
      ("¿Cuál ha sido tu lenguaje de amor principal a lo largo de los años?", "What has been your main \"love language\" over the years?"),
      ("Compartan sus respuestas.", "Share your responses with each other."),
      ("Comparta sus respuestas.", "Share your responses with each other."),
      ("Identifiquen dos cosas que les hagan más felices en la vida y que no dependan de alguien más.", "Identify two things that make you happier in life that don't depend on someone else."),
      ("Conversen acerca de una ocasión donde entendieron las necesidades del otro", "Discuss a time when you understood each other's needs."),
      ("Conversen acerca de una ocasión donde entendieron las necesidades del otro.", "Discuss a time when you understood each other's needs."),
      ("Menciona dos cosas que puedes cambiar en tu relación después de ver este video.", "Two things you can change in your relationship after watching this video."),
      ("Conversen:", "Discuss:"),
      ("¿Cómo manejamos las \"deficiencias\" del otro?", "How do you handle each other's \"flaws\"?"),
      ("¿Que diferencias culturales tienen?", "What cultural differences do you have?"),
      ("¿Cómo afecta esto en tu relación?", "How does this affect your relationship?"),
      ("¿Cómo pueden manejarlas?", "How can you manage them?"),
      ("Conversen acerca de como pueden reducir este patrón.", "Discuss what you could both do to reduce that pattern."),
      ("¿Cómo valoran la opinión del otro?", "How do you value each other's opinion?"),
      ("Compartan los resultados y vean cómo pueden mejorar la comunicación.", "Share the results and see how you can improve communication."),
      ("Compartan y conversen acerca de cómo pueden mejorar el manejo de sus conflictos.", "Share and discuss how you can improve your conflict management."),
      ("Conversen acerca de cómo pueden mejorar su capacidad de perdonar.", "Discuss how you can improve your ability to forgive."),
      ("Conversen acerca de qué pueden hacer para mantener una relación sana y feliz.", "Discuss what you can do to maintain a healthy and happy relationship."),
      ("Conversen acerca de cómo se sienten cada uno en relación con la intimidad en el matrimonio y qué pueden hacer si es necesario para mejorarla.", "Discuss how each one feels regarding the intimacy in the marriage and what can be done if necessary to improve it.")
    ]
  }

  /** A text in which no source phrase occurs comes through the pass unchanged. */
  lemma {:induction false} TranslatedAbsent(content: string, pairs: seq<(string, string)>)
    requires forall i :: 0 <= i < |pairs| ==> |pairs[i].0| > 0 && !Contains(content, pairs[i].0)
    ensures Translated(content, pairs) == content
    decreases |pairs|
  {
    if pairs != [] {
      var last := pairs[|pairs| - 1];
      TranslatedAbsent(content, pairs[..|pairs| - 1]);
      IndexOfSpec(content, last.0);
      ReplaceAllAbsent(content, last.0, last.1);
    }
  }

  /** Pairs that map a phrase to itself change nothing. */
  lemma {:induction false} TranslatedIdentity(content: string, pairs: seq<(string, string)>)
    requires forall i :: 0 <= i < |pairs| ==> |pairs[i].0| > 0 && pairs[i].0 == pairs[i].1
    ensures Translated(content, pairs) == content
    decreases |pairs|
  {
    if pairs != [] {
      var last := pairs[|pairs| - 1];
      TranslatedIdentity(content, pairs[..|pairs| - 1]);
      ReplaceAllSelf(content, last.0);
    }
  }

  /** The replace loop over the table. */
  method ApplyTranslations(content: string, pairs: seq<(string, string)>) returns (r: string)
    ensures r == Translated(content, pairs)
  {
    r := content;
    var k := 0;
    while k < |pairs|
      invariant 0 <= k <= |pairs|
      invariant r == Translated(content, pairs[..k])
    {
      assert pairs[..k + 1][..k] == pairs[..k];
      r := ReplaceAll(r, pairs[k].0, pairs[k].1);
      k := k + 1;
    }
    assert pairs[..|pairs|] == pairs;
  }

  // ---------------------------------------------------------------------
  // The surveyQuestions block
  // ---------------------------------------------------------------------

  const SurveyMarker: string := "window.surveyQuestions"
  const BlockEnd: string := "};"

  /** A line holding the marker opens the block; a `};` line closes an open one. */
  function Toggle(inBlock: bool, line: string): bool {
    if Contains(line, SurveyMarker) then true
    else if inBlock && PyStrip(line) == BlockEnd then false
    else inBlock
  }

  /** Whether the block is open once the given lines have been read. */
  function InBlockAfter(lines: seq<string>): bool {
    if lines == [] then false
    else Toggle(InBlockAfter(lines[..|lines| - 1]), lines[|lines| - 1])
  }

  /** Line j holds the marker and no line after it, up to line i, closes the block. */
  predicate OpenFrom(lines: seq<string>, j: int, i: int) {
    0 <= j <= i < |lines| && Contains(lines[j], SurveyMarker)
    && forall k :: j < k <= i ==> PyStrip(lines[k]) != BlockEnd
  }

  /** Line i is a candidate: the block was opened at or before it and not closed since. */
  ghost predicate Candidate(lines: seq<string>, i: int) {
    exists j :: OpenFrom(lines, j, i)
  }

  /** Line i is a candidate when it holds the marker, or line i - 1 is one and line i does not close the block. */
  lemma CandidateStep(lines: seq<string>, i: nat)
    requires 0 < i < |lines|
    ensures Candidate(lines, i) <==>
      Contains(lines[i], SurveyMarker) || (Candidate(lines, i - 1) && PyStrip(lines[i]) != BlockEnd)
  {
    if Contains(lines[i], SurveyMarker) {
      assert OpenFrom(lines, i, i);
    } else {
      if Candidate(lines, i) {
        var j :| OpenFrom(lines, j, i);
        assert OpenFrom(lines, j, i - 1);
      }
      if Candidate(lines, i - 1) && PyStrip(lines[i]) != BlockEnd {
        var j :| OpenFrom(lines, j, i - 1);
        assert OpenFrom(lines, j, i);
      }
    }
  }

  /** The block is open after line i exactly when line i is a candidate. */
  lemma {:induction false} InBlockAfterIff(lines: seq<string>, i: nat)
    requires i < |lines|
    ensures InBlockAfter(lines[..i + 1]) <==> Candidate(lines, i)
  {
    var p := lines[..i + 1];
    assert p[..i] == lines[..i];
    assert p[i] == lines[i];
    assert InBlockAfter(p) == Toggle(InBlockAfter(lines[..i]), lines[i]);
    if i == 0 {
      if Contains(lines[0], SurveyMarker) {
        assert OpenFrom(lines, 0, 0);
      }
    } else {
      InBlockAfterIff(lines, i - 1);
      assert lines[..i] == lines[..i - 1 + 1];
      CandidateStep(lines, i);
    }
  }

  // ---------------------------------------------------------------------
  // Key lines: ^(\s*)(q\d+|conversation\d*):\s*"(.+)"(,?)$
  // ---------------------------------------------------------------------

  datatype KeyLine = KeyLine(indent: string, key: string, value: string, comma: string)

  const Conversation: string := "conversation"

  /** `q` and at least one digit, or `conversation` and any digits. */
  predicate IsKey(k: string) {
    (|k| >= 2 && k[0] == 'q' && AllDigits(k[1..]))
    || (StartsWith(k, Conversation) && AllDigits(k[|Conversation|..]))
  }

  predicate AllSpace(s: string) {
    forall i :: 0 <= i < |s| ==> IsPySpace(s[i])
  }

  /** The length of the key the text starts with, or 0 when it starts with none. */
  function KeyLength(rest: string): nat {
    if StartsWith(rest, "q") then
      var d := DigitRun(rest[1..]);
      if d == 0 then 0 else 1 + d
    else if StartsWith(rest, Conversation) then |Conversation| + DigitRun(rest[|Conversation|..])
    else 0
  }

  /** The key of a key line is read back whole when a colon follows it. */
  lemma KeyLengthOf(key: string, after: string)
    requires IsKey(key) && after != [] && after[0] == ':'
    ensures KeyLength(key + after) == |key|
  {
    var s := key + after;
    if key[0] == 'q' {
      assert s[..1] == "q";
      assert s[1..] == key[1..] + after;
      DigitRunOf(key[1..], after);
    } else {
      assert s[..|Conversation|] == Conversation;
      assert s[..1] != "q" by {
        assert s[0] == Conversation[0];
      }
      assert s[|Conversation|..] == key[|Conversation|..] + after;
      DigitRunOf(key[|Conversation|..], after);
    }
  }

  /** The text of a key line: indent, key, colon, gap, the quoted value and the comma. */
  function Shape(indent: string, key: string, gap: string, value: string, comma: string): string {
    indent + (key + (":" + (gap + ("\"" + Quoted(value, comma)))))
  }

  /** The value, its closing quote and the comma. */
  function Quoted(value: string, comma: string): string {
    value + ("\"" + comma)
  }

  /** `"(.+)"(,?)$` after the opening quote: the value runs to the last quote followed by nothing or one comma. */
  function QuotedValue(tail: string): Option<(string, string)> {
    if |tail| >= 2 && tail[|tail| - 1] == '"' then Some((tail[..|tail| - 1], ""))
    else if |tail| >= 3 && tail[|tail| - 2..] == "\"," then Some((tail[..|tail| - 2], ","))
    else None
  }

  /** `\s*"(.+)"(,?)$` after the colon. */
  function MatchValue(after: string): Option<(string, string)> {
    var g := LeadingCount(after, IsPySpace);
    var body := after[g..];
    if body == [] || body[0] != '"' then None else QuotedValue(body[1..])
  }

  /** `(q\d+|conversation\d*):` and the rest, after the indent: key, value and comma. */
  function MatchKeyed(rest: string): Option<(string, string, string)> {
    var kl := KeyLength(rest);
    if kl == 0 || kl >= |rest| || rest[kl] != ':' then None
    else
      match MatchValue(rest[kl + 1..])
      case None => None
      case Some(vc) => Some((rest[..kl], vc.0, vc.1))
  }

  /**
   * re.match of the whole pattern on a line. Whitespace and digits are
   * taken greedily, as backtracking cannot give them back to a later part.
   * The lines come from splitting on newlines, so none holds one; a text
   * that does is not matched.
   */
  function MatchLine(line: string): Option<KeyLine> {
    var n := LeadingCount(line, IsPySpace);
    if '\n' in line then None
    else
    match MatchKeyed(line[n..])
    case None => None
    case Some(r) => Some(KeyLine(line[..n], r.0, r.1, r.2))
  }

  lemma QuotedValueParts(tail: string)
    requires QuotedValue(tail).Some?
    ensures var vc := QuotedValue(tail).value;
      vc.0 != [] && (vc.1 == "" || vc.1 == ",") && tail == Quoted(vc.0, vc.1)
  {
    if |tail| >= 2 && tail[|tail| - 1] == '"' {
      assert tail == tail[..|tail| - 1] + ("\"" + "");
    } else {
      assert tail == tail[..|tail| - 2] + "\",";
    }
  }

  lemma QuotedValueOf(value: string, comma: string)
    requires value != [] && (comma == "" || comma == ",")
    ensures QuotedValue(Quoted(value, comma)) == Some((value, comma))
  {
    var tail := Quoted(value, comma);
    if comma == "" {
      assert tail[..|tail| - 1] == value;
    } else {
      assert tail[|tail| - 1] == ',';
      assert tail[|tail| - 2..] == "\",";
      assert tail[..|tail| - 2] == value;
    }
  }

  lemma MatchValueParts(after: string) returns (gap: string)
    requires MatchValue(after).Some?
    ensures var vc := MatchValue(after).value;
      AllSpace(gap) && vc.0 != [] && (vc.1 == "" || vc.1 == ",")
      && after == gap + ("\"" + Quoted(vc.0, vc.1))
  {
    var g := LeadingCount(after, IsPySpace);
    LeadingCountSpec(after, IsPySpace);
    gap := after[..g];
    var tail := MatchValueTail(after, g);
    QuotedValueParts(tail);
    QuoteSplit(after, g, tail);
  }

  /** Past the leading spaces stands the opening quote; the value and comma are read from what follows it. */
  lemma MatchValueTail(after: string, g: nat) returns (tail: string)
    requires MatchValue(after).Some? && g == LeadingCount(after, IsPySpace)
    ensures g < |after| && after[g] == '"' && tail == after[g + 1..]
    ensures MatchValue(after) == QuotedValue(tail)
  {
    tail := after[g + 1..];
    assert after[g..][1..] == tail;
  }

  lemma QuoteSplit(after: string, g: nat, tail: string)
    requires g < |after| && after[g] == '"' && tail == after[g + 1..]
    ensures after == after[..g] + ("\"" + tail)
  {
  }

  lemma MatchValueOf(gap: string, value: string, comma: string)
    requires AllSpace(gap) && value != [] && (comma == "" || comma == ",")
    ensures MatchValue(gap + ("\"" + Quoted(value, comma))) == Some((value, comma))
  {
    var tail := Quoted(value, comma);
    var body := "\"" + tail;
    var after := gap + body;
    LeadingCountOf(gap, body, IsPySpace);
    assert after[|gap|..] == body;
    assert body[1..] == tail;
    QuotedValueOf(value, comma);
  }

  lemma MatchKeyedParts(rest: string) returns (after: string)
    requires MatchKeyed(rest).Some?
    ensures var r := MatchKeyed(rest).value;
      IsKey(r.0) && rest == r.0 + (":" + after) && MatchValue(after) == Some((r.1, r.2))
  {
    var kl := KeyLength(rest);
    after := MatchKeyedAfter(rest, kl);
    ColonSplit(rest, kl, after);
    KeyLengthParts(rest);
  }

  /** A matched key is followed by its colon, and the value is read from what comes after it. */
  lemma MatchKeyedAfter(rest: string, kl: nat) returns (after: string)
    requires MatchKeyed(rest).Some? && kl == KeyLength(rest)
    ensures 0 < kl < |rest| && rest[kl] == ':' && after == rest[kl + 1..]
    ensures MatchValue(after) == Some((MatchKeyed(rest).value.1, MatchKeyed(rest).value.2))
    ensures MatchKeyed(rest).value.0 == rest[..kl]
  {
    after := rest[kl + 1..];
  }

  lemma ColonSplit(rest: string, kl: nat, after: string)
    requires kl < |rest| && rest[kl] == ':' && after == rest[kl + 1..]
    ensures rest == rest[..kl] + (":" + after)
  {
  }

  /** What KeyLength measures is a key. */
  lemma KeyLengthParts(rest: string)
    requires KeyLength(rest) > 0
    ensures IsKey(rest[..KeyLength(rest)])
  {
    var kl := KeyLength(rest);
    var key := rest[..kl];
    if StartsWith(rest, "q") {
      assert key[1..] == rest[1..][..kl - 1];
    } else {
      assert key[..|Conversation|] == rest[..|Conversation|];
      assert key[|Conversation|..] == rest[|Conversation|..][..kl - |Conversation|];
    }
  }

  lemma MatchKeyedOf(key: string, after: string)
    requires IsKey(key) && MatchValue(after).Some?
    ensures MatchKeyed(key + (":" + after))
      == Some((key, MatchValue(after).value.0, MatchValue(after).value.1))
  {
    var rest := key + (":" + after);
    KeyLengthOf(key, ":" + after);
    assert rest[|key|] == ':';
    assert rest[|key| + 1..] == after;
    assert rest[..|key|] == key;
  }

  /** The counted indent is all whitespace. */
  lemma LeadingSpace(line: string)
    ensures AllSpace(line[..LeadingCount(line, IsPySpace)])
  {
    var n := LeadingCount(line, IsPySpace);
    LeadingCountSpec(line, IsPySpace);
    forall i | 0 <= i < n ensures IsPySpace(line[..n][i]) {
      assert line[..n][i] == line[i];
    }
  }

  /** A match splits the line into indent, key, colon, gap, quoted value and comma. */
  lemma MatchLineParts(line: string) returns (gap: string)
    requires MatchLine(line).Some?
    ensures var m := MatchLine(line).value;
      AllSpace(m.indent) && IsKey(m.key) && AllSpace(gap) && m.value != []
      && (m.comma == "" || m.comma == ",")
      && line == Shape(m.indent, m.key, gap, m.value, m.comma)
  {
    var n := LeadingCount(line, IsPySpace);
    var indent, rest := line[..n], line[n..];
    var r := MatchKeyed(rest).value;
    assert MatchLine(line).value == KeyLine(indent, r.0, r.1, r.2);
    LeadingSpace(line);
    var after := MatchKeyedParts(rest);
    gap := MatchValueParts(after);
    ShapeOf(line, n, rest, r.0, after, gap, r.1, r.2);
  }

  /** The pieces a match finds, put back together, give the line. */
  lemma ShapeOf(line: string, n: nat, rest: string, key: string, after: string, gap: string, value: string,
                comma: string)
    requires n <= |line| && rest == line[n..]
    requires rest == key + (":" + after) && after == gap + ("\"" + Quoted(value, comma))
    ensures line == Shape(line[..n], key, gap, value, comma)
  {
    assert line == line[..n] + rest;
  }

  /** Conversely, every line of that shape matches with exactly those parts. */
  lemma MatchLineOf(indent: string, key: string, gap: string, value: string, comma: string)
    requires AllSpace(indent) && IsKey(key) && AllSpace(gap) && value != []
    requires comma == "" || comma == ","
    requires '\n' !in Shape(indent, key, gap, value, comma)
    ensures MatchLine(Shape(indent, key, gap, value, comma)) == Some(KeyLine(indent, key, value, comma))
  {
    var after := gap + ("\"" + Quoted(value, comma));
    var rest := key + (":" + after);
    var line := indent + rest;
    assert !IsPySpace(rest[0]) by {
      assert rest[0] == key[0];
      if key[0] != 'q' {
        assert key[..|Conversation|] == Conversation;
        assert key[0] == Conversation[0];
      }
    }
    LeadingCountOf(indent, rest, IsPySpace);
    assert line[|indent|..] == rest && line[..|indent|] == indent;
    MatchValueOf(gap, value, comma);
    MatchKeyedOf(key, after);
  }

  /** A line of that shape holds a colon and a quote. */
  lemma ShapeContains(indent: string, key: string, gap: string, value: string, comma: string)
    ensures Contains(Shape(indent, key, gap, value, comma), ":")
    ensures Contains(Shape(indent, key, gap, value, comma), "\"")
  {
    var s := Shape(indent, key, gap, value, comma);
    var i := |indent| + |key|;
    var j := i + 1 + |gap|;
    assert s[i] == ':' && s[j] == '"';
    assert s[i..i + 1] == ":";
    assert s[j..j + 1] == "\"";
    OccursContains(s, ":", i);
    OccursContains(s, "\"", j);
  }

  // ---------------------------------------------------------------------
  // Escaping the quotes of a value: re.sub(r'(?<!\\)"', '\\"', value)
  // ---------------------------------------------------------------------

  /** Each quote not preceded by a backslash gets one; `afterBackslash` tells what precedes v. */
  function EscapeFrom(v: string, afterBackslash: bool): string {
    if v == [] then []
    else EscapeChar(v[0], afterBackslash) + EscapeFrom(v[1..], v[0] == '\\')
  }

  /** One character of the escape. */
  function EscapeChar(c: char, afterBackslash: bool): string {
    if c == '"' && !afterBackslash then "\\\"" else [c]
  }

  function Escaped(v: string): string {
    EscapeFrom(v, false)
  }

  /** The number of quotes not preceded by a backslash. */
  function UnescapedFrom(v: string, afterBackslash: bool): nat {
    if v == [] then 0
    else (if v[0] == '"' && !afterBackslash then 1 else 0) + UnescapedFrom(v[1..], v[0] == '\\')
  }

  /** str.count: the non-overlapping occurrences of p, scanning left to right. */
  function PyCount(s: string, p: string): nat
    requires |p| > 0
    decreases |s|
  {
    if |s| < |p| then 0
    else if s[..|p|] == p then 1 + PyCount(s[|p|..], p)
    else PyCount(s[1..], p)
  }

  /** value.count('"') - value.count('\\"'), the source's test for quotes to escape. */
  function QuoteCount(v: string): int {
    PyCount(v, "\"") - PyCount(v, "\\\"")
  }

  /** Every quote of s is preceded by a backslash (or, for the first, by what precedes s). */
  predicate QuotesEscapedFrom(s: string, afterBackslash: bool) {
    s == [] || ((s[0] == '"' ==> afterBackslash) && QuotesEscapedFrom(s[1..], s[0] == '\\'))
  }

  /** The source's quote count is exactly the number of unescaped quotes. */
  lemma {:induction false} QuoteCountIsUnescaped(v: string, afterBackslash: bool)
    ensures QuoteCount(v) - (if afterBackslash && v != [] && v[0] == '"' then 1 else 0)
      == UnescapedFrom(v, afterBackslash)
    decreases |v|
  {
    if v != [] {
      var w := v[1..];
      QuoteCountIsUnescaped(w, v[0] == '\\');
      assert PyCount(v, "\"") == (if v[0] == '"' then 1 else 0) + PyCount(w, "\"") by {
        assert v[..1] == [v[0]];
      }
      if |v| >= 2 && v[..2] == "\\\"" {
        assert w[0] == '"';
        assert |w| < 2 || w[..2] != "\\\"";
        assert PyCount(w, "\\\"") == PyCount(w[1..], "\\\"");
        assert v[2..] == w[1..];
      } else if |v| >= 2 {
        assert !(v[0] == '\\' && w[0] == '"');
      }
    }
  }

  /** The escape is what the source applies whatever the count: with no unescaped quote it changes nothing. */
  lemma {:induction false} EscapeNoop(v: string, afterBackslash: bool)
    requires UnescapedFrom(v, afterBackslash) == 0
    ensures EscapeFrom(v, afterBackslash) == v
    decreases |v|
  {
    if v != [] {
      EscapeNoop(v[1..], v[0] == '\\');
      assert v == [v[0]] + v[1..];
    }
  }

  /** The escape adds exactly one backslash per unescaped quote. */
  lemma {:induction false} EscapeLength(v: string, afterBackslash: bool)
    ensures |EscapeFrom(v, afterBackslash)| == |v| + UnescapedFrom(v, afterBackslash)
    decreases |v|
  {
    if v != [] {
      EscapeLength(v[1..], v[0] == '\\');
    }
  }

  /** The escape brings in no character but the backslash. */
  lemma {:induction false} EscapeChars(v: string, afterBackslash: bool)
    ensures forall c :: c in EscapeFrom(v, afterBackslash) ==> c in v || c == '\\'
    decreases |v|
  {
    if v != [] {
      EscapeChars(v[1..], v[0] == '\\');
      var head := EscapeChar(v[0], afterBackslash);
      assert EscapeFrom(v, afterBackslash) == head + EscapeFrom(v[1..], v[0] == '\\');
      forall c | c in EscapeFrom(v, afterBackslash) ensures c in v || c == '\\' {
        if c in head {
          assert c == v[0] || c == '\\';
        } else {
          assert c in EscapeFrom(v[1..], v[0] == '\\');
        }
      }
    }
  }

  /** After the escape every quote is escaped. */
  lemma {:induction false} EscapeEscapes(v: string, afterBackslash: bool)
    ensures QuotesEscapedFrom(EscapeFrom(v, afterBackslash), afterBackslash)
    decreases |v|
  {
    if v != [] {
      var rest := EscapeFrom(v[1..], v[0] == '\\');
      EscapeEscapes(v[1..], v[0] == '\\');
      if v[0] == '"' && !afterBackslash {
        var s := "\\\"" + rest;
        assert s[1..] == "\"" + rest;
        assert ("\"" + rest)[1..] == rest;
      } else {
        assert ([v[0]] + rest)[1..] == rest;
      }
    }
  }

  /** A text whose quotes are all escaped is left alone. */
  lemma {:induction false} EscapeFixesEscaped(s: string, afterBackslash: bool)
    requires QuotesEscapedFrom(s, afterBackslash)
    ensures EscapeFrom(s, afterBackslash) == s
    decreases |s|
  {
    if s != [] {
      EscapeFixesEscaped(s[1..], s[0] == '\\');
      assert s == [s[0]] + s[1..];
    }
  }

  /** Escaping twice is escaping once. */
  lemma EscapeIdempotent(v: string)
    ensures Escaped(Escaped(v)) == Escaped(v)
  {
    EscapeEscapes(v, false);
    EscapeFixesEscaped(Escaped(v), false);
  }

  /** Whether a backslash precedes what follows `a`, given what precedes `a`. */
  function EndsBackslash(a: string, afterBackslash: bool): bool {
    if a == [] then afterBackslash else a[|a| - 1] == '\\'
  }

  lemma EndsBackslashTail(a: string, afterBackslash: bool)
    requires a != []
    ensures EndsBackslash(a[1..], a[0] == '\\') == EndsBackslash(a, afterBackslash)
  {
    if |a| > 1 {
      assert a[1..][|a| - 2] == a[|a| - 1];
    }
  }

  /** Escaping a concatenation escapes each part, the second knowing how the first ends. */
  lemma {:induction false} EscapeAppend(a: string, b: string, afterBackslash: bool)
    ensures EscapeFrom(a + b, afterBackslash)
      == EscapeFrom(a, afterBackslash) + EscapeFrom(b, EndsBackslash(a, afterBackslash))
    decreases |a|
  {
    if a == [] {
      assert a + b == b;
    } else {
      var s := a + b;
      assert s[0] == a[0] && s[1..] == a[1..] + b;
      EscapeAppend(a[1..], b, a[0] == '\\');
      EndsBackslashTail(a, afterBackslash);
      var head := EscapeChar(a[0], afterBackslash);
      var x := EscapeFrom(a[1..], a[0] == '\\');
      var y := EscapeFrom(b, EndsBackslash(a, afterBackslash));
      assert head + (x + y) == (head + x) + y;
    }
  }

  /**
   * A quote gains a backslash exactly when the character before it is not
   * one; an already-escaped quote is kept as it is.
   */
  lemma EscapeAtQuote(a: string, b: string)
    ensures Escaped(a + "\"" + b)
      == Escaped(a) + (if EndsBackslash(a, false) then "\"" else "\\\"") + EscapeFrom(b, false)
  {
    var q := "\"" + b;
    assert a + "\"" + b == a + q;
    var p := EndsBackslash(a, false);
    EscapeAppend(a, q, false);
    assert Escaped(a + q) == Escaped(a) + EscapeFrom(q, p);
    EscapeQuoteHead(b, p);
    var x := if p then "\"" else "\\\"";
    var y := EscapeFrom(b, false);
    assert EscapeFrom(q, p) == x + y;
    assert Escaped(a) + (x + y) == Escaped(a) + x + y;
  }

  lemma EscapeQuoteHead(b: string, afterBackslash: bool)
    ensures EscapeFrom("\"" + b, afterBackslash)
      == (if afterBackslash then "\"" else "\\\"") + EscapeFrom(b, false)
  {
    var q := "\"" + b;
    assert q[0] == '"' && q[1..] == b;
  }

  // ---------------------------------------------------------------------
  // Rewriting one line
  // ---------------------------------------------------------------------

  /** The value as the source leaves it: escaped when its quote count is positive. */
  function FixedValue(v: string): string {
    if QuoteCount(v) > 0 then Escaped(v) else v
  }

  /** The test on the count changes nothing: the value always ends up escaped. */
  lemma FixedValueEscaped(v: string)
    ensures FixedValue(v) == Escaped(v)
  {
    QuoteCountIsUnescaped(v, false);
    if QuoteCount(v) <= 0 {
      EscapeNoop(v, false);
    }
  }

  /** The rewritten line: one space after the colon, the value escaped, the rest kept. */
  function Rewritten(m: KeyLine): string {
    Shape(m.indent, m.key, " ", FixedValue(m.value), m.comma)
  }

  /** One line of the scan, given whether the block is open after it. */
  function FixLine(inBlock: bool, line: string): string {
    if inBlock && Contains(line, ":") && Contains(line, "\"") then
      match MatchLine(line)
      case Some(m) => Rewritten(m)
      case None => line
    else line
  }

  /** A matched line keeps its indent, key and comma; the gap becomes one space and the value is escaped. */
  lemma RewriteKeepsParts(line: string) returns (gap: string)
    requires MatchLine(line).Some?
    ensures var m := MatchLine(line).value;
      line == Shape(m.indent, m.key, gap, m.value, m.comma)
      && Rewritten(m) == Shape(m.indent, m.key, " ", Escaped(m.value), m.comma)
  {
    gap := MatchLineParts(line);
    FixedValueEscaped(MatchLine(line).value.value);
  }

  /** A shape's newlines are its parts' newlines. */
  lemma ShapeNoNewline(indent: string, key: string, gap: string, value: string, comma: string)
    requires '\n' !in indent && '\n' !in key && '\n' !in gap && '\n' !in value && '\n' !in comma
    ensures '\n' !in Shape(indent, key, gap, value, comma)
  {
  }

  /** Rewriting keeps the line free of newlines. */
  lemma FixLineNoNewline(inBlock: bool, line: string)
    requires '\n' !in line
    ensures '\n' !in FixLine(inBlock, line)
  {
    if FixLine(inBlock, line) != line {
      var m := MatchLine(line).value;
      var gap := MatchLineParts(line);
      FixedValueEscaped(m.value);
      EscapeChars(m.value, false);
      assert '\n' !in m.indent && '\n' !in m.key && '\n' !in m.value && '\n' !in m.comma;
      ShapeNoNewline(m.indent, m.key, " ", Escaped(m.value), m.comma);
    }
  }

  /** Running the rewrite on its own output changes nothing. */
  lemma FixLineIdempotent(line: string)
    requires '\n' !in line
    ensures '\n' !in FixLine(true, line)
    ensures FixLine(true, FixLine(true, line)) == FixLine(true, line)
  {
    FixLineNoNewline(true, line);
    var once := FixLine(true, line);
    if once != line {
      var m := MatchLine(line).value;
      var g := MatchLineParts(line);
      FixedValueEscaped(m.value);
      var e := Escaped(m.value);
      assert once == Shape(m.indent, m.key, " ", e, m.comma);
      EscapeLength(m.value, false);
      assert AllSpace(" ");
      MatchLineOf(m.indent, m.key, " ", e, m.comma);
      ShapeContains(m.indent, m.key, " ", e, m.comma);
      FixedValueEscaped(e);
      EscapeIdempotent(m.value);
    }
  }

  // ---------------------------------------------------------------------
  // The line scan and the whole file
  // ---------------------------------------------------------------------

  predicate NoNewlines(lines: seq<string>) {
    forall i :: 0 <= i < |lines| ==> '\n' !in lines[i]
  }

  /** A scan of the lines: each line goes through `fix` with the block state after it. */
  function Scanned(lines: seq<string>, fix: (bool, string) -> string): seq<string> {
    if lines == [] then []
    else Scanned(lines[..|lines| - 1], fix) + [fix(InBlockAfter(lines), lines[|lines| - 1])]
  }

  /** A scan keeps the number of lines and treats each with the block state after it. */
  lemma {:induction false} ScannedSpec(lines: seq<string>, fix: (bool, string) -> string)
    ensures |Scanned(lines, fix)| == |lines|
    ensures forall i :: 0 <= i < |lines| ==>
      Scanned(lines, fix)[i] == fix(InBlockAfter(lines[..i + 1]), lines[i])
  {
    if lines != [] {
      var n := |lines| - 1;
      var init := lines[..n];
      ScannedSpec(init, fix);
      forall i | 0 <= i < |lines|
        ensures Scanned(lines, fix)[i] == fix(InBlockAfter(lines[..i + 1]), lines[i])
      {
        if i < n {
          assert Scanned(lines, fix)[i] == Scanned(init, fix)[i];
          assert init[..i + 1] == lines[..i + 1] && init[i] == lines[i];
        } else {
          assert lines[..i + 1] == lines;
        }
      }
    }
  }

  /** One more line of a scan. */
  lemma ScannedStep(lines: seq<string>, k: nat, fix: (bool, string) -> string)
    requires k < |lines|
    ensures InBlockAfter(lines[..k + 1]) == Toggle(InBlockAfter(lines[..k]), lines[k])
    ensures Scanned(lines[..k + 1], fix) == Scanned(lines[..k], fix) + [fix(InBlockAfter(lines[..k + 1]), lines[k])]
  {
    var p := lines[..k + 1];
    assert p[..k] == lines[..k] && p[k] == lines[k];
  }

  /** The scanned lines of the file. */
  function FixedLines(lines: seq<string>): seq<string> {
    Scanned(lines, FixLine)
  }

  /** The scan keeps the number of lines and fixes each with the block state after it. */
  lemma FixedLinesSpec(lines: seq<string>)
    ensures |FixedLines(lines)| == |lines|
    ensures forall i :: 0 <= i < |lines| ==>
      FixedLines(lines)[i] == FixLine(InBlockAfter(lines[..i + 1]), lines[i])
  {
    ScannedSpec(lines, FixLine);
  }

  /** Line i of the scan is the rewrite of line i when it is a candidate, and line i itself otherwise. */
  lemma FixedLineAt(lines: seq<string>, i: nat)
    requires i < |lines|
    ensures |FixedLines(lines)| == |lines|
    ensures FixedLines(lines)[i] == if Candidate(lines, i) then FixLine(true, lines[i]) else lines[i]
  {
    FixedLinesSpec(lines);
    InBlockAfterIff(lines, i);
  }

  /** The scanned lines hold no newline. */
  lemma FixedLinesNoNewlines(lines: seq<string>)
    requires NoNewlines(lines)
    ensures NoNewlines(FixedLines(lines))
  {
    FixedLinesSpec(lines);
    forall i | 0 <= i < |lines| ensures '\n' !in FixedLines(lines)[i] {
      FixLineNoNewline(InBlockAfter(lines[..i + 1]), lines[i]);
    }
  }

  /** The lines of the translated text. */
  function TranslatedLines(content: string, pairs: seq<(string, string)>): (lines: seq<string>)
    ensures NoNewlines(lines)
  {
    Split(Translated(content, pairs), '\n')
  }

  /** The fixed file. */
  function FixedContent(content: string, pairs: seq<(string, string)>): string {
    Join(FixedLines(TranslatedLines(content, pairs)), "\n")
  }

  /** The fixed file has as many lines as the translated one, and each is its line fixed. */
  lemma FixedContentLines(content: string, pairs: seq<(string, string)>)
    ensures Split(FixedContent(content, pairs), '\n') == FixedLines(TranslatedLines(content, pairs))
    ensures |Split(FixedContent(content, pairs), '\n')| == |TranslatedLines(content, pairs)|
  {
    var lines := TranslatedLines(content, pairs);
    FixedLinesSpec(lines);
    FixedLinesNoNewlines(lines);
    SplitJoin(FixedLines(lines), '\n');
  }

  /** Without candidate lines the scan gives the translated text back. */
  lemma FixedContentOutsideBlock(content: string, pairs: seq<(string, string)>)
    requires forall i :: 0 <= i < |TranslatedLines(content, pairs)| ==> !Candidate(TranslatedLines(content, pairs), i)
    ensures FixedContent(content, pairs) == Translated(content, pairs)
  {
    var lines := TranslatedLines(content, pairs);
    FixedLinesSpec(lines);
    forall i | 0 <= i < |lines| ensures FixedLines(lines)[i] == lines[i] {
      FixedLineAt(lines, i);
    }
    assert FixedLines(lines) == lines;
    JoinSplit(Translated(content, pairs), '\n');
  }

  /** The body of the line loop once the flag is updated. */
  method RewriteLine(inBlock: bool, line: string) returns (r: string)
    ensures r == FixLine(inBlock, line)
  {
    r := line;
    if inBlock && Contains(line, ":") && Contains(line, "\"") {
      var m := MatchLine(line);
      if m.Some? {
        var value := m.value.value;
        if QuoteCount(value) > 0 {
          value := Escaped(value);
        }
        assert value == FixedValue(m.value.value);
        r := Shape(m.value.indent, m.value.key, " ", value, m.value.comma);
      }
    }
  }

  /** The line loop with its in-block flag. */
  method ScanLines(lines: seq<string>) returns (fixed: seq<string>)
    ensures fixed == FixedLines(lines)
  {
    fixed := [];
    var inBlock := false;
    var k := 0;
    while k < |lines|
      invariant 0 <= k <= |lines|
      invariant inBlock == InBlockAfter(lines[..k])
      invariant fixed == FixedLines(lines[..k])
    {
      ScannedStep(lines, k, FixLine);
      var line := lines[k];
      if Contains(line, SurveyMarker) {
        inBlock := true;
      } else if inBlock && PyStrip(line) == BlockEnd {
        inBlock := false;
      }
      line := RewriteLine(inBlock, line);
      fixed := fixed + [line];
      k := k + 1;
    }
    assert lines[..|lines|] == lines;
  }

  /**
   * fix_chapter_file on the text of a file: the fixed text, and whether it
   * differs from the original, which is when the file is written back.
   */
  method FixChapterFile(content: string, pairs: seq<(string, string)>) returns (written: bool, fixed: string)
    ensures fixed == FixedContent(content, pairs)
    ensures written <==> fixed != content
  {
    var translated := ApplyTranslations(content, pairs);
    var lines := Split(translated, '\n');
    var fixedLines := ScanLines(lines);
    fixed := Join(fixedLines, "\n");
    written := fixed != content;
  }

  /** fix_chapter_file with the discussion table. */
  method FixDiscussionFile(content: string) returns (written: bool, fixed: string)
    ensures fixed == FixedContent(content, DiscussionTranslations())
    ensures written <==> fixed != content
  {
    written, fixed := FixChapterFile(content, DiscussionTranslations());
  }
}
