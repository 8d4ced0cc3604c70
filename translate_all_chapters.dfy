/**
 * The chapter translator: it reads the English questions, options and
 * discussion prompts of a "cap N" sheet, and it writes them into the
 * matching chapter page by regular-expression rewrites of the option
 * inputs, the option labels and the conversation fields.
 */
module TranslateChapters {
  import opened Wrappers
  import opened Text
  import opened Workbook
  import opened Rewrite
  import opened Survey

  // ---------------------------------------------------------------------
  // Reading a chapter sheet
  // ---------------------------------------------------------------------

  datatype Question = Question(text: string, options: seq<string>)

  datatype ChapterContent = ChapterContent(questions: seq<Question>, prompts: seq<string>)

  /** The reader between rows: what it kept, the open question and whether prompts have begun. */
  datatype Reader = Reader(questions: seq<Question>, prompts: seq<string>, current: Option<Question>, inDiscussion: bool)

  const Start: Reader := Reader([], [], None, false)

  predicate IsIntro(text: string) {
    StartsWith(text, "To achieve better") || StartsWith(text, "Each chapter")
  }

  /** Digits, a dot and a space: a chapter title such as "4. Needs". */
  predicate IsTitle(text: string) {
    var n := DigitRun(text);
    n > 0 && n + 1 < |text| && text[n] == '.' && IsPySpace(text[n + 1])
  }

  predicate OpensDiscussion(text: string) {
    StartsWith(Lower(text), "discuss")
  }

  predicate IsQuestionLine(text: string) {
    EndsWith(text, "?") || EndsWith(text, ":")
  }

  /** The option a line gives: its text after a bullet, a letter prefix or a box, trimmed. */
  function OptionText(text: string): Option<string> {
    if |text| > 0 && IsBullet(text[0]) then Some(PyStrip(text[1..]))
    else if IsLettered(text) then Some(PyStrip(text[2..]))
    else if |text| > 0 && IsBox(text[0]) then Some(PyStrip(text[1..]))
    else None
  }

  /** The kept questions once the open one is closed: it is kept only with an option. */
  function Closed(questions: seq<Question>, current: Option<Question>): seq<Question> {
    if current.Some? && |current.value.options| > 0 then questions + [current.value] else questions
  }

  /** What one row does to the reader. */
  function Step(r: Reader, cell: Option<string>): Reader {
    if cell.None? then r
    else
      var text := PyStrip(cell.value);
      if text == [] || IsIntro(text) || IsTitle(text) then r
      else if OpensDiscussion(text) then r.(inDiscussion := true)
      else if r.inDiscussion then
        if text[0] != '•' then r.(prompts := r.prompts + [text]) else r
      else if IsQuestionLine(text) then
        r.(questions := Closed(r.questions, r.current), current := Some(Question(text, [])))
      else
        match OptionText(text)
        case Some(o) =>
          if r.current.Some? then
            r.(current := Some(r.current.value.(options := r.current.value.options + [o])))
          else r
        case None => r
  }

  /** The reader after the first cells of the rows, from r. */
  function Run(r: Reader, rows: seq<seq<Option<string>>>): Reader {
    if rows == [] then r
    else Step(Run(r, rows[..|rows| - 1]), FirstCell(rows[|rows| - 1]))
  }

  /** extract_chapter_content: the kept questions and the prompts of a sheet. */
  function Extracted(rows: seq<seq<Option<string>>>): ChapterContent {
    var r := Run(Start, rows);
    ChapterContent(Closed(r.questions, r.current), r.prompts)
  }

  lemma {:induction false} RunAppend(r: Reader, a: seq<seq<Option<string>>>, b: seq<seq<Option<string>>>)
    ensures Run(r, a + b) == Run(Run(r, a), b)
    decreases |b|
  {
    if b == [] {
      assert a + b == a;
    } else {
      assert (a + b)[..|a + b| - 1] == a + b[..|b| - 1];
      assert (a + b)[|a + b| - 1] == b[|b| - 1];
      RunAppend(r, a, b[..|b| - 1]);
    }
  }

  /** Every kept question is a question line with at least one option. */
  ghost predicate Sound(r: Reader) {
    (forall q :: q in r.questions ==> |q.options| > 0 && IsQuestionLine(q.text))
    && (r.current.Some? ==> IsQuestionLine(r.current.value.text))
  }

  lemma StepSound(r: Reader, cell: Option<string>)
    requires Sound(r)
    ensures Sound(Step(r, cell))
  {
  }

  lemma {:induction false} RunSound(r: Reader, rows: seq<seq<Option<string>>>)
    requires Sound(r)
    ensures Sound(Run(r, rows))
  {
    if rows != [] {
      RunSound(r, rows[..|rows| - 1]);
      StepSound(Run(r, rows[..|rows| - 1]), FirstCell(rows[|rows| - 1]));
    }
  }

  /** Every question read from a sheet ends in '?' or ':' and has an option. */
  lemma ExtractedSound(rows: seq<seq<Option<string>>>)
    ensures forall q :: q in Extracted(rows).questions ==> |q.options| > 0 && IsQuestionLine(q.text)
  {
    RunSound(Start, rows);
  }

  /** Questions are only ever added after the ones already kept. */
  lemma {:induction false} RunKeepsQuestions(r: Reader, rows: seq<seq<Option<string>>>)
    ensures r.questions <= Run(r, rows).questions
  {
    if rows != [] {
      RunKeepsQuestions(r, rows[..|rows| - 1]);
    }
  }

  /**
   * Once a discussion has begun it never ends: no question or option is
   * read any more, and prompts are only added.
   */
  lemma {:induction false} DiscussionSticky(r: Reader, rows: seq<seq<Option<string>>>)
    requires r.inDiscussion
    ensures var s := Run(r, rows);
      s.inDiscussion && s.questions == r.questions && s.current == r.current && r.prompts <= s.prompts
  {
    if rows != [] {
      DiscussionSticky(r, rows[..|rows| - 1]);
    }
  }

  /** The trimmed text of a row's first cell, if it has one. */
  function RowText(row: seq<Option<string>>): Option<string> {
    var cell := FirstCell(row);
    if cell.Some? then Some(PyStrip(cell.value)) else None
  }

  /** Without a line that opens a discussion, a sheet has no prompts. */
  lemma {:induction false} NoDiscussionNoPrompts(rows: seq<seq<Option<string>>>)
    requires forall i :: 0 <= i < |rows| && RowText(rows[i]).Some? ==> !OpensDiscussion(RowText(rows[i]).value)
    ensures !Run(Start, rows).inDiscussion && Extracted(rows).prompts == []
  {
    if rows != [] {
      NoDiscussionNoPrompts(rows[..|rows| - 1]);
    }
  }

  /** Without a question line, the options of a sheet are all dropped. */
  lemma {:induction false} NoQuestionNoOptions(rows: seq<seq<Option<string>>>)
    requires forall i :: 0 <= i < |rows| && RowText(rows[i]).Some? ==> !IsQuestionLine(RowText(rows[i]).value)
    ensures Run(Start, rows).current == None && Extracted(rows).questions == []
  {
    if rows != [] {
      NoQuestionNoOptions(rows[..|rows| - 1]);
    }
  }

  method ExtractChapterContent(rows: seq<seq<Option<string>>>) returns (content: ChapterContent)
    ensures content == Extracted(rows)
  {
    var questions: seq<Question> := [];
    var prompts: seq<string> := [];
    var current: Option<Question> := None;
    var inDiscussion := false;
    var k := 0;
    while k < |rows|
      invariant 0 <= k <= |rows|
      invariant Reader(questions, prompts, current, inDiscussion) == Run(Start, rows[..k])
    {
      assert rows[..k + 1][..k] == rows[..k];
      var cell := FirstCell(rows[k]);
      k := k + 1;
      if cell.None? {
        continue;
      }
      var text := PyStrip(cell.value);
      if text == [] || IsIntro(text) || IsTitle(text) {
        continue;
      }
      if OpensDiscussion(text) {
        inDiscussion := true;
        continue;
      }
      if inDiscussion {
        if text[0] != '•' {
          prompts := prompts + [text];
        }
        continue;
      }
      if IsQuestionLine(text) {
        questions := Closed(questions, current);
        current := Some(Question(text, []));
        continue;
      }
      var option := OptionText(text);
      if option.Some? && current.Some? {
        current := Some(current.value.(options := current.value.options + [option.value]));
      }
    }
    assert rows[..|rows|] == rows;
    content := ChapterContent(Closed(questions, current), prompts);
  }

  // ---------------------------------------------------------------------
  // The rewrites of a chapter page
  // ---------------------------------------------------------------------

  /** The four regular expressions the translator substitutes with. */
  datatype Pattern =
    | InputValue(id: string)          // (<input[^>]*id="ID"[^>]*value=")[^"]*(")
    | LabelFor(id: string)            // (<label for="ID">)[^<]*(</label>)
    | ConversationLabel(name: string) // (<label for="NAME"[^>]*>)[^<]*(</label>)
    | ConversationValue(name: string) // (NAME:\s*")[^"]*(")

  const InputOpen: string := "<input"
  const ValueOpen: string := "value=\""
  const LabelClose: string := "</label>"

  function IdAttr(id: string): string { "id=\"" + id + "\"" }

  function LabelTag(id: string): string { "<label for=\"" + id + "\">" }

  function ConversationTag(name: string): string { "<label for=\"" + name + "\"" }

  /** The literal text every match of the pattern starts with. */
  function Opening(p: Pattern): string {
    match p
    case InputValue(_) => InputOpen
    case LabelFor(id) => LabelTag(id)
    case ConversationLabel(name) => ConversationTag(name)
    case ConversationValue(name) => name + ":"
  }

  /** `value="` at b, with a closing quote somewhere after it. */
  predicate ValueAt(h: string, b: nat) {
    OccursAt(h, ValueOpen, b) && FirstFrom(h, '"', b + 7) < |h|
  }

  /** The last b in [lo, hi] where ValueAt holds: the greedy `[^>]*` picks it. */
  function LastValue(h: string, lo: nat, hi: int): (r: Option<nat>)
    ensures r.Some? ==> lo <= r.value <= hi && ValueAt(h, r.value)
    decreases hi - lo + 1
  {
    if hi < lo then None
    else if ValueAt(h, hi) then Some(hi)
    else LastValue(h, lo, hi - 1)
  }

  /**
   * `<input`, then inside the tag (up to the first `>`) an `id="ID"` before
   * the last `value="` that has a closing quote after it.
   */
  function InputHit(h: string, i: nat, id: string): (r: Option<Hit>)
    requires i <= |h|
    ensures r.Some? ==> i < r.value.keep <= r.value.close < r.value.end <= |h|
  {
    if !OccursAt(h, InputOpen, i) then None
    else TagValueHit(h, i + 6, FirstFrom(h, '>', i + 6), id)
  }

  /** Inside an input tag from lo up to its `>` at e: the last `value="`, with the id before it. */
  function TagValueHit(h: string, lo: nat, e: nat, id: string): (r: Option<Hit>)
    requires lo <= |h|
    ensures r.Some? ==> lo < r.value.keep <= r.value.close < r.value.end <= |h|
  {
    match LastValue(h, lo, e - 7)
    case None => None
    case Some(b) =>
      if Contains(h[lo..b], IdAttr(id)) then
        var q := FirstFrom(h, '"', b + 7);
        Some(Hit(b + 7, q, q + 1))
      else None
  }

  /** The label tag, then text up to the first `<`, which must open `</label>`. */
  function LabelHit(h: string, i: nat, id: string): (r: Option<Hit>)
    requires i <= |h|
    ensures r.Some? ==> i < r.value.keep <= r.value.close < r.value.end <= |h|
  {
    var tag := LabelTag(id);
    if !OccursAt(h, tag, i) then None
    else
      var c := FirstFrom(h, '<', i + |tag|);
      if OccursAt(h, LabelClose, c) then Some(Hit(i + |tag|, c, c + 8)) else None
  }

  /** The conversation tag up to its `>`, then text up to `</label>`. */
  function ConversationLabelHit(h: string, i: nat, name: string): (r: Option<Hit>)
    requires i <= |h|
    ensures r.Some? ==> i < r.value.keep <= r.value.close < r.value.end <= |h|
  {
    var tag := ConversationTag(name);
    if !OccursAt(h, tag, i) then None
    else
      var e := FirstFrom(h, '>', i + |tag|);
      if e == |h| then None
      else
        var c := FirstFrom(h, '<', e + 1);
        if OccursAt(h, LabelClose, c) then Some(Hit(e + 1, c, c + 8)) else None
  }

  /** `NAME:`, spaces, a quote, then text up to the next quote. */
  function ConversationValueHit(h: string, i: nat, name: string): (r: Option<Hit>)
    requires i <= |h|
    ensures r.Some? ==> i < r.value.keep <= r.value.close < r.value.end <= |h|
  {
    var key := name + ":";
    if !OccursAt(h, key, i) then None
    else
      var w := i + |key| + LeadingCount(h[i + |key|..], IsPySpace);
      if w == |h| || h[w] != '"' then None
      else
        var q := FirstFrom(h, '"', w + 1);
        if q == |h| then None else Some(Hit(w + 1, q, q + 1))
  }

  function Match(p: Pattern, h: string, i: nat): (r: Option<Hit>)
    ensures r.Some? ==> i < r.value.keep <= r.value.close < r.value.end <= |h|
  {
    if i > |h| then None
    else
      match p
      case InputValue(id) => InputHit(h, i, id)
      case LabelFor(id) => LabelHit(h, i, id)
      case ConversationLabel(name) => ConversationLabelHit(h, i, name)
      case ConversationValue(name) => ConversationValueHit(h, i, name)
  }

  /** Where the opening text is not, no match starts. */
  lemma NoOpeningNoHit(p: Pattern, h: string, i: nat)
    requires !OccursAt(h, Opening(p), i)
    ensures Match(p, h, i).None?
  {
  }

  /** The matches of a pattern, position by position. */
  function Hits(p: Pattern, h: string): nat -> Option<Hit> {
    (j: nat) => Match(p, h, j)
  }

  function Substituted(h: string, p: Pattern, text: string): string {
    SubFrom(h, Hits(p, h), text, 0)
  }

  /** Each start position of the opening text is the only place a match can begin. */
  lemma NoOpeningNoHits(h: string, p: Pattern, i: nat, k: nat)
    requires forall j :: i <= j < k ==> !OccursAt(h, Opening(p), j)
    ensures forall j :: i <= j < k ==> Hits(p, h)(j).None?
  {
    forall j | i <= j < k ensures Hits(p, h)(j).None? {
      NoOpeningNoHit(p, h, j);
    }
  }

  /** A page without the opening text comes through unchanged. */
  lemma SubstitutedAbsent(h: string, p: Pattern, text: string)
    requires !Contains(h, Opening(p))
    ensures Substituted(h, p, text) == h
  {
    ContainsIff(h, Opening(p));
    NoOpeningNoHits(h, p, 0, |h|);
    SubFromSkip(h, Hits(p, h), text, 0, |h|);
    assert h[0..|h|] == h;
  }

  /**
   * With one match, at i, and no other opening text before or after it, the
   * page is rewritten at that match alone.
   */
  lemma SubstitutedOnce(h: string, p: Pattern, text: string, i: nat)
    requires Match(p, h, i).Some?
    requires forall j :: 0 <= j < i ==> !OccursAt(h, Opening(p), j)
    requires forall j :: Match(p, h, i).value.end <= j ==> !OccursAt(h, Opening(p), j)
    ensures var m := Match(p, h, i).value;
      Substituted(h, p, text) == h[..m.keep] + text + h[m.close..]
  {
    var m := Match(p, h, i).value;
    NoOpeningNoHits(h, p, 0, i);
    NoOpeningNoHits(h, p, m.end, |h|);
    SubFromOnce(h, Hits(p, h), text, i, m);
  }

  /**
   * A label `<label for="ID">WAS</label>` whose tag occurs once in the page
   * has WAS replaced by the text, and nothing else changes.
   */
  lemma LabelRewritten(pre: string, id: string, was: string, post: string, text: string)
    requires '<' !in was
    requires forall j :: OccursAt(pre + LabelTag(id) + was + LabelClose + post, LabelTag(id), j) ==> j == |pre|
    ensures Substituted(pre + LabelTag(id) + was + LabelClose + post, LabelFor(id), text)
         == pre + LabelTag(id) + text + LabelClose + post
  {
    var tag := LabelTag(id);
    var page := pre + tag + was + LabelClose + post;
    LabelPage(page, pre, tag, was, post);
    LabelOnce(page, id, |pre|, |pre| + |tag| + |was|, text);
  }

  /** Where the parts of a label lie in the page. */
  lemma LabelPage(page: string, pre: string, tag: string, was: string, post: string)
    requires page == pre + tag + was + LabelClose + post && '<' !in was
    ensures OccursAt(page, tag, |pre|)
    ensures OccursAt(page, LabelClose, |pre| + |tag| + |was|)
    ensures FirstFrom(page, '<', |pre| + |tag|) == |pre| + |tag| + |was|
    ensures page[..|pre| + |tag|] == pre + tag
    ensures page[|pre| + |tag| + |was|..] == LabelClose + post
  {
    var e := pre + tag;
    var b := e + was;
    var a := b + LabelClose;
    LabelPageTag(page, pre, tag, e, b, a, post);
    LabelPageClose(page, b, a, post);
    FirstAfter(e, was, LabelClose, '<');
    FirstFromPrefix(a, post, '<', |e|);
  }

  lemma LabelPageTag(page: string, pre: string, tag: string, e: string, b: string, a: string, post: string)
    requires e == pre + tag && |e| <= |b| && b[..|e|] == e && |b| <= |a| && a[..|b|] == b && page == a + post
    ensures OccursAt(page, tag, |pre|) && page[..|pre| + |tag|] == e
  {
    OccursEnd(pre, tag);
    assert b == e + b[|e|..];
    OccursExtend(e, b[|e|..], tag, |pre|);
    assert a == b + a[|b|..];
    OccursExtend(b, a[|b|..], tag, |pre|);
    OccursExtend(a, post, tag, |pre|);
    TakeAppend(a, post, |e|);
  }

  lemma LabelPageClose(page: string, b: string, a: string, post: string)
    requires a == b + LabelClose && page == a + post
    ensures OccursAt(page, LabelClose, |b|) && page[|b|..] == LabelClose + post
  {
    OccursEnd(b, LabelClose);
    OccursExtend(a, post, LabelClose, |b|);
    DropAppend(a, post, |b|);
  }

  /** The label tag once in the page, at i, followed by text up to `</label>` at c. */
  lemma LabelOnce(page: string, id: string, i: nat, c: nat, text: string)
    requires OccursAt(page, LabelTag(id), i) && OccursAt(page, LabelClose, c)
    requires FirstFrom(page, '<', i + |LabelTag(id)|) == c
    requires forall j :: OccursAt(page, LabelTag(id), j) ==> j == i
    ensures Substituted(page, LabelFor(id), text) == page[..i + |LabelTag(id)|] + text + page[c..]
  {
    assert Match(LabelFor(id), page, i) == Some(Hit(i + |LabelTag(id)|, c, c + 8));
    SubstitutedOnce(page, LabelFor(id), text, i);
  }

  /**
   * The conversation label `<label for="NAME" ATTRS>WAS</label>`, its tag
   * once in the page, has WAS replaced by the text, and nothing else changes.
   */
  lemma ConversationLabelRewritten(pre: string, name: string, attrs: string, was: string, post: string, text: string)
    requires '>' !in attrs && '<' !in was
    requires forall j :: OccursAt(pre + ConversationTag(name) + attrs + ">" + was + LabelClose + post, ConversationTag(name), j) ==> j == |pre|
    ensures Substituted(pre + ConversationTag(name) + attrs + ">" + was + LabelClose + post, ConversationLabel(name), text)
         == pre + ConversationTag(name) + attrs + ">" + text + LabelClose + post
  {
    var tag := ConversationTag(name);
    var page := pre + tag + attrs + ">" + was + LabelClose + post;
    LabelRewrittenIn(page, name, pre, tag, attrs, was, post, text);
  }

  /** The same, with the page given as one text. */
  lemma LabelRewrittenIn(page: string, name: string, pre: string, tag: string, attrs: string, was: string,
                         post: string, text: string)
    requires tag == ConversationTag(name) && page == pre + tag + attrs + ">" + was + LabelClose + post
    requires '>' !in attrs && '<' !in was
    requires forall j :: OccursAt(page, tag, j) ==> j == |pre|
    ensures Substituted(page, ConversationLabel(name), text) == pre + tag + attrs + ">" + text + LabelClose + post
  {
    var p3 := pre + tag + attrs;
    var head := p3 + ">";
    var c := |p3| + |">"| + |was|;
    TagPage(page, pre, tag, attrs, was, post);
    OpenPage(page, pre + tag, attrs, was, post);
    LabelPage(page, p3, ">", was, post);
    ConversationLabelOnce(page, name, |pre|, |pre + tag|, |p3|, |p3| + |">"|, c, text);
    Rejoined(page, head, text, LabelClose + post, c);
    Regroup(head, text, LabelClose, post);
  }

  /** The page cut before c, with the text put after its first part. */
  lemma Rejoined(page: string, head: string, text: string, tail: string, c: nat)
    requires |head| <= c <= |page| && page[..|head|] == head && page[c..] == tail
    ensures page[..|head|] + text + page[c..] == head + text + tail
  {
  }

  /** The tag of a conversation label occurs where it was placed. */
  lemma TagPage(page: string, pre: string, tag: string, attrs: string, was: string, post: string)
    requires page == pre + tag + attrs + ">" + was + LabelClose + post
    ensures OccursAt(page, tag, |pre|)
  {
    var e := pre + tag;
    var d := e + attrs;
    var c := d + ">";
    var b := c + was;
    var a := b + LabelClose;
    OccursEnd(pre, tag);
    OccursExtend(e, attrs, tag, |pre|);
    OccursExtend(d, ">", tag, |pre|);
    OccursExtend(c, was, tag, |pre|);
    OccursExtend(b, LabelClose, tag, |pre|);
    OccursExtend(a, post, tag, |pre|);
  }

  /** The first `>` after the tag is the one that ends it. */
  lemma OpenPage(page: string, e: string, attrs: string, was: string, post: string)
    requires page == e + attrs + ">" + was + LabelClose + post && '>' !in attrs
    ensures FirstFrom(page, '>', |e|) == |e| + |attrs|
  {
    var c := e + attrs + ">";
    var b := c + was;
    var a := b + LabelClose;
    FirstAfter(e, attrs, ">", '>');
    FirstFromPrefix(c, was, '>', |e|);
    FirstFromPrefix(b, LabelClose, '>', |e|);
    FirstFromPrefix(a, post, '>', |e|);
  }

  /** The conversation tag once in the page, at i, closed by `>` at e and by `</label>` at c. */
  lemma ConversationLabelOnce(page: string, name: string, i: nat, s: nat, e: nat, o: nat, c: nat, text: string)
    requires OccursAt(page, ConversationTag(name), i) && OccursAt(page, LabelClose, c)
    requires s == i + |ConversationTag(name)| && FirstFrom(page, '>', s) == e < |page|
    requires o == e + 1 && FirstFrom(page, '<', o) == c
    requires forall j :: OccursAt(page, ConversationTag(name), j) ==> j == i
    ensures Substituted(page, ConversationLabel(name), text) == page[..e + 1] + text + page[c..]
  {
    assert Match(ConversationLabel(name), page, i) == Some(Hit(e + 1, c, c + 8));
    SubstitutedOnce(page, ConversationLabel(name), text, i);
  }

  /**
   * The script field `NAME: "WAS"`, its key once in the page, has WAS
   * replaced by the text, and nothing else changes.
   */
  lemma ConversationValueRewritten(pre: string, name: string, sp: string, was: string, post: string, text: string)
    requires forall k :: 0 <= k < |sp| ==> IsPySpace(sp[k])
    requires '"' !in was
    requires forall j :: OccursAt(pre + name + ":" + sp + "\"" + was + "\"" + post, name + ":", j) ==> j == |pre|
    ensures Substituted(pre + name + ":" + sp + "\"" + was + "\"" + post, ConversationValue(name), text)
         == pre + name + ":" + sp + "\"" + text + "\"" + post
  {
    var page := pre + name + ":" + sp + "\"" + was + "\"" + post;
    ConversationValueIn(page, pre, name, sp, was, post, text);
  }

  /** The same, with the page given as one text. */
  lemma ConversationValueIn(page: string, pre: string, name: string, sp: string, was: string, post: string,
                            text: string)
    requires page == pre + name + ":" + sp + "\"" + was + "\"" + post
    requires forall k :: 0 <= k < |sp| ==> IsPySpace(sp[k])
    requires '"' !in was
    requires forall j :: OccursAt(page, name + ":", j) ==> j == |pre|
    ensures Substituted(page, ConversationValue(name), text) == pre + name + ":" + sp + "\"" + text + "\"" + post
  {
    var head := pre + name + ":" + sp + "\"";
    KeyPage(page, pre, name, sp, was, post);
    SpacePage(page, pre, name, sp, was, post);
    QuotePage(page, head, was, post);
    ConversationValueOnce(page, name, |pre|, |sp|, |head|, |head| + |was|, text);
    Regroup(head, text, "\"", post);
  }

  /** The key of a script field occurs where it was placed. */
  lemma KeyPage(page: string, pre: string, name: string, sp: string, was: string, post: string)
    requires page == pre + name + ":" + sp + "\"" + was + "\"" + post
    ensures OccursAt(page, name + ":", |pre|)
  {
    var k1 := pre + name + ":";
    var s1 := k1 + sp;
    var q1 := s1 + "\"";
    var w1 := q1 + was;
    var w2 := w1 + "\"";
    OccursPair(pre, name, ":");
    OccursExtend(k1, sp, name + ":", |pre|);
    OccursExtend(s1, "\"", name + ":", |pre|);
    OccursExtend(q1, was, name + ":", |pre|);
    OccursExtend(w1, "\"", name + ":", |pre|);
    OccursExtend(w2, post, name + ":", |pre|);
  }

  /** After the key come exactly the spaces, then the opening quote. */
  lemma SpacePage(page: string, pre: string, name: string, sp: string, was: string, post: string)
    requires page == pre + name + ":" + sp + "\"" + was + "\"" + post
    requires forall k :: 0 <= k < |sp| ==> IsPySpace(sp[k])
    ensures LeadingCount(page[|pre| + |name + ":"|..], IsPySpace) == |sp|
  {
    var k1 := pre + name + ":";
    var s1 := k1 + sp;
    var q1 := s1 + "\"";
    var w1 := q1 + was;
    var w2 := w1 + "\"";
    DropAppend(w2, post, |k1|);
    DropAppend(w1, "\"", |k1|);
    DropAppend(q1, was, |k1|);
    DropAppend(s1, "\"", |k1|);
    assert s1[|k1|..] == sp;
    LeadingCountOf(sp, "\"", IsPySpace);
    LeadingCountPrefix(sp + "\"", was, IsPySpace);
    LeadingCountPrefix(sp + "\"" + was, "\"", IsPySpace);
    LeadingCountPrefix(sp + "\"" + was + "\"", post, IsPySpace);
  }

  /** The value runs from the opening quote, ending head, to the closing one. */
  lemma QuotePage(page: string, head: string, was: string, post: string)
    requires page == head + was + "\"" + post && '"' !in was
    ensures FirstFrom(page, '"', |head|) == |head| + |was| < |page|
    ensures page[..|head|] == head
    ensures |head| > 0 && head[|head| - 1] == '"' ==> page[|head| - 1] == '"'
    ensures page[|head| + |was|..] == "\"" + post
  {
    var w1 := head + was;
    var w2 := w1 + "\"";
    FirstAfter(head, was, "\"", '"');
    FirstFromPrefix(w2, post, '"', |head|);
    TakeAppend(w2, post, |head|);
    TakeAppend(w1, "\"", |head|);
    TakeAppend(head, was, |head|);
    DropAppend(w2, post, |w1|);
    assert w2[|w1|..] == "\"";
  }

  /**
   * The key once in the page, at i, then n spaces, the opening quote ending
   * at keep and the next quote at q.
   */
  lemma ConversationValueOnce(page: string, name: string, i: nat, n: nat, keep: nat, q: nat, text: string)
    requires OccursAt(page, name + ":", i)
    requires LeadingCount(page[i + |name + ":"|..], IsPySpace) == n
    requires keep == i + |name + ":"| + n + 1 <= |page| && page[keep - 1] == '"'
    requires FirstFrom(page, '"', keep) == q < |page|
    requires forall j :: OccursAt(page, name + ":", j) ==> j == i
    ensures Substituted(page, ConversationValue(name), text) == page[..keep] + text + page[q..]
  {
    assert Match(ConversationValue(name), page, i) == Some(Hit(keep, q, q + 1));
    SubstitutedOnce(page, ConversationValue(name), text, i);
  }

  // ---------------------------------------------------------------------
  // The option input
  // ---------------------------------------------------------------------

  /** The `<input` tag starting at j holds attr before its first `>`. */
  predicate InputTagHas(h: string, j: nat, attr: string) {
    j + 6 <= |h| && Contains(h[j + 6..FirstFrom(h, '>', j + 6)], attr)
  }

  /** An input match needs the id inside the tag. */
  lemma InputHitHas(h: string, j: nat, id: string)
    requires j <= |h| && InputHit(h, j, id).Some?
    ensures InputTagHas(h, j, IdAttr(id))
  {
    var e := FirstFrom(h, '>', j + 6);
    var b := LastValue(h, j + 6, e - 7).value;
    ContainsWiden(h, j + 6, b, e, IdAttr(id));
  }

  /** The last `value="` in a range is found by scanning down from its top. */
  lemma {:induction false} LastValueIs(h: string, lo: nat, hi: int, k: nat)
    requires lo <= k <= hi && ValueAt(h, k)
    requires forall j :: k < j <= hi ==> !ValueAt(h, j)
    ensures LastValue(h, lo, hi) == Some(k)
    decreases hi - k
  {
    if k < hi {
      LastValueIs(h, lo, hi - 1, k);
    }
  }

  /** A match at i and none anywhere else: the page is rewritten there alone. */
  lemma SubstitutedOnly(h: string, p: Pattern, text: string, i: nat)
    requires Match(p, h, i).Some?
    requires forall j :: j != i ==> Match(p, h, j).None?
    ensures var m := Match(p, h, i).value;
      Substituted(h, p, text) == h[..m.keep] + text + h[m.close..]
  {
    var m := Match(p, h, i).value;
    var hits := Hits(p, h);
    assert hits(i) == Some(m);
    SubFromOnce(h, hits, text, i, m);
  }

  /**
   * The input tag at i closes at e, its last `value="` is at bv with the id
   * before it, the value ends at the quote q, and no other input tag
   * carries the id.
   */
  lemma InputOnce(page: string, id: string, i: nat, e: nat, bv: nat, q: nat, text: string)
    requires OccursAt(page, InputOpen, i)
    requires FirstFrom(page, '>', i + 6) == e
    requires LastValue(page, i + 6, e - 7) == Some(bv)
    requires Contains(page[i + 6..bv], IdAttr(id))
    requires FirstFrom(page, '"', bv + 7) == q
    requires forall j :: j != i && OccursAt(page, InputOpen, j) ==> !InputTagHas(page, j, IdAttr(id))
    ensures Substituted(page, InputValue(id), text) == page[..bv + 7] + text + page[q..]
  {
    InputHitAt(page, id, i, e, bv, q);
    forall j: nat | j != i ensures Match(InputValue(id), page, j).None? {
      InputMiss(page, id, j);
    }
    SubstitutedOnly(page, InputValue(id), text, i);
  }

  /** The input match at i, from the positions that determine it. */
  lemma InputHitAt(page: string, id: string, i: nat, e: nat, bv: nat, q: nat)
    requires OccursAt(page, InputOpen, i)
    requires FirstFrom(page, '>', i + 6) == e
    requires LastValue(page, i + 6, e - 7) == Some(bv)
    requires Contains(page[i + 6..bv], IdAttr(id))
    requires FirstFrom(page, '"', bv + 7) == q
    ensures Match(InputValue(id), page, i) == Some(Hit(bv + 7, q, q + 1))
  {
    InputHitIs(page, id, i, e, bv, q);
  }

  /** The same for the input pattern's own function. */
  lemma InputHitIs(page: string, id: string, i: nat, e: nat, bv: nat, q: nat)
    requires OccursAt(page, InputOpen, i)
    requires FirstFrom(page, '>', i + 6) == e
    requires LastValue(page, i + 6, e - 7) == Some(bv)
    requires Contains(page[i + 6..bv], IdAttr(id))
    requires FirstFrom(page, '"', bv + 7) == q
    ensures i <= |page| && InputHit(page, i, id) == Some(Hit(bv + 7, q, q + 1))
  {
    TagValueHitIs(page, i + 6, e, id, bv, q);
  }

  lemma TagValueHitIs(page: string, lo: nat, e: nat, id: string, bv: nat, q: nat)
    requires lo <= |page| && LastValue(page, lo, e - 7) == Some(bv)
    requires Contains(page[lo..bv], IdAttr(id))
    requires FirstFrom(page, '"', bv + 7) == q
    ensures TagValueHit(page, lo, e, id) == Some(Hit(bv + 7, q, q + 1))
  {
    assert ValueAt(page, bv);
  }

  /** An input tag without the id, or no input tag at all, is no match. */
  lemma InputMiss(page: string, id: string, j: nat)
    requires OccursAt(page, InputOpen, j) ==> !InputTagHas(page, j, IdAttr(id))
    ensures Match(InputValue(id), page, j).None?
  {
    if !OccursAt(page, InputOpen, j) {
      NoOpeningNoHit(InputValue(id), page, j);
    } else if j <= |page| && InputHit(page, j, id).Some? {
      InputHitHas(page, j, id);
    }
  }

  /**
   * The option input `<input A id="ID" B value="WAS" C>`, with no other input
   * tag carrying the id and no second `value="` after the first, has WAS
   * replaced by the text, and nothing else changes.
   */
  lemma InputRewritten(pre: string, a: string, id: string, b: string, was: string, c: string, post: string, text: string)
    requires '>' !in a && '>' !in id && '>' !in b && '>' !in was && '>' !in c && '"' !in was
    requires !Contains(was + "\"" + c, ValueOpen)
    requires forall j :: j != |pre| && OccursAt(pre + InputOpen + a + IdAttr(id) + b + ValueOpen + was + "\"" + c + ">" + post, InputOpen, j) ==>
      !InputTagHas(pre + InputOpen + a + IdAttr(id) + b + ValueOpen + was + "\"" + c + ">" + post, j, IdAttr(id))
    ensures Substituted(pre + InputOpen + a + IdAttr(id) + b + ValueOpen + was + "\"" + c + ">" + post, InputValue(id), text)
         == pre + InputOpen + a + IdAttr(id) + b + ValueOpen + text + "\"" + c + ">" + post
  {
    var attr := IdAttr(id);
    var page := pre + InputOpen + a + attr + b + ValueOpen + was + "\"" + c + ">" + post;
    var head := pre + InputOpen + a + attr + b + ValueOpen;
    var v := |pre| + 6 + |a| + |attr| + |b|;
    var e := v + 7 + |was| + 1 + |c|;
    assert '>' !in attr;
    InputOpenPage(page, pre, a, attr, b, was, c, post);
    InputEndPage(page, pre, a, attr, b, was, c, post, v);
    InputAttrPage(page, pre, a, attr, b, was, c, post, v);
    InputValuePage(page, head, v, was, c, post);
    InputLaterPage(page, head, v, was, c, post);
    InputAt(page, id, |pre|, e, v, v + 7 + |was|, text);
    Regroup5(head, text, "\"", c, ">", post);
  }

  /** The input tag at i ends at e, and its last `value="` is at v. */
  lemma InputAt(page: string, id: string, i: nat, e: nat, v: nat, q: nat, text: string)
    requires OccursAt(page, InputOpen, i) && FirstFrom(page, '>', i + 6) == e
    requires i + 6 <= v && v + 7 <= e && ValueAt(page, v)
    requires forall j :: v < j <= e - 7 ==> !ValueAt(page, j)
    requires Contains(page[i + 6..v], IdAttr(id))
    requires FirstFrom(page, '"', v + 7) == q
    requires forall j :: j != i && OccursAt(page, InputOpen, j) ==> !InputTagHas(page, j, IdAttr(id))
    ensures Substituted(page, InputValue(id), text) == page[..v + 7] + text + page[q..]
  {
    LastValueIs(page, i + 6, e - 7, v);
    InputOnce(page, id, i, e, v, q, text);
  }

  /** The input tag opens where it was placed. */
  lemma InputOpenPage(page: string, pre: string, a: string, attr: string, b: string, was: string, c: string, post: string)
    requires page == pre + InputOpen + a + attr + b + ValueOpen + was + "\"" + c + ">" + post
    ensures OccursAt(page, InputOpen, |pre|)
  {
    var x0 := pre + InputOpen;
    var x1 := x0 + a;
    var x2 := x1 + attr;
    var x3 := x2 + b;
    var x4 := x3 + ValueOpen;
    var y1 := x4 + was;
    var y2 := y1 + "\"";
    var y3 := y2 + c;
    var y4 := y3 + ">";
    OccursEnd(pre, InputOpen);
    OccursExtend(x0, a, InputOpen, |pre|);
    OccursExtend(x1, attr, InputOpen, |pre|);
    OccursExtend(x2, b, InputOpen, |pre|);
    OccursExtend(x3, ValueOpen, InputOpen, |pre|);
    OccursExtend(x4, was, InputOpen, |pre|);
    OccursExtend(y1, "\"", InputOpen, |pre|);
    OccursExtend(y2, c, InputOpen, |pre|);
    OccursExtend(y3, ">", InputOpen, |pre|);
    OccursExtend(y4, post, InputOpen, |pre|);
  }

  /** The first `>` after `<input` is the one that closes the tag. */
  lemma InputEndPage(page: string, pre: string, a: string, attr: string, b: string, was: string, c: string, post: string, v: nat)
    requires page == pre + InputOpen + a + attr + b + ValueOpen + was + "\"" + c + ">" + post
    requires '>' !in a && '>' !in attr && '>' !in b && '>' !in was && '>' !in c
    requires v == |pre| + 6 + |a| + |attr| + |b|
    ensures FirstFrom(page, '>', |pre| + 6) == v + 7 + |was| + 1 + |c|
  {
    var x0 := pre + InputOpen;
    var x1 := x0 + a;
    var x2 := x1 + attr;
    var x3 := x2 + b;
    var x4 := x3 + ValueOpen;
    var y1 := x4 + was;
    var y2 := y1 + "\"";
    var y3 := y2 + c;
    var y4 := y3 + ">";
    var i := |pre| + 6;
    assert FirstFrom(x0, '>', i) == |x0|;
    FirstFromNone(a, '>', 0);
    FirstFromJoin(x0, a, '>', i);
    FirstFromNone(attr, '>', 0);
    FirstFromJoin(x1, attr, '>', i);
    FirstFromNone(b, '>', 0);
    FirstFromJoin(x2, b, '>', i);
    FirstFromNone(ValueOpen, '>', 0);
    FirstFromJoin(x3, ValueOpen, '>', i);
    FirstFromNone(was, '>', 0);
    FirstFromJoin(x4, was, '>', i);
    FirstFromNone("\"", '>', 0);
    FirstFromJoin(y1, "\"", '>', i);
    FirstFromNone(c, '>', 0);
    FirstFromJoin(y2, c, '>', i);
    FirstFromJoin(y3, ">", '>', i);
    FirstFromPrefix(y4, post, '>', i);
  }

  /** The id attribute lies between `<input` and the value attribute. */
  lemma InputAttrPage(page: string, pre: string, a: string, attr: string, b: string, was: string, c: string, post: string, v: nat)
    requires page == pre + InputOpen + a + attr + b + ValueOpen + was + "\"" + c + ">" + post
    requires v == |pre| + 6 + |a| + |attr| + |b|
    ensures Contains(page[|pre| + 6..v], attr)
  {
    var x0 := pre + InputOpen;
    var x1 := x0 + a;
    var x2 := x1 + attr;
    var x3 := x2 + b;
    var x4 := x3 + ValueOpen;
    var y1 := x4 + was;
    var y2 := y1 + "\"";
    var y3 := y2 + c;
    var y4 := y3 + ">";
    OccursEnd(x1, attr);
    OccursExtend(x2, b, attr, |x1|);
    OccursExtend(x3, ValueOpen, attr, |x1|);
    OccursExtend(x4, was, attr, |x1|);
    OccursExtend(y1, "\"", attr, |x1|);
    OccursExtend(y2, c, attr, |x1|);
    OccursExtend(y3, ">", attr, |x1|);
    OccursExtend(y4, post, attr, |x1|);
    OccursIn(page, |pre| + 6, v, attr, |x1|);
    OccursContains(page[|pre| + 6..v], attr, |x1| - (|pre| + 6));
  }

  /**
   * The value attribute ends head; its value runs to the next quote, and
   * the page splits around it.
   */
  lemma InputValuePage(page: string, head: string, v: nat, was: string, c: string, post: string)
    requires page == head + was + "\"" + c + ">" + post && '"' !in was
    requires v + 7 == |head| && head[v..] == ValueOpen
    ensures ValueAt(page, v)
    ensures FirstFrom(page, '"', v + 7) == v + 7 + |was|
    ensures page[..v + 7] == head
    ensures page[v + 7 + |was|..] == "\"" + c + ">" + post
  {
    var y1 := head + was;
    var y2 := y1 + "\"";
    var y3 := y2 + c;
    var y4 := y3 + ">";
    var k := v + 7;
    assert FirstFrom(head, '"', k) == |head|;
    FirstFromNone(was, '"', 0);
    FirstFromJoin(head, was, '"', k);
    FirstFromJoin(y1, "\"", '"', k);
    FirstFromPrefix(y2, c, '"', k);
    FirstFromPrefix(y3, ">", '"', k);
    FirstFromPrefix(y4, post, '"', k);
    assert head[v..v + 7] == ValueOpen;
    OccursExtend(head, was, ValueOpen, v);
    OccursExtend(y1, "\"", ValueOpen, v);
    OccursExtend(y2, c, ValueOpen, v);
    OccursExtend(y3, ">", ValueOpen, v);
    OccursExtend(y4, post, ValueOpen, v);
    TakeAppend(y4, post, k);
    TakeAppend(y3, ">", k);
    TakeAppend(y2, c, k);
    TakeAppend(y1, "\"", k);
    TakeAppend(head, was, k);
    var q := k + |was|;
    DropAppend(y4, post, q);
    DropAppend(y3, ">", q);
    DropAppend(y2, c, q);
    assert y2[q..] == "\"";
  }

  /** No second `value="` starts inside the tag after the one ending head. */
  lemma InputLaterPage(page: string, head: string, v: nat, was: string, c: string, post: string)
    requires page == head + was + "\"" + c + ">" + post
    requires v + 7 == |head| && head[v..] == ValueOpen
    requires !Contains(was + "\"" + c, ValueOpen)
    ensures forall j :: v < j <= v + |was| + 1 + |c| ==> !ValueAt(page, j)
  {
    var y3 := head + was + "\"" + c;
    TakeAppend(y3 + ">", post, |y3|);
    TakeAppend(y3, ">", |y3|);
    assert page[..|y3|] == y3;
    DropAppend(head + was + "\"", c, |head|);
    DropAppend(head + was, "\"", |head|);
    assert y3[|head|..] == was + "\"" + c;
    forall j | v < j <= v + |was| + 1 + |c| ensures !OccursAt(page, ValueOpen, j) {
      if j < |head| {
        assert page[j] == head[j] == ValueOpen[j - v];
      } else if OccursAt(page, ValueOpen, j) {
        OccursIn(page, |head|, |y3|, ValueOpen, j);
        assert page[|head|..|y3|] == was + "\"" + c;
        OccursContains(was + "\"" + c, ValueOpen, j - |head|);
      }
    }
  }

  // ---------------------------------------------------------------------
  // Updating one chapter page
  // ---------------------------------------------------------------------

  /** The id of option k of question j, both counted from 1: `q{j}_{k}`. */
  function OptionId(j: nat, k: nat): string {
    PositionalId("q" + NatToString(j), k)
  }

  /** Distinct (question, option) pairs have distinct ids. */
  lemma OptionIdInjective(j: nat, k: nat, j2: nat, k2: nat)
    requires OptionId(j, k) == OptionId(j2, k2)
    ensures j == j2 && k == k2
  {
    var a, a2 := NatToString(j), NatToString(j2);
    assert forall i :: 0 <= i < |a| ==> a[i] != '_';
    assert forall i :: 0 <= i < |a2| ==> a2[i] != '_';
    assert ("q" + a)[1..] == a && ("q" + a2)[1..] == a2;
    PositionalIdUnique("q" + a, k, "q" + a2, k2);
    NatToStringInjective(j, j2);
  }

  /** The two substitutions for one option: its input's value, then its label. */
  function OptionRewrite(h: string, id: string, option: string): string {
    Substituted(Substituted(h, InputValue(id), option), LabelFor(id), option)
  }

  /** The options of question q, rewritten in order. */
  function OptionsApplied(h: string, q: nat, options: seq<string>): string
    decreases |options|
  {
    if options == [] then h
    else
      var k := |options|;
      OptionRewrite(OptionsApplied(h, q, options[..k - 1]), OptionId(q, k), options[k - 1])
  }

  /** The options of every question, question by question. */
  function QuestionsApplied(h: string, questions: seq<Question>): string
    decreases |questions|
  {
    if questions == [] then h
    else
      var n := |questions|;
      OptionsApplied(QuestionsApplied(h, questions[..n - 1]), n, questions[n - 1].options)
  }

  /** The conversation field the prompt at index i fills. */
  function PromptName(i: nat): string {
    if i == 0 then "conversation" else "conversation2"
  }

  /** The two substitutions for one prompt: its label, then its value in the script. */
  function PromptRewrite(h: string, name: string, prompt: string): string {
    Substituted(Substituted(h, ConversationLabel(name), prompt), ConversationValue(name), prompt)
  }

  function PromptsApplied(h: string, prompts: seq<string>): string
    decreases |prompts|
  {
    if prompts == [] then h
    else
      var n := |prompts|;
      PromptRewrite(PromptsApplied(h, prompts[..n - 1]), PromptName(n - 1), prompts[n - 1])
  }

  /** Only the first two prompts have a field on the page. */
  function UsedPrompts(prompts: seq<string>): seq<string> {
    if |prompts| <= 2 then prompts else prompts[..2]
  }

  /** The page after every rewrite of the chapter's content. */
  function Updated(h: string, content: ChapterContent): string {
    PromptsApplied(QuestionsApplied(h, content.questions), UsedPrompts(content.prompts))
  }

  /**
   * The first prompt fills the `conversation` field, the second the
   * `conversation2` field, and any further prompt is dropped.
   */
  lemma UpdatedUsesTwoPrompts(h: string, content: ChapterContent)
    ensures content.prompts == [] ==> Updated(h, content) == QuestionsApplied(h, content.questions)
    ensures |content.prompts| == 1 ==>
      Updated(h, content) == PromptRewrite(QuestionsApplied(h, content.questions), "conversation", content.prompts[0])
    ensures |content.prompts| >= 2 ==>
      Updated(h, content) == PromptRewrite(PromptRewrite(QuestionsApplied(h, content.questions),
        "conversation", content.prompts[0]), "conversation2", content.prompts[1])
  {
    var q := QuestionsApplied(h, content.questions);
    var ps := content.prompts;
    assert Updated(h, content) == PromptsApplied(q, UsedPrompts(ps));
    if ps == [] {
    } else if |ps| == 1 {
      assert UsedPrompts(ps) == ps;
      OnePrompt(q, ps);
    } else {
      assert UsedPrompts(ps) == ps[..2];
      TwoPrompts(q, ps[..2]);
    }
  }

  lemma OnePrompt(q: string, ps: seq<string>)
    requires |ps| == 1
    ensures PromptsApplied(q, ps) == PromptRewrite(q, "conversation", ps[0])
  {
    assert ps[..0] == [];
  }

  lemma TwoPrompts(q: string, ps: seq<string>)
    requires |ps| == 2
    ensures PromptsApplied(q, ps) == PromptRewrite(PromptRewrite(q, "conversation", ps[0]), "conversation2", ps[1])
  {
    OnePrompt(q, ps[..1]);
  }

  /** A page with no input, no label and no conversation field. */
  predicate Quiet(h: string) {
    !Contains(h, InputOpen) && !Contains(h, "<label") && !Contains(h, "conversation")
  }

  /** No pattern the translator uses matches anywhere in a quiet page. */
  lemma QuietUnchanged(h: string, p: Pattern, text: string)
    requires Quiet(h)
    requires p.ConversationValue? ==> StartsWith(p.name, "conversation")
    ensures Substituted(h, p, text) == h
  {
    QuietOpening(h, p);
    SubstitutedAbsent(h, p, text);
  }

  /** Every opening the translator looks for starts with `<input`, `<label` or `conversation`. */
  lemma QuietOpening(h: string, p: Pattern)
    requires Quiet(h)
    requires p.ConversationValue? ==> StartsWith(p.name, "conversation")
    ensures !Contains(h, Opening(p))
  {
    var o := Opening(p);
    match p {
    case InputValue(_) =>
    case LabelFor(id) =>
      assert o == "<label" + (" for=\"" + id + "\">");
      if Contains(h, o) { ContainsPrefix(h, "<label", " for=\"" + id + "\">"); }
    case ConversationLabel(name) =>
      assert o == "<label" + (" for=\"" + name + "\"");
      if Contains(h, o) { ContainsPrefix(h, "<label", " for=\"" + name + "\""); }
    case ConversationValue(name) =>
      var rest := name[|"conversation"|..];
      assert o == "conversation" + (rest + ":");
      if Contains(h, o) { ContainsPrefix(h, "conversation", rest + ":"); }
    }
  }

  lemma {:induction false} OptionsQuiet(h: string, q: nat, options: seq<string>)
    requires Quiet(h)
    ensures OptionsApplied(h, q, options) == h
    decreases |options|
  {
    if options != [] {
      var k := |options|;
      OptionsQuiet(h, q, options[..k - 1]);
      QuietUnchanged(h, InputValue(OptionId(q, k)), options[k - 1]);
      QuietUnchanged(h, LabelFor(OptionId(q, k)), options[k - 1]);
    }
  }

  lemma {:induction false} QuestionsQuiet(h: string, questions: seq<Question>)
    requires Quiet(h)
    ensures QuestionsApplied(h, questions) == h
    decreases |questions|
  {
    if questions != [] {
      var n := |questions|;
      QuestionsQuiet(h, questions[..n - 1]);
      OptionsQuiet(h, n, questions[n - 1].options);
    }
  }

  lemma {:induction false} PromptsQuiet(h: string, prompts: seq<string>)
    requires Quiet(h)
    ensures PromptsApplied(h, prompts) == h
    decreases |prompts|
  {
    if prompts != [] {
      var n := |prompts|;
      PromptsQuiet(h, prompts[..n - 1]);
      assert StartsWith(PromptName(n - 1), "conversation");
      QuietUnchanged(h, ConversationLabel(PromptName(n - 1)), prompts[n - 1]);
      QuietUnchanged(h, ConversationValue(PromptName(n - 1)), prompts[n - 1]);
    }
  }

  /** A page with none of the rewritten fields is left as it is, whatever the content. */
  lemma UpdatedQuiet(h: string, content: ChapterContent)
    requires Quiet(h)
    ensures Updated(h, content) == h
  {
    QuestionsQuiet(h, content.questions);
    PromptsQuiet(h, UsedPrompts(content.prompts));
  }

  /**
   * update_chapter_file: a missing page is reported unchanged; otherwise the
   * page is rewritten and written back exactly when the text changed.
   */
  method UpdateChapterFile(file: Option<string>, content: ChapterContent) returns (updated: bool, written: Option<string>)
    ensures file.None? ==> !updated
    ensures file.Some? ==> (updated <==> Updated(file.value, content) != file.value)
    ensures written == if updated then Some(Updated(file.value, content)) else None
  {
    if file.None? {
      return false, None;
    }
    var original := file.value;
    var html := original;
    var questions := content.questions;
    var qi := 0;
    while qi < |questions|
      invariant 0 <= qi <= |questions|
      invariant html == QuestionsApplied(original, questions[..qi])
    {
      var options := questions[qi].options;
      var oi := 0;
      while oi < |options|
        invariant 0 <= oi <= |options|
        invariant html == OptionsApplied(QuestionsApplied(original, questions[..qi]), qi + 1, options[..oi])
      {
        var id := OptionId(qi + 1, oi + 1);
        html := Substituted(html, InputValue(id), options[oi]);
        html := Substituted(html, LabelFor(id), options[oi]);
        assert options[..oi + 1][..oi] == options[..oi];
        oi := oi + 1;
      }
      assert questions[..qi + 1][..qi] == questions[..qi];
      assert options[..oi] == options;
      qi := qi + 1;
    }
    assert questions[..qi] == questions;
    var prompts := content.prompts;
    if prompts != [] {
      var i := 0;
      while i < |prompts| && i < 2
        invariant 0 <= i <= 2 && i <= |prompts|
        invariant html == PromptsApplied(QuestionsApplied(original, questions), prompts[..i])
      {
        var name := if i == 0 then "conversation" else "conversation2";
        html := Substituted(html, ConversationLabel(name), prompts[i]);
        html := Substituted(html, ConversationValue(name), prompts[i]);
        assert prompts[..i + 1][..i] == prompts[..i];
        i := i + 1;
      }
      assert prompts[..i] == UsedPrompts(prompts);
    }
    updated := html != original;
    written := if updated then Some(html) else None;
  }
}
