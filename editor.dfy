/**
 * The chapter manager's editing operations: adding and removing questions
 * (with the renumbering that keeps ids `q1..qn`), editing, adding and removing
 * options, toggling a question's type, and the small helpers that read a
 * chapter number, shorten text for display and rewrite a title's `Q<n>:`
 * prefix. What the user types at each prompt is a parameter.
 */
module Editor {
  import opened Wrappers
  import opened Text
  import opened Models
  import Parser

  // ---------------------------------------------------------------------
  // Reading the user's choices
  // ---------------------------------------------------------------------

  /**
   * A 1-based menu choice among `count` items, as the 0-based index it
   * selects; None for text Atoi rejects and for numbers out of range.
   */
  function Selection(input: string, count: nat): (r: Option<nat>)
    ensures r.Some? ==> r.value < count
  {
    match GoAtoi(GoTrim(input))
    case None => None
    case Some(v) => if 1 <= v <= count then Some(v - 1) else None
  }

  /** Typing the number of an item selects it. */
  lemma SelectionOfNumber(k: nat, count: nat)
    requires k < count <= 0x7FFF_FFFF_FFFF_FFFF
    ensures Selection(NatToString(k + 1), count) == Some(k)
  {
    var s := NatToString(k + 1);
    assert IsDigit(s[0]) && IsDigit(s[|s| - 1]);
    TrimOfTrimmed(s, IsGoSpace);
    AtoiOfNat(k + 1);
    assert GoAtoi(GoTrim(s)) == Some(k + 1);
  }

  /** Text that is not a number selects nothing. */
  lemma SelectionRejectsText(input: string, count: nat)
    requires var t := GoTrim(input); t == [] || (t[0] != '-' && t[0] != '+' && !IsDigit(t[0]))
    ensures Selection(input, count) == None
  {
    AtoiRejectsNonNumeric(GoTrim(input));
  }

  /** readChapterNumber: the number typed, or 0 when it is not a positive number. */
  function ReadChapterNumber(input: string): (n: int)
    ensures n >= 0
    ensures n > 0 <==> (GoAtoi(GoTrim(input)).Some? && GoAtoi(GoTrim(input)).value > 0)
    ensures n > 0 ==> GoAtoi(GoTrim(input)) == Some(n)
  {
    match GoAtoi(GoTrim(input))
    case None => 0
    case Some(v) => if v <= 0 then 0 else v
  }

  /** A chapter number typed in decimal is read back. */
  lemma ReadChapterNumberOf(n: nat)
    requires 0 < n <= 0x7FFF_FFFF_FFFF_FFFF
    ensures ReadChapterNumber(NatToString(n)) == n
  {
    var s := NatToString(n);
    assert IsDigit(s[0]) && IsDigit(s[|s| - 1]);
    TrimOfTrimmed(s, IsGoSpace);
    AtoiOfNat(n);
  }

  // ---------------------------------------------------------------------
  // Helpers
  // ---------------------------------------------------------------------

  /**
   * truncate: s itself when it fits in maxLen, otherwise its first
   * maxLen - 3 characters and "..." (Go slices a too-short maxLen out of
   * range, so a long s needs maxLen >= 3).
   */
  function Truncate(s: string, maxLen: int): (r: string)
    requires |s| <= maxLen || maxLen >= 3
    ensures |s| <= maxLen ==> r == s
    ensures |s| > maxLen ==> |r| == maxLen && EndsWith(r, "...") && StartsWith(s, r[..maxLen - 3])
  {
    if |s| <= maxLen then s else s[..maxLen - 3] + "..."
  }

  /** Shortened text never exceeds the limit, and shortening twice changes nothing more. */
  lemma TruncateIdempotent(s: string, maxLen: int)
    requires maxLen >= 3
    ensures |Truncate(s, maxLen)| <= maxLen
    ensures Truncate(Truncate(s, maxLen), maxLen) == Truncate(s, maxLen)
  {
  }

  /**
   * replaceQuestionPrefix: when the text before the title's first ':' starts
   * with "Q", that text becomes "Q<n>"; otherwise the title is kept.
   */
  function ReplaceQuestionPrefix(title: string, n: int): (r: string) {
    var idx := IndexOf(title, ":");
    if idx == -1 then title
    else if StartsWith(title[..idx], "Q") then "Q" + IntToString(n) + title[idx..]
    else title
  }

  /** The title has a ':' and starts with "Q", the case in which the prefix is replaced. */
  predicate HasQuestionPrefix(title: string) {
    StartsWith(title, "Q") && ':' in title
  }

  /** In `Q<n><rest>` with rest starting at a ':', the first ':' is the one after the number. */
  lemma ColonAfterNumber(n: nat, rest: string)
    requires |rest| > 0 && rest[0] == ':'
    ensures var t := "Q" + NatToString(n) + rest;
      HasQuestionPrefix(t) && IndexOf(t, ":") == 1 + |NatToString(n)| && t[1 + |NatToString(n)|..] == rest
  {
    var d := NatToString(n);
    var t := "Q" + d + rest;
    assert t[1 + |d|..] == rest;
    assert t[1 + |d|] == ':';
    IndexOfSpec(t, ":");
    assert OccursAt(t, ":", 1 + |d|);
    forall j | 0 <= j < 1 + |d| ensures !OccursAt(t, ":", j) {
      assert t[j] == ("Q" + d)[j];
      if j > 0 {
        assert IsDigit(d[j - 1]);
      }
      assert t[j..j + 1][0] == t[j];
    }
  }

  /** A question-prefixed title is renumbered to `Q<n>` followed by its text from the first ':'. */
  lemma ReplaceQuestionPrefixOf(d: nat, rest: string, n: nat)
    requires |rest| > 0 && rest[0] == ':'
    ensures ReplaceQuestionPrefix("Q" + NatToString(d) + rest, n) == "Q" + NatToString(n) + rest
  {
    ColonAfterNumber(d, rest);
    var t := "Q" + NatToString(d) + rest;
    assert t[..1 + |NatToString(d)|][..1] == "Q";
  }

  /**
   * A title without a question prefix is kept; one with a prefix keeps
   * everything from its first ':' on, and the parser reads n back from it.
   */
  lemma ReplaceQuestionPrefixSpec(title: string, n: nat)
    ensures !HasQuestionPrefix(title) ==> ReplaceQuestionPrefix(title, n) == title
    ensures HasQuestionPrefix(title) ==>
      && 0 <= IndexOf(title, ":")
      && var rest := title[IndexOf(title, ":")..];
      && ReplaceQuestionPrefix(title, n) == "Q" + NatToString(n) + rest
      && |rest| > 0 && rest[0] == ':'
      && Parser.TitleDigits(ReplaceQuestionPrefix(title, n)) == Some(NatToString(n))
  {
    var idx := IndexOf(title, ":");
    IndexOfSpec(title, ":");
    if idx == -1 {
      forall k | 0 <= k < |title| ensures title[k] != ':' {
        assert !OccursAt(title, ":", k);
        assert title[k..k + 1][0] == title[k];
      }
    } else {
      assert title[idx] == ':' by { assert title[idx..idx + 1] == ":"; }
      if StartsWith(title, "Q") {
        assert idx > 0;
        assert StartsWith(title[..idx], "Q") by { assert title[..idx][..1] == title[..1]; }
        var rest := title[idx..];
        assert rest == ":" + rest[1..];
        Parser.TitleDigitsOf(NatToString(n), rest[1..]);
        assert "Q" + NatToString(n) + rest == "Q" + NatToString(n) + ":" + rest[1..];
      } else if idx > 0 {
        assert title[..idx][..1] == title[..1];
      }
    }
  }

  /** Renumbering a title twice is renumbering it once, to the last number. */
  lemma ReplaceQuestionPrefixTwice(title: string, m: nat, n: nat)
    ensures ReplaceQuestionPrefix(ReplaceQuestionPrefix(title, m), n) == ReplaceQuestionPrefix(title, n)
  {
    ReplaceQuestionPrefixSpec(title, m);
    ReplaceQuestionPrefixSpec(title, n);
    if HasQuestionPrefix(title) {
      ReplaceQuestionPrefixOf(m, title[IndexOf(title, ":")..], n);
    }
  }

  // ---------------------------------------------------------------------
  // Question ids and the renumbering after a removal
  // ---------------------------------------------------------------------

  /** `q<n>`, the id of the n-th question. */
  function QId(n: nat): (id: string)
    ensures |id| > 1 && id[0] == 'q' && id[1..] == NatToString(n)
  {
    "q" + NatToString(n)
  }

  lemma QIdInjective(m: nat, n: nat)
    requires QId(m) == QId(n)
    ensures m == n
  {
    assert QId(m)[1..] == QId(n)[1..];
    NatToStringInjective(m, n);
  }

  /** The ids are `q1..qn` by position. */
  predicate IdsInOrder(qs: seq<Question>) {
    forall k :: 0 <= k < |qs| ==> qs[k].id == QId(k + 1)
  }

  /** The ids of the questions, in order. */
  function Ids(qs: seq<Question>): (ids: seq<string>)
    ensures |ids| == |qs| && forall k :: 0 <= k < |qs| ==> ids[k] == qs[k].id
  {
    seq(|qs|, k requires 0 <= k < |qs| => qs[k].id)
  }

  /**
   * A reference after the first i renumbering steps: step k turns a
   * reference equal to the k-th survivor's old id into `q<k+1>`.
   */
  function Retargeted(olds: seq<string>, c: string, i: nat): string
    requires i <= |olds|
  {
    if i == 0 then c
    else
      var c' := Retargeted(olds, c, i - 1);
      if c' == olds[i - 1] then QId(i) else c'
  }

  /** A reference to none of the old ids is never changed. */
  lemma {:induction false} RetargetedAbsent(olds: seq<string>, c: string, i: nat)
    requires i <= |olds| && forall k :: 0 <= k < i ==> olds[k] != c
    ensures Retargeted(olds, c, i) == c
  {
    if i > 0 {
      RetargetedAbsent(olds, c, i - 1);
    }
  }

  /**
   * A reference to the t-th old id becomes `q<t+1>`, provided no earlier old
   * id equals it and no later old id equals `q<t+1>`.
   */
  lemma {:induction false} RetargetedHit(olds: seq<string>, t: nat, i: nat)
    requires t < i <= |olds|
    requires forall k :: 0 <= k < t ==> olds[k] != olds[t]
    requires forall k :: t < k < i ==> olds[k] != QId(t + 1)
    ensures Retargeted(olds, olds[t], i) == QId(t + 1)
  {
    if i == t + 1 {
      RetargetedAbsent(olds, olds[t], t);
    } else {
      RetargetedHit(olds, t, i - 1);
    }
  }

  /** The questions without the r-th one. */
  function Without(qs: seq<Question>, r: nat): (s: seq<Question>)
    requires r < |qs|
    ensures |s| == |qs| - 1
    ensures forall k :: 0 <= k < |s| ==> s[k] == qs[if k < r then k else k + 1]
  {
    qs[..r] + qs[r + 1..]
  }

  /**
   * Question k after the renumbering loop has renamed the first `renamed`
   * ids, retitled the first `titled` titles and applied `retargeted`
   * reference steps.
   */
  ghost function Stage(orig: seq<Question>, k: nat, renamed: nat, titled: nat, retargeted: nat): Question
    requires k < |orig| && retargeted <= |orig|
  {
    orig[k].(id := if k < renamed then QId(k + 1) else orig[k].id,
             title := if k < titled then ReplaceQuestionPrefix(orig[k].title, k + 1) else orig[k].title,
             conditionalOn := Retargeted(Ids(orig), orig[k].conditionalOn, retargeted))
  }

  /** Question k once the renumbering loop has run over all of qs. */
  function RenumberedAt(qs: seq<Question>, k: nat): Question
    requires k < |qs|
  {
    qs[k].(id := QId(k + 1), title := ReplaceQuestionPrefix(qs[k].title, k + 1),
           conditionalOn := Retargeted(Ids(qs), qs[k].conditionalOn, |qs|))
  }

  /** The questions after removing the r-th one and renumbering the rest. */
  function RemoveAndRenumber(qs: seq<Question>, r: nat): (s: seq<Question>)
    requires r < |qs|
  {
    var w := Without(qs, r);
    seq(|w|, k requires 0 <= k < |w| => RenumberedAt(w, k))
  }

  /**
   * One question fewer; the survivors keep their order, type, options and
   * required flag; ids are `q1..qn` by position and each title's prefix is
   * renumbered to the question's new position.
   */
  lemma RemoveAndRenumberShape(qs: seq<Question>, r: nat)
    requires r < |qs|
    ensures var s := RemoveAndRenumber(qs, r);
      && |s| == |qs| - 1
      && IdsInOrder(s)
      && forall k :: 0 <= k < |s| ==>
        var q := qs[if k < r then k else k + 1];
        && s[k].title == ReplaceQuestionPrefix(q.title, k + 1)
        && s[k].qtype == q.qtype && s[k].options == q.options && s[k].required == q.required
  {
  }

  /** The old number of the survivor at position k after removing position r. */
  function OldNumber(k: nat, r: nat): nat {
    if k < r then k + 1 else k + 2
  }

  /** The position of the survivor whose old number was m (m is not r + 1). */
  function NewPosition(m: nat, r: nat): nat
    requires m >= 1 && m != r + 1
  {
    if m <= r then m - 1 else m - 2
  }

  /** The old ids of the survivors when the ids were `q1..qn`: the removed one is missing. */
  lemma SurvivorIds(qs: seq<Question>, r: nat)
    requires r < |qs| && IdsInOrder(qs)
    ensures var olds := Ids(Without(qs, r));
      forall k :: 0 <= k < |olds| ==> olds[k] == QId(OldNumber(k, r))
  {
  }

  /**
   * With survivor ids numbered around the gap at r, the first i steps turn a
   * reference `q<m>` into the new id of its question once that question's
   * step has run, and never touch a reference to the removed `q<r+1>`.
   */
  lemma {:induction false} RetargetedAroundGap(olds: seq<string>, r: nat, m: nat, i: nat)
    requires forall k :: 0 <= k < |olds| ==> olds[k] == QId(OldNumber(k, r))
    requires m >= 1 && i <= |olds|
    ensures Retargeted(olds, QId(m), i)
      == if m != r + 1 && NewPosition(m, r) < i then QId(NewPosition(m, r) + 1) else QId(m)
  {
    if i > 0 {
      RetargetedAroundGap(olds, r, m, i - 1);
      var c' := Retargeted(olds, QId(m), i - 1);
      var o := OldNumber(i - 1, r);
      assert olds[i - 1] == QId(o);
      if m != r + 1 && NewPosition(m, r) < i - 1 {
        assert c' == QId(NewPosition(m, r) + 1);
        if c' == olds[i - 1] {
          QIdInjective(NewPosition(m, r) + 1, o);
        }
      } else {
        assert c' == QId(m);
        if c' == olds[i - 1] {
          QIdInjective(m, o);
        }
      }
    }
  }

  /**
   * When the ids were `q1..qn`, a reference to a surviving question is
   * rewritten to that question's new id.
   */
  lemma RemoveRetargetsSurvivor(qs: seq<Question>, r: nat, j: nat, t: nat)
    requires r < |qs| && IdsInOrder(qs)
    requires j < |qs| && t < |qs| && j != r && t != r && qs[j].conditionalOn == qs[t].id
    ensures var s := RemoveAndRenumber(qs, r);
      s[if j < r then j else j - 1].conditionalOn == QId(if t < r then t + 1 else t)
  {
    var w := Without(qs, r);
    var pj := if j < r then j else j - 1;
    assert w[pj] == qs[j];
    assert RemoveAndRenumber(qs, r)[pj].conditionalOn == Retargeted(Ids(w), QId(t + 1), |w|);
    SurvivorIds(qs, r);
    RetargetedAroundGap(Ids(w), r, t + 1, |w|);
  }

  /**
   * A reference to the removed question is left as it was, so it now names
   * the question that moved into the removed one's place (if any).
   */
  lemma RemoveKeepsReferenceToRemoved(qs: seq<Question>, r: nat, j: nat)
    requires r < |qs| && IdsInOrder(qs)
    requires j < |qs| && j != r && qs[j].conditionalOn == qs[r].id
    ensures var s := RemoveAndRenumber(qs, r);
      var pj := if j < r then j else j - 1;
      && s[pj].conditionalOn == QId(r + 1)
      && (r < |s| ==> s[r].id == s[pj].conditionalOn)
  {
    var w := Without(qs, r);
    var pj := if j < r then j else j - 1;
    assert w[pj] == qs[j];
    assert RemoveAndRenumber(qs, r)[pj].conditionalOn == Retargeted(Ids(w), QId(r + 1), |w|);
    SurvivorIds(qs, r);
    RetargetedAroundGap(Ids(w), r, r + 1, |w|);
  }

  /** References to anything that is not an old id are kept. */
  lemma RemoveKeepsOtherReferences(qs: seq<Question>, r: nat, j: nat)
    requires r < |qs| && j < |qs| - 1
    requires forall k :: 0 <= k < |qs| && k != r ==> qs[k].id != Without(qs, r)[j].conditionalOn
    ensures RemoveAndRenumber(qs, r)[j].conditionalOn == Without(qs, r)[j].conditionalOn
  {
    var w := Without(qs, r);
    var olds := Ids(w);
    forall k | 0 <= k < |olds| ensures olds[k] != w[j].conditionalOn {
      assert olds[k] == qs[if k < r then k else k + 1].id;
    }
    RetargetedAbsent(olds, w[j].conditionalOn, |olds|);
  }

  // ---------------------------------------------------------------------
  // Adding a question
  // ---------------------------------------------------------------------

  /** The options typed one per line, up to the first line that is blank once trimmed. */
  function EnteredOptions(lines: seq<string>): seq<QuestionOption> {
    if lines == [] || GoTrim(lines[0]) == "" then []
    else [QuestionOption(GoTrim(lines[0]), GoTrim(lines[0]))] + EnteredOptions(lines[1..])
  }

  /** How many lines come before the first blank one. */
  function EntryCount(lines: seq<string>): (n: nat)
    ensures n <= |lines|
  {
    if lines == [] || GoTrim(lines[0]) == "" then 0 else 1 + EntryCount(lines[1..])
  }

  /**
   * One option per line before the first blank line, in the order typed,
   * each with the trimmed line as both value and label.
   */
  lemma {:induction false} EnteredOptionsSpec(lines: seq<string>)
    ensures |EnteredOptions(lines)| == EntryCount(lines)
    ensures forall k :: 0 <= k < EntryCount(lines) ==>
      GoTrim(lines[k]) != "" && EnteredOptions(lines)[k] == QuestionOption(GoTrim(lines[k]), GoTrim(lines[k]))
    ensures EntryCount(lines) < |lines| ==> GoTrim(lines[EntryCount(lines)]) == ""
  {
    if lines != [] && GoTrim(lines[0]) != "" {
      EnteredOptionsSpec(lines[1..]);
      forall k | 0 < k < EntryCount(lines)
        ensures GoTrim(lines[k]) != "" && EnteredOptions(lines)[k] == QuestionOption(GoTrim(lines[k]), GoTrim(lines[k]))
      {
        assert lines[k] == lines[1..][k - 1];
      }
    }
  }

  /** The type chosen at the prompt: "2" is checkbox, anything else radio. */
  function ChosenType(choice: string): QuestionType {
    if GoTrim(choice) == "2" then Checkbox else Radio
  }

  /** The question addQuestion appends as the n-th, with the trimmed title. */
  function NewQuestion(n: nat, title: string, choice: string, lines: seq<string>): Question {
    Question(QId(n), "Q" + NatToString(n) + ": " + title, ChosenType(choice), EnteredOptions(lines), true, "")
  }

  /**
   * The new question is required, unconditional, has id `q<n>`, and a title
   * the parser reads the number n back from.
   */
  lemma NewQuestionSpec(n: nat, title: string, choice: string, lines: seq<string>)
    ensures var q := NewQuestion(n, title, choice, lines);
      && q.id == QId(n) && q.required && q.conditionalOn == ""
      && Parser.TitleDigits(q.title) == Some(NatToString(n))
      && HasQuestionPrefix(q.title)
      && ReplaceQuestionPrefix(q.title, n) == q.title
  {
    var t := NewQuestion(n, title, choice, lines).title;
    assert t == "Q" + NatToString(n) + (": " + title);
    Parser.TitleDigitsOf(NatToString(n), " " + title);
    assert t == "Q" + NatToString(n) + ":" + (" " + title);
    ColonAfterNumber(n, ": " + title);
    ReplaceQuestionPrefixOf(n, ": " + title, n);
  }

  /** Appending the next question keeps the ids `q1..qn`. */
  lemma AddKeepsIdsInOrder(qs: seq<Question>, title: string, choice: string, lines: seq<string>)
    requires IdsInOrder(qs)
    ensures IdsInOrder(qs + [NewQuestion(|qs| + 1, title, choice, lines)])
  {
  }

  // ---------------------------------------------------------------------
  // Editing a question
  // ---------------------------------------------------------------------

  /** The type toggle of editQuestion: radio becomes checkbox, anything else radio. */
  function ToggledType(t: QuestionType): (u: QuestionType)
    ensures u != t && u != Untyped
  {
    if t == Radio then Checkbox else Radio
  }

  /** Toggling a radio or checkbox question twice restores its type. */
  lemma ToggleTwice(t: QuestionType)
    requires t != Untyped
    ensures ToggledType(ToggledType(t)) == t
  {
  }

  /** A question being edited (the target of editQuestion's pointer). */
  class QuestionEditor {
    var question: Question

    constructor (q: Question)
      ensures question == q
    {
      question := q;
    }

    /** editOption: a valid choice and a non-empty label set that option's label and value. */
    method EditOption(choice: string, newLabel: string)
      modifies this
      ensures var opts := old(question.options);
        match Selection(choice, |opts|)
        case None => question == old(question)
        case Some(k) =>
          question == if newLabel == "" then old(question)
                      else old(question).(options := opts[k := QuestionOption(newLabel, newLabel)])
    {
      if |question.options| == 0 {
        return;
      }
      var sel := Selection(choice, |question.options|);
      if sel.None? {
        return;
      }
      var k := sel.value;
      if newLabel != "" {
        question := question.(options := question.options[k := QuestionOption(newLabel, newLabel)]);
      }
    }

    /** addOption: a non-blank label is appended as value and label; a blank one adds nothing. */
    method AddOption(entry: string)
      modifies this
      ensures GoTrim(entry) == "" ==> question == old(question)
      ensures GoTrim(entry) != "" ==>
        question == old(question).(options := old(question.options) + [QuestionOption(GoTrim(entry), GoTrim(entry))])
    {
      var t := GoTrim(entry);
      if t == "" {
        return;
      }
      question := question.(options := question.options + [QuestionOption(t, t)]);
    }

    /** removeOption: a valid choice removes exactly that option. */
    method RemoveOption(choice: string)
      modifies this
      ensures var opts := old(question.options);
        match Selection(choice, |opts|)
        case None => question == old(question)
        case Some(k) => question == old(question).(options := opts[..k] + opts[k + 1..])
    {
      if |question.options| == 0 {
        return;
      }
      var sel := Selection(choice, |question.options|);
      if sel.None? {
        return;
      }
      var k := sel.value;
      question := question.(options := question.options[..k] + question.options[k + 1..]);
    }

    /** The type toggle of editQuestion's menu. */
    method ToggleType()
      modifies this
      ensures question == old(question).(qtype := ToggledType(old(question.qtype)))
    {
      if question.qtype == Radio {
        question := question.(qtype := Checkbox);
      } else {
        question := question.(qtype := Radio);
      }
    }
  }

  /** What removing option k leaves: the others, in their order. */
  lemma RemovedOptionKeepsOthers(opts: seq<QuestionOption>, k: nat)
    requires k < |opts|
    ensures var s := opts[..k] + opts[k + 1..];
      |s| == |opts| - 1 && forall i :: 0 <= i < |s| ==> s[i] == opts[if i < k then i else i + 1]
  {
  }

  // ---------------------------------------------------------------------
  // Editing a chapter
  // ---------------------------------------------------------------------

  /** A chapter being edited (the target of the editor's chapter pointer). */
  class ChapterEditor {
    var chapter: Chapter

    constructor (ch: Chapter)
      ensures chapter == ch
    {
      chapter := ch;
    }

    /**
     * addQuestion: with a non-blank title, appends question n = count + 1
     * with id `q<n>`, title `Q<n>: <title>`, the chosen type, the typed
     * options and required set; a blank title adds nothing.
     */
    method AddQuestion(titleInput: string, typeChoice: string, optionLines: seq<string>)
      modifies this
      ensures GoTrim(titleInput) == "" ==> chapter == old(chapter)
      ensures GoTrim(titleInput) != "" ==>
        chapter == old(chapter).(questions := old(chapter.questions)
          + [NewQuestion(|old(chapter.questions)| + 1, GoTrim(titleInput), typeChoice, optionLines)])
    {
      var nextNum := |chapter.questions| + 1;
      var qID := QId(nextNum);
      var title := GoTrim(titleInput);
      if title == "" {
        return;
      }
      title := "Q" + NatToString(nextNum) + ": " + title;
      var qType := Radio;
      if GoTrim(typeChoice) == "2" {
        qType := Checkbox;
      }
      var options := ReadOptions(optionLines);
      var q := Question(qID, title, qType, options, true, "");
      chapter := chapter.(questions := chapter.questions + [q]);
    }

    /**
     * removeQuestion: a valid choice removes that question and renumbers
     * the rest; an invalid one (or an empty chapter) changes nothing.
     */
    method RemoveQuestion(choice: string)
      modifies this
      ensures match Selection(choice, |old(chapter.questions)|)
        case None => chapter == old(chapter)
        case Some(r) => chapter == old(chapter).(questions := RemoveAndRenumber(old(chapter.questions), r))
    {
      if |chapter.questions| == 0 {
        return;
      }
      var sel := Selection(choice, |chapter.questions|);
      if sel.None? {
        return;
      }
      var r := sel.value;
      var qs := chapter.questions[..r] + chapter.questions[r + 1..];
      qs := Renumber(qs);
      chapter := chapter.(questions := qs);
    }
  }

  /** The option-reading loop of addQuestion. */
  method ReadOptions(lines: seq<string>) returns (options: seq<QuestionOption>)
    ensures options == EnteredOptions(lines)
  {
    options := [];
    var k := 0;
    while k < |lines| && GoTrim(lines[k]) != ""
      invariant 0 <= k <= |lines|
      invariant options + EnteredOptions(lines[k..]) == EnteredOptions(lines)
    {
      var entry := GoTrim(lines[k]);
      assert lines[k..][1..] == lines[k + 1..];
      options := options + [QuestionOption(entry, entry)];
      k := k + 1;
    }
    assert lines == [] || k == |lines| || GoTrim(lines[k..][0]) == "";
  }

  /** The renumbering loops of removeQuestion. */
  method Renumber(orig: seq<Question>) returns (qs: seq<Question>)
    ensures |qs| == |orig| && forall k :: 0 <= k < |qs| ==> qs[k] == RenumberedAt(orig, k)
  {
    qs := orig;
    var i := 0;
    while i < |qs|
      invariant |qs| == |orig| && 0 <= i <= |qs|
      invariant forall k :: 0 <= k < |qs| ==> qs[k] == Stage(orig, k, i, i, i)
    {
      ghost var before := qs;
      var newID := QId(i + 1);
      var oldID := qs[i].id;
      qs := qs[i := qs[i].(id := newID)];
      qs := Retarget(qs, oldID, newID);
      qs := qs[i := qs[i].(title := ReplaceQuestionPrefix(qs[i].title, i + 1))];
      forall k | 0 <= k < |qs| ensures qs[k] == Stage(orig, k, i + 1, i + 1, i + 1) {
        RenumberStepAt(orig, k, i, before[k]);
      }
      i := i + 1;
    }
  }

  /** What one pass of the outer renumbering loop does to question k. */
  lemma RenumberStepAt(orig: seq<Question>, k: nat, i: nat, q: Question)
    requires k < |orig| && i < |orig| && q == Stage(orig, k, i, i, i)
    ensures var q1 := if k == i then q.(id := QId(i + 1)) else q;
      var q2 := if q1.conditionalOn == orig[i].id then q1.(conditionalOn := QId(i + 1)) else q1;
      var q3 := if k == i then q2.(title := ReplaceQuestionPrefix(q2.title, i + 1)) else q2;
      q3 == Stage(orig, k, i + 1, i + 1, i + 1)
  {
    assert Ids(orig)[i] == orig[i].id;
  }

  /** The inner loop of removeQuestion: every reference to oldID becomes newID. */
  method Retarget(qs: seq<Question>, oldID: string, newID: string) returns (r: seq<Question>)
    ensures |r| == |qs|
    ensures forall k :: 0 <= k < |qs| ==>
      r[k] == if qs[k].conditionalOn == oldID then qs[k].(conditionalOn := newID) else qs[k]
  {
    r := qs;
    for j := 0 to |r|
      invariant |r| == |qs|
      invariant forall k :: 0 <= k < |qs| ==>
        r[k] == if k < j && qs[k].conditionalOn == oldID then qs[k].(conditionalOn := newID) else qs[k]
    {
      if r[j].conditionalOn == oldID {
        r := r[j := r[j].(conditionalOn := newID)];
      }
    }
  }
}
