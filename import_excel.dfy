/**
 * The spreadsheet importer: it reads the Questions and UI Elements sheets
 * into per-chapter question lists and UI texts, then writes one chapter
 * page per chapter that has both. A sheet is a sequence of rows of cells as
 * the workbook reader gives them: empty, a number or a text.
 */
module ImportExcel {
  import opened Wrappers
  import opened Text
  import opened Models
  import opened Survey
  import Generator
  import Parser
  import Sorting

  /** A cell's value: None, an integer or a text. */
  datatype Cell = Empty | Num(n: int) | Str(s: string)

  type Row = seq<Cell>

  /** row[i]; a short row reads as padded with empty cells, as the sheet reader pads rows to the sheet's width. */
  function CellAt(row: Row, i: nat): Cell {
    if i < |row| then row[i] else Empty
  }

  /** Python truthiness: None, 0 and '' are false. */
  predicate Truthy(c: Cell) {
    match c
    case Empty => false
    case Num(n) => n != 0
    case Str(s) => s != ""
  }

  /** `if not row[0]`: rows whose first cell is empty, 0 or '' are skipped in both sheets. */
  predicate Skipped(row: Row) {
    !Truthy(CellAt(row, 0))
  }

  /** str() of a cell, as str.format writes it: None is written "None". */
  function PyStr(c: Cell): string {
    match c
    case Empty => "None"
    case Num(n) => IntToString(n)
    case Str(s) => s
  }

  /** `x or ''`: a false cell becomes the empty text. */
  function OrEmpty(c: Cell): (r: Cell)
    ensures r == c || r == Str("")
  {
    if Truthy(c) then c else Str("")
  }

  /**
   * The digit part of int(): decimal digits, with single underscores allowed
   * between two digits (`1_000`).
   */
  function PyDigits(s: string): (r: Option<nat>)
    ensures r.Some? ==> s != [] && IsDigit(s[0]) && IsDigit(s[|s| - 1])
    decreases |s|
  {
    if s == [] || !IsDigit(s[|s| - 1]) then None
    else if |s| == 1 then Some(DigitValue(s[0]))
    else
      var head := DropUnderscore(s[..|s| - 1]);
      var r := AppendDigit(PyDigits(head), s[|s| - 1]);
      assert r.Some? ==> head[0] == s[0];
      r
  }

  /** The value of a digit run with one more digit after it. */
  function AppendDigit(r: Option<nat>, d: char): (r': Option<nat>)
    requires IsDigit(d)
    ensures r'.Some? <==> r.Some?
  {
    match r
    case Some(v) => Some(10 * v + DigitValue(d))
    case None => None
  }

  /** The digits before the last one: one trailing underscore is skipped. */
  function DropUnderscore(init: string): (head: string)
    ensures |head| <= |init| && (head != [] ==> head[0] == init[0])
  {
    if init != [] && init[|init| - 1] == '_' then init[..|init| - 1] else init
  }

  /** A plain digit string is read as the number it spells. */
  lemma {:induction false} PyDigitsOfDigits(s: string)
    requires s != [] && AllDigits(s)
    ensures PyDigits(s) == Some(DigitsValue(s))
  {
    if |s| > 1 {
      var init := s[..|s| - 1];
      assert IsDigit(init[|init| - 1]);
      PyDigitsOfDigits(init);
    } else {
      assert DigitsValue(s[..0]) == 0;
    }
  }

  /** An underscore between two digit runs is ignored. */
  lemma {:induction false} PyDigitsSkipsUnderscore(a: string, b: string)
    requires a != [] && AllDigits(a) && b != [] && AllDigits(b)
    ensures PyDigits(a + "_" + b) == PyDigits(a + b)
  {
    var d := b[|b| - 1];
    if |b| == 1 {
      assert b == [d];
      PyDigitsUnderscoreSnoc(a, d);
      PyDigitsSnoc(a, d);
    } else {
      var b' := b[..|b| - 1];
      assert b == b' + [d];
      var u := a + "_" + b';
      var v := a + b';
      assert a + "_" + b == u + [d];
      assert a + b == v + [d];
      assert u[|u| - 1] == b'[|b'| - 1] && v[|v| - 1] == b'[|b'| - 1];
      PyDigitsSnoc(u, d);
      PyDigitsSnoc(v, d);
      PyDigitsSkipsUnderscore(a, b');
    }
  }

  /** PyDigits of a text of two or more characters ending in a digit, one step unfolded. */
  lemma PyDigitsUnfold(t: string, head: string)
    requires |t| > 1 && IsDigit(t[|t| - 1]) && head == DropUnderscore(t[..|t| - 1])
    ensures PyDigits(t) == AppendDigit(PyDigits(head), t[|t| - 1])
  {
  }

  /** One more digit after a digit. */
  lemma PyDigitsSnoc(s: string, d: char)
    requires s != [] && s[|s| - 1] != '_' && IsDigit(d)
    ensures PyDigits(s + [d]) == AppendDigit(PyDigits(s), d)
  {
    var t := s + [d];
    assert t[..|t| - 1] == s && t[|t| - 1] == d;
    PyDigitsUnfold(t, s);
  }

  /** One more digit after an underscore. */
  lemma PyDigitsUnderscoreSnoc(s: string, d: char)
    requires s != [] && IsDigit(d)
    ensures PyDigits(s + "_" + [d]) == AppendDigit(PyDigits(s), d)
  {
    var t := s + "_" + [d];
    assert t[..|t| - 1] == s + "_";
    assert DropUnderscore(s + "_") == s;
    PyDigitsUnfold(t, s);
  }

  /** Python's int() of a text: surrounding whitespace, an optional sign and the digit part. */
  function PyInt(s: string): (r: Option<int>)
    ensures r.Some? ==> PyStrip(s) != ""
  {
    var t := PyStrip(s);
    var signed := |t| > 0 && (t[0] == '+' || t[0] == '-');
    var digits := if signed then t[1..] else t;
    match PyDigits(digits)
    case None => None
    case Some(v) => Some(if signed && t[0] == '-' then -(v as int) else v as int)
  }

  /** The decimal text of a number is read back as that number. */
  lemma PyIntOfNat(n: nat)
    ensures PyInt(NatToString(n)) == Some(n)
  {
    var s := NatToString(n);
    assert IsDigit(s[0]) && IsDigit(s[|s| - 1]);
    TrimOfTrimmed(s, IsPySpace);
    PyDigitsOfDigits(s);
    NatToStringValue(n);
  }

  /** Digits with one underscore between them, such as "1_000", are read as the digits alone. */
  lemma PyIntSkipsUnderscore(a: string, b: string)
    requires a != [] && AllDigits(a) && b != [] && AllDigits(b)
    ensures PyInt(a + "_" + b) == Some(DigitsValue(a + b))
  {
    var s := a + "_" + b;
    assert IsDigit(s[0]) && IsDigit(s[|s| - 1]);
    TrimOfTrimmed(s, IsPySpace);
    PyDigitsSkipsUnderscore(a, b);
    assert AllDigits(a + b);
    PyDigitsOfDigits(a + b);
  }

  /** int() of a row's first cell: a number is itself, a text is parsed; None when int() would raise. */
  function ChapterOf(row: Row): Option<int> {
    match CellAt(row, 0)
    case Empty => None
    case Num(n) => Some(n)
    case Str(t) => PyInt(t)
  }

  /** Every row that is not skipped carries a readable chapter number. */
  predicate Readable(rows: seq<Row>) {
    forall i :: 0 <= i < |rows| && !Skipped(rows[i]) ==> ChapterOf(rows[i]).Some?
  }

  /** A sheet with an unreadable row is unreadable. */
  lemma ReadablePrefix(rows: seq<Row>, k: nat)
    requires k <= |rows| && !Readable(rows[..k])
    ensures !Readable(rows)
  {
    var i :| 0 <= i < k && !Skipped(rows[..k][i]) && ChapterOf(rows[..k][i]).None?;
    assert rows[..k][i] == rows[i];
  }

  /** Row i is read, and it belongs to chapter c. */
  predicate InChapter(row: Row, c: int) {
    !Skipped(row) && ChapterOf(row) == Some(c)
  }

  /** One more row keeps the sheet readable iff that row is skipped or readable. */
  lemma ReadableStep(rows: seq<Row>, k: nat)
    requires k < |rows|
    ensures rows[..k + 1] == rows[..k] + [rows[k]]
    ensures Readable(rows[..k + 1]) <==> Readable(rows[..k]) && (Skipped(rows[k]) || ChapterOf(rows[k]).Some?)
  {
    var r, p := rows[..k + 1], rows[..k];
    assert r == p + [rows[k]];
    if Readable(p) && (Skipped(rows[k]) || ChapterOf(rows[k]).Some?) {
      forall i | 0 <= i < |r| && !Skipped(r[i]) ensures ChapterOf(r[i]).Some? {
        if i < k {
          assert r[i] == p[i];
        }
      }
    }
    if Readable(r) {
      assert r[k] == rows[k];
      forall i | 0 <= i < |p| && !Skipped(p[i]) ensures ChapterOf(p[i]).Some? {
        assert r[i] == p[i];
      }
    }
  }

  // ---------------------------------------------------------------------
  // The Questions sheet
  // ---------------------------------------------------------------------

  /** A question's id, text and options: cells as loaded, texts once they reach the page. */
  datatype SheetQuestion<T> = SheetQuestion(id: T, text: T, options: seq<T>)

  /** `[opt for opt in cells if opt]`: the true cells, in column order. */
  function NonEmpty(cells: seq<Cell>): (r: seq<Cell>)
    ensures |r| <= |cells|
  {
    if cells == [] then []
    else NonEmpty(cells[..|cells| - 1]) + (if Truthy(cells[|cells| - 1]) then [cells[|cells| - 1]] else [])
  }

  /** NonEmpty keeps exactly the true cells: it splits over concatenation and keeps one cell iff it is true. */
  lemma {:induction false} NonEmptyAppend(a: seq<Cell>, b: seq<Cell>)
    ensures NonEmpty(a + b) == NonEmpty(a) + NonEmpty(b)
    decreases |b|
  {
    if b == [] {
      assert a + b == a;
    } else {
      assert (a + b)[..|a + b| - 1] == a + b[..|b| - 1];
      NonEmptyAppend(a, b[..|b| - 1]);
    }
  }

  lemma NonEmptyOne(c: Cell)
    ensures NonEmpty([c]) == if Truthy(c) then [c] else []
  {
    assert [c][..0] == [];
  }

  /** No kept option is empty, zero or ''. */
  lemma {:induction false} NonEmptyCells(cells: seq<Cell>)
    ensures forall i :: 0 <= i < |NonEmpty(cells)| ==> Truthy(NonEmpty(cells)[i])
  {
    if cells != [] {
      NonEmptyCells(cells[..|cells| - 1]);
    }
  }

  /** A row's options: its true cells from the fourth column on. */
  function RowOptions(row: Row): seq<Cell> {
    NonEmpty(if |row| > 3 then row[3..] else [])
  }

  /** `{'id': row[1], 'text': row[2], 'options': ...}`: the cells themselves, whatever their type. */
  function RowQuestion(row: Row): SheetQuestion<Cell> {
    SheetQuestion(CellAt(row, 1), CellAt(row, 2), RowOptions(row))
  }

  /** The questions of chapter c, in row order. */
  function QuestionsOf(rows: seq<Row>, c: int): seq<SheetQuestion<Cell>> {
    if rows == [] then []
    else
      var last := rows[|rows| - 1];
      QuestionsOf(rows[..|rows| - 1], c) + (if InChapter(last, c) then [RowQuestion(last)] else [])
  }

  /** The chapter numbers of the rows that are read. */
  function Chapters(rows: seq<Row>): set<int> {
    if rows == [] then {}
    else
      var last := rows[|rows| - 1];
      Chapters(rows[..|rows| - 1]) + (if !Skipped(last) && ChapterOf(last).Some? then {ChapterOf(last).value} else {})
  }

  /**
   * Grouping keeps row order: the questions of a sheet made of two parts are
   * those of the first part followed by those of the second.
   */
  lemma {:induction false} QuestionsOfAppend(a: seq<Row>, b: seq<Row>, c: int)
    ensures QuestionsOf(a + b, c) == QuestionsOf(a, c) + QuestionsOf(b, c)
    decreases |b|
  {
    if b == [] {
      assert a + b == a;
    } else {
      assert (a + b)[..|a + b| - 1] == a + b[..|b| - 1];
      QuestionsOfAppend(a, b[..|b| - 1], c);
    }
  }

  /** One row contributes its question to its own chapter and to no other. */
  lemma QuestionsOfOne(row: Row, c: int)
    ensures QuestionsOf([row], c) == if InChapter(row, c) then [RowQuestion(row)] else []
  {
    assert [row][..0] == [];
  }

  /** A chapter is listed iff some row contributes a question to it. */
  lemma {:induction false} ChaptersIff(rows: seq<Row>, c: int)
    ensures c in Chapters(rows) <==> QuestionsOf(rows, c) != []
  {
    if rows != [] {
      ChaptersIff(rows[..|rows| - 1], c);
    }
  }

  /** The map load_excel_data builds, one row after the other. */
  function Grouped(rows: seq<Row>): map<int, seq<SheetQuestion<Cell>>> {
    if rows == [] then map[]
    else
      var g := Grouped(rows[..|rows| - 1]);
      var last := rows[|rows| - 1];
      if !Skipped(last) && ChapterOf(last).Some? then
        var c := ChapterOf(last).value;
        g[c := (if c in g then g[c] else []) + [RowQuestion(last)]]
      else g
  }

  /** Grouped and ChapterOrder over one more row. */
  lemma GroupedStep(rows: seq<Row>, row: Row)
    ensures var g := Grouped(rows); var c := ChapterOf(row);
      Grouped(rows + [row]) ==
        if !Skipped(row) && c.Some? then g[c.value := (if c.value in g then g[c.value] else []) + [RowQuestion(row)]] else g
    ensures var order := ChapterOrder(rows); var c := ChapterOf(row);
      ChapterOrder(rows + [row]) ==
        if !Skipped(row) && c.Some? && c.value !in order then order + [c.value] else order
  {
    assert (rows + [row])[..|rows|] == rows;
  }

  /** The map has an entry for each chapter that occurs, holding its questions in row order. */
  lemma {:induction false} GroupedSpec(rows: seq<Row>)
    ensures Grouped(rows).Keys == Chapters(rows)
    ensures forall c :: c in Grouped(rows) ==> Grouped(rows)[c] == QuestionsOf(rows, c)
  {
    if rows != [] {
      var init := rows[..|rows| - 1];
      GroupedSpec(init);
      forall c ensures c !in Grouped(init) ==> QuestionsOf(init, c) == [] {
        ChaptersIff(init, c);
      }
    }
  }

  predicate NoDuplicates(s: seq<int>) {
    forall i, j :: 0 <= i < j < |s| ==> s[i] != s[j]
  }

  /** The order in which the chapters first occur: the order of the dict's keys. */
  function ChapterOrder(rows: seq<Row>): seq<int> {
    if rows == [] then []
    else
      var order := ChapterOrder(rows[..|rows| - 1]);
      var last := rows[|rows| - 1];
      if !Skipped(last) && ChapterOf(last).Some? && ChapterOf(last).value !in order then order + [ChapterOf(last).value]
      else order
  }

  /** Each chapter that occurs is listed once. */
  lemma {:induction false} ChapterOrderSpec(rows: seq<Row>)
    ensures NoDuplicates(ChapterOrder(rows))
    ensures forall c :: c in ChapterOrder(rows) <==> c in Chapters(rows)
  {
    if rows != [] {
      ChapterOrderSpec(rows[..|rows| - 1]);
    }
  }

  /** A dict from chapter numbers to question lists, with its keys in insertion order. */
  datatype QuestionsDict = QuestionsDict(keys: seq<int>, byChapter: map<int, seq<SheetQuestion<Cell>>>)

  /** The keys list each key of the map exactly once. */
  predicate KeysListed(d: QuestionsDict) {
    && NoDuplicates(d.keys)
    && (forall c :: c in d.byChapter ==> c in d.keys)
    && (forall c :: c in d.keys ==> c in d.byChapter)
  }

  /** What load_excel_data builds from a readable Questions sheet. */
  function LoadedQuestions(rows: seq<Row>): QuestionsDict {
    QuestionsDict(ChapterOrder(rows), Grouped(rows))
  }

  /**
   * The loaded dict lists every chapter that occurs once, and maps it to its
   * questions in row order.
   */
  lemma LoadedQuestionsSpec(rows: seq<Row>)
    ensures KeysListed(LoadedQuestions(rows))
    ensures forall c :: c in LoadedQuestions(rows).byChapter <==> c in Chapters(rows)
    ensures forall c :: c in LoadedQuestions(rows).byChapter ==> LoadedQuestions(rows).byChapter[c] == QuestionsOf(rows, c)
  {
    ChapterOrderSpec(rows);
    GroupedSpec(rows);
  }

  /**
   * The question half of load_excel_data: None when a read row's chapter
   * cell is not a number (int() raises), otherwise the dict of each chapter's
   * questions.
   */
  method LoadQuestions(rows: seq<Row>) returns (r: Option<QuestionsDict>)
    ensures r.Some? <==> Readable(rows)
    ensures r.Some? ==> r.value == LoadedQuestions(rows)
  {
    var m: map<int, seq<SheetQuestion<Cell>>> := map[];
    var keys: seq<int> := [];
    for k := 0 to |rows|
      invariant Readable(rows[..k])
      invariant m == Grouped(rows[..k]) && keys == ChapterOrder(rows[..k])
      invariant forall c :: c in m <==> c in keys
    {
      var row := rows[k];
      ReadableStep(rows, k);
      GroupedStep(rows[..k], row);
      if Skipped(row) {
        continue;
      }
      match ChapterOf(row)
      case None =>
        ReadablePrefix(rows, k + 1);
        return None;
      case Some(c) =>
        m, keys := AddQuestion(m, keys, c, RowQuestion(row));
    }
    assert rows[..|rows|] == rows;
    return Some(QuestionsDict(keys, m));
  }

  /** Appends a question to chapter c's list, creating the list (and its key) on first use. */
  method AddQuestion(m: map<int, seq<SheetQuestion<Cell>>>, keys: seq<int>, c: int, q: SheetQuestion<Cell>)
    returns (m': map<int, seq<SheetQuestion<Cell>>>, keys': seq<int>)
    requires forall d :: d in m <==> d in keys
    ensures m' == m[c := (if c in m then m[c] else []) + [q]]
    ensures keys' == if c in keys then keys else keys + [c]
    ensures forall d :: d in m' <==> d in keys'
  {
    m', keys' := m, keys;
    if c !in m' {
      m' := m'[c := []];
      keys' := keys' + [c];
    }
    m' := m'[c := m'[c] + [q]];
  }

  // ---------------------------------------------------------------------
  // The UI Elements sheet
  // ---------------------------------------------------------------------

  /** The ten UI texts of a chapter: cells as loaded, texts once they reach the page. */
  datatype UiData<T> = UiData(
    title: T, mainInstruction: T, conversationLabel: T, conversationPlaceholder: T,
    emailLabel: T, emailPlaceholder: T, submitButton: T, resetButton: T,
    successMessage: T, summaryTitle: T)

  /** `row[i] or ''` for the ten UI columns, from the second on. */
  function RowUi(row: Row): UiData<Cell> {
    UiData(OrEmpty(CellAt(row, 1)), OrEmpty(CellAt(row, 2)), OrEmpty(CellAt(row, 3)), OrEmpty(CellAt(row, 4)),
           OrEmpty(CellAt(row, 5)), OrEmpty(CellAt(row, 6)), OrEmpty(CellAt(row, 7)), OrEmpty(CellAt(row, 8)),
           OrEmpty(CellAt(row, 9)), OrEmpty(CellAt(row, 10)))
  }

  /** The UI texts of chapter c: those of its last row. */
  function UiOf(rows: seq<Row>, c: int): Option<UiData<Cell>> {
    if rows == [] then None
    else
      var last := rows[|rows| - 1];
      if InChapter(last, c) then Some(RowUi(last)) else UiOf(rows[..|rows| - 1], c)
  }

  /** A later row for a chapter replaces an earlier one. */
  lemma {:induction false} UiOfAppend(a: seq<Row>, b: seq<Row>, c: int)
    ensures UiOf(a + b, c) == if UiOf(b, c).Some? then UiOf(b, c) else UiOf(a, c)
    decreases |b|
  {
    if b == [] {
      assert a + b == a;
    } else {
      assert (a + b)[..|a + b| - 1] == a + b[..|b| - 1];
      UiOfAppend(a, b[..|b| - 1], c);
    }
  }

  /** A chapter has UI texts iff some row of the sheet belongs to it. */
  lemma {:induction false} UiOfChapters(rows: seq<Row>, c: int)
    ensures UiOf(rows, c).Some? <==> c in Chapters(rows)
  {
    if rows != [] {
      UiOfChapters(rows[..|rows| - 1], c);
    }
  }

  /** The UI map load_excel_data builds, one row after the other. */
  function Latest(rows: seq<Row>): map<int, UiData<Cell>> {
    if rows == [] then map[]
    else
      var g := Latest(rows[..|rows| - 1]);
      var last := rows[|rows| - 1];
      if !Skipped(last) && ChapterOf(last).Some? then g[ChapterOf(last).value := RowUi(last)] else g
  }

  /** Latest over one more row. */
  lemma LatestStep(rows: seq<Row>, row: Row)
    ensures Latest(rows + [row]) ==
      if !Skipped(row) && ChapterOf(row).Some? then Latest(rows)[ChapterOf(row).value := RowUi(row)] else Latest(rows)
  {
    assert (rows + [row])[..|rows|] == rows;
  }

  /** The map holds, for each chapter that occurs, the texts of its last row. */
  lemma {:induction false} LatestSpec(rows: seq<Row>)
    ensures forall c :: c in Latest(rows) <==> UiOf(rows, c).Some?
    ensures forall c :: c in Latest(rows) ==> Latest(rows)[c] == UiOf(rows, c).value
  {
    if rows != [] {
      LatestSpec(rows[..|rows| - 1]);
    }
  }

  /** The UI half of load_excel_data. */
  method LoadUi(rows: seq<Row>) returns (r: Option<map<int, UiData<Cell>>>)
    ensures r.Some? <==> Readable(rows)
    ensures r.Some? ==> r.value == Latest(rows)
  {
    var m: map<int, UiData<Cell>> := map[];
    for k := 0 to |rows|
      invariant Readable(rows[..k])
      invariant m == Latest(rows[..k])
    {
      var row := rows[k];
      ReadableStep(rows, k);
      LatestStep(rows[..k], row);
      if Skipped(row) {
        continue;
      }
      match ChapterOf(row)
      case None =>
        ReadablePrefix(rows, k + 1);
        return None;
      case Some(c) =>
        m := m[c := RowUi(row)];
    }
    assert rows[..|rows|] == rows;
    return Some(m);
  }

  /** load_excel_data: both sheets, or None when either has an unreadable chapter cell. */
  method LoadExcelData(questionRows: seq<Row>, uiRows: seq<Row>)
    returns (r: Option<(QuestionsDict, map<int, UiData<Cell>>)>)
    ensures r.Some? <==> Readable(questionRows) && Readable(uiRows)
    ensures r.Some? ==> r.value.0 == LoadedQuestions(questionRows) && r.value.1 == Latest(uiRows)
  {
    var qs := LoadQuestions(questionRows);
    if qs.None? {
      return None;
    }
    var ui := LoadUi(uiRows);
    if ui.None? {
      return None;
    }
    return Some((qs.value, ui.value));
  }

  // ---------------------------------------------------------------------
  // Question sections
  // ---------------------------------------------------------------------

  /**
   * The inputs of a question's options: option i (from 0) gets id
   * `{id}_{i+1}`, name id, the option text as value and caption, and
   * `required` exactly when it is the first.
   */
  function SheetOptionInputs(q: SheetQuestion<string>): (inputs: seq<OptionInput>)
    ensures |inputs| == |q.options|
  {
    seq(|q.options|, i requires 0 <= i < |q.options| =>
      OptionInput(PositionalId(q.id, i + 1), q.id, q.options[i], q.options[i], i == 0))
  }

  /** The option ids are distinct, every name is the question id, value and caption are the text, and only the first is required. */
  lemma SheetOptionRules(q: SheetQuestion<string>)
    ensures DistinctIds(SheetOptionInputs(q)) && RequiredAtMostFirst(SheetOptionInputs(q))
    ensures |q.options| > 0 ==> SheetOptionInputs(q)[0].required
    ensures forall i :: 0 <= i < |q.options| ==>
      && SheetOptionInputs(q)[i].id == PositionalId(q.id, i + 1) && SheetOptionInputs(q)[i].name == q.id
      && SheetOptionInputs(q)[i].value == q.options[i] && SheetOptionInputs(q)[i].caption == q.options[i]
  {
    var inputs := SheetOptionInputs(q);
    forall i, j | 0 <= i < j < |inputs| ensures inputs[i].id != inputs[j].id {
      var a, b := PositionalId(q.id, i + 1), PositionalId(q.id, j + 1);
      assert inputs[i].id == a && inputs[j].id == b;
      if a == b {
        PositionalIdInjective(q.id, i + 1, j + 1);
      }
    }
  }

  const Sp20: string := "                    "

  const OptionFormat: seq<string> := [
    Sp20 + "<div class=\"option\">" + Generator.Nl24 + "<input type=\"radio\" id=\"", "\" name=\"", "\" value=\"", "\"",
    ">" + Generator.Nl24 + "<label for=\"", "\">", "</label>" + Generator.Nl20 + "</div>"]

  const QuestionFormat: seq<string> := [
    Generator.Nl12 + "<!-- ",
    " -->" + Generator.Nl12 + "<div class=\"question-section\">" + Generator.Nl16 + "<div class=\"question-title\">",
    "</div>" + Generator.Nl16 + "<div class=\"options\">\n",
    Generator.Nl16 + "</div>" + Generator.Nl12 + "</div>\n"]

  /** One radio option. */
  function OptionHTML(o: OptionInput): string {
    Format(OptionFormat, [o.id, o.name, o.value, if o.required then " required" else "", o.id, o.caption])
  }

  /** The options of a question, one per input, in order. */
  function OptionHTMLs(q: SheetQuestion<string>): (parts: seq<string>)
    ensures |parts| == |q.options|
  {
    var inputs := SheetOptionInputs(q);
    seq(|inputs|, i requires 0 <= i < |inputs| => OptionHTML(inputs[i]))
  }

  /** A question section: the upper-cased id in a comment, the text as title, the options one per line. */
  function QuestionHTML(q: SheetQuestion<string>): string {
    Format(QuestionFormat, [Upper(q.id), q.text, Join(OptionHTMLs(q), "\n")])
  }

  /** The sections of the questions, in order. */
  function QuestionSections(qs: seq<SheetQuestion<string>>): (parts: seq<string>)
    ensures |parts| == |qs|
  {
    seq(|qs|, i requires 0 <= i < |qs| => QuestionHTML(qs[i]))
  }

  /** The option lines of one question, as the inner loop collects them. */
  method WriteOptionLines(q: SheetQuestion<string>) returns (lines: seq<string>)
    ensures lines == OptionHTMLs(q)
  {
    ghost var inputs := SheetOptionInputs(q);
    lines := [];
    for n := 0 to |q.options|
      invariant lines == OptionHTMLs(q)[..n]
    {
      var required := if n == 0 then " required" else "";
      var id := PositionalId(q.id, n + 1);
      assert inputs[n] == OptionInput(id, q.id, q.options[n], q.options[n], n == 0);
      lines := lines + [Format(OptionFormat, [id, q.id, q.options[n], required, id, q.options[n]])];
      assert OptionHTMLs(q)[..n + 1] == OptionHTMLs(q)[..n] + [OptionHTML(inputs[n])];
    }
    assert OptionHTMLs(q)[..|q.options|] == OptionHTMLs(q);
  }

  /** generate_question_html: the question sections concatenated in order. */
  method GenerateQuestionHtml(qs: seq<SheetQuestion<string>>) returns (html: string)
    ensures html == Concat(QuestionSections(qs))
  {
    var parts: seq<string> := [];
    for i := 0 to |qs|
      invariant parts == QuestionSections(qs)[..i]
    {
      var lines := WriteOptionLines(qs[i]);
      parts := parts + [Format(QuestionFormat, [Upper(qs[i].id), qs[i].text, Join(lines, "\n")])];
      assert QuestionSections(qs)[..i + 1] == QuestionSections(qs)[..i] + [QuestionHTML(qs[i])];
    }
    assert QuestionSections(qs)[..|qs|] == QuestionSections(qs);
    html := Concat(parts);
  }

  // ---------------------------------------------------------------------
  // The surveyQuestions entries
  // ---------------------------------------------------------------------

  /** `key: "text"` with the text's double quotes escaped. */
  function JsEntry(key: string, text: string): string {
    Generator.Nl12[1..] + key + ": \"" + EscapeQuotes(text) + "\""
  }

  /** One entry per question, keyed by its id, then the conversation entry. */
  function JsEntries(qs: seq<SheetQuestion<string>>, conversationLabel: string): (entries: seq<string>)
    ensures |entries| == |qs| + 1
  {
    seq(|qs|, i requires 0 <= i < |qs| => JsEntry(qs[i].id, qs[i].text)) + [JsEntry("conversation", conversationLabel)]
  }

  /**
   * The entries list the questions in order and always end with exactly one
   * conversation entry.
   */
  lemma JsEntriesShape(qs: seq<SheetQuestion<string>>, conversationLabel: string)
    ensures var entries := JsEntries(qs, conversationLabel);
      && (forall i :: 0 <= i < |qs| ==> entries[i] == JsEntry(qs[i].id, qs[i].text))
      && entries[|qs|] == JsEntry("conversation", conversationLabel)
      && EndsWith(Join(entries, ",\n"), JsEntry("conversation", conversationLabel))
  {
    Generator.JoinEndsWithLast(JsEntries(qs, conversationLabel), ",\n");
  }

  /**
   * An entry is its key and a quoted value in which every quote is escaped;
   * taking the escapes out gives the original text back.
   */
  lemma JsEntryReadBack(key: string, text: string)
    ensures var v := EscapeQuotes(text);
      && JsEntry(key, text) == Generator.Nl12[1..] + key + ": \"" + v + "\""
      && ReplaceAll(v, "\\\"", "\"") == text
      && forall i :: 0 <= i < |v| && v[i] == '"' ==> i > 0 && v[i - 1] == '\\'
  {
    UnescapeQuotes(text);
    EscapeQuotesGuarded(text);
  }

  /** generate_js_questions */
  method GenerateJsQuestions(qs: seq<SheetQuestion<string>>, conversationLabel: string) returns (js: string)
    ensures js == Join(JsEntries(qs, conversationLabel), ",\n")
  {
    var lines: seq<string> := [];
    for i := 0 to |qs|
      invariant lines == JsEntries(qs, conversationLabel)[..i]
    {
      lines := lines + [JsEntry(qs[i].id, qs[i].text)];
    }
    lines := lines + [JsEntry("conversation", conversationLabel)];
    assert lines == JsEntries(qs, conversationLabel);
    js := Join(lines, ",\n");
  }

  // ---------------------------------------------------------------------
  // The page and the files
  // ---------------------------------------------------------------------

  /** One entry of LANG_CONFIG. */
  datatype LangConfig = LangConfig(prefix: string, htmlLang: string, cssFile: string, jsFile: string)

  function LangConfigOf(lang: Language): LangConfig {
    if lang == English then LangConfig("chapter", "en", "survey.css", "survey.js?v=20250110005")
    else LangConfig("capitulo", "es", "survey.css", "survey.js?v=20250110005")
  }

  /** The prefix given on the command line, if any, replaces the language's in a copy of its configuration. */
  function WithPrefix(cfg: LangConfig, prefix: Option<string>): (r: LangConfig)
    ensures r.htmlLang == cfg.htmlLang && r.cssFile == cfg.cssFile && r.jsFile == cfg.jsFile
    ensures r.prefix == if prefix.Some? && prefix.value != "" then prefix.value else cfg.prefix
  {
    if prefix.Some? && prefix.value != "" then cfg.(prefix := prefix.value) else cfg
  }

  /** The importer's language settings agree with the chapter manager's file prefixes and language codes. */
  lemma LangConfigAgrees(lang: Language)
    ensures LangConfigOf(lang).prefix == FilePrefix(lang)
    ensures LangConfigOf(lang).htmlLang == LanguageCode(lang)
  {
  }

  /** The conversation title by page language. */
  function ConversationTitle(htmlLang: string): (t: string)
    ensures t == "Conversen:" || t == "Discuss:"
    ensures t == "Conversen:" <==> htmlLang == "es"
  {
    if htmlLang == "es" then "Conversen:" else "Discuss:"
  }

  /** The chapter name by page language. */
  function ChapterName(htmlLang: string, n: int): (name: string)
    ensures htmlLang == "es" ==> name == "Capítulo " + IntToString(n)
    ensures htmlLang != "es" ==> name == "Chapter " + IntToString(n)
  {
    (if htmlLang == "es" then "Capítulo " else "Chapter ") + IntToString(n)
  }

  /** The page template with its seventeen fields (the fixed markup abbreviated). */
  const PageFormat: seq<string> := [
    "<!DOCTYPE html>\n<html lang=\"", "\">\n<head>\n<title>", "</title>\n<link rel=\"stylesheet\" href=\"",
    "\">\n</head>\n<body>\n<h1>", "</h1>\n<form id=\"pollForm\">\n",
    "\n<div class=\"question-title\">", "</div>\n<label for=\"conversation\">",
    "</label>\n<textarea id=\"conversation\" placeholder=\"", "\" required></textarea>\n<label for=\"email\">",
    "</label>\n<input type=\"email\" id=\"email\" placeholder=\"", "\" required>\n<button type=\"submit\">",
    "</button>\n<button type=\"reset\">", "</button>\n</form>\n<div class=\"success-message\">\n",
    "\n</div>\n<h2 class=\"summary-title\">", "</h2>\n<script>\n        window.surveyQuestions = {\n",
    "\n        };\n        window.chapterName = \"", "\";\n</script>\n<script src=\"", "\"></script>\n</body>\n</html>\n"]

  /** The values generate_chapter_html fills the template with, in template order. */
  function PageFields(n: int, qs: seq<SheetQuestion<string>>, ui: UiData<string>, cfg: LangConfig): (fields: seq<string>)
    ensures |fields| == 17
  {
    [cfg.htmlLang, ui.title, cfg.cssFile, ui.mainInstruction, Concat(QuestionSections(qs)),
     ConversationTitle(cfg.htmlLang), ui.conversationLabel, ui.conversationPlaceholder,
     ui.emailLabel, ui.emailPlaceholder, ui.submitButton, ui.resetButton, ui.successMessage,
     ui.summaryTitle, Join(JsEntries(qs, ui.conversationLabel), ",\n"), ChapterName(cfg.htmlLang, n), cfg.jsFile]
  }

  function ChapterPage(n: int, qs: seq<SheetQuestion<string>>, ui: UiData<string>, cfg: LangConfig): string {
    Format(PageFormat, PageFields(n, qs, ui, cfg))
  }

  /** generate_chapter_html */
  method GenerateChapterHtml(n: int, qs: seq<SheetQuestion<string>>, ui: UiData<string>, cfg: LangConfig) returns (html: string)
    ensures html == ChapterPage(n, qs, ui, cfg)
  {
    var questionsHtml := GenerateQuestionHtml(qs);
    var js := GenerateJsQuestions(qs, ui.conversationLabel);
    var fields := [cfg.htmlLang, ui.title, cfg.cssFile, ui.mainInstruction, questionsHtml,
      ConversationTitle(cfg.htmlLang), ui.conversationLabel, ui.conversationPlaceholder,
      ui.emailLabel, ui.emailPlaceholder, ui.submitButton, ui.resetButton, ui.successMessage,
      ui.summaryTitle, js, ChapterName(cfg.htmlLang, n), cfg.jsFile];
    html := Format(PageFormat, fields);
  }

  /**
   * The page embeds the surveyQuestions entries between the object's opening
   * and closing lines, and the question sections inside the form.
   */
  lemma ChapterPageSections(n: int, qs: seq<SheetQuestion<string>>, ui: UiData<string>, cfg: LangConfig)
    returns (pre: string, post: string, pre': string, post': string)
    ensures ChapterPage(n, qs, ui, cfg)
      == pre + PageFormat[14] + Join(JsEntries(qs, ui.conversationLabel), ",\n") + PageFormat[15] + post
    ensures ChapterPage(n, qs, ui, cfg)
      == pre' + PageFormat[4] + Concat(QuestionSections(qs)) + PageFormat[5] + post'
  {
    var fields := PageFields(n, qs, ui, cfg);
    PageFieldsAt(n, qs, ui, cfg);
    pre, post := FormatAt(PageFormat, fields, 14);
    pre', post' := FormatAt(PageFormat, fields, 4);
  }

  lemma PageFieldsAt(n: int, qs: seq<SheetQuestion<string>>, ui: UiData<string>, cfg: LangConfig)
    ensures PageFields(n, qs, ui, cfg)[4] == Concat(QuestionSections(qs))
    ensures PageFields(n, qs, ui, cfg)[14] == Join(JsEntries(qs, ui.conversationLabel), ",\n")
  {
  }

  /** `{prefix}_{NN}.html` */
  function FileName(prefix: string, n: int): string {
    prefix + "_" + Pad2(n) + ".html"
  }

  /**
   * With the language's own prefix the importer writes the file name the
   * chapter manager uses, and the manager reads the chapter number back.
   */
  lemma FileNameAgrees(lang: Language, n: nat)
    requires n <= 0x7FFF_FFFF_FFFF_FFFF
    ensures FileName(LangConfigOf(lang).prefix, n) == Parser.ChapterFileName(lang, n)
    ensures Parser.ParseChapterNumber(FileName(LangConfigOf(lang).prefix, n)) == Ok(n)
  {
    Parser.ChapterFilePathParsesBack("", n, lang);
  }

  datatype OutputFile = OutputFile(chapter: int, name: string, html: string)

  function IntLe(a: int, b: int): bool { a <= b }

  lemma IntLeTotal()
    ensures Sorting.TotalPreorder(IntLe)
  {
  }

  lemma {:induction false} CountAtMostOne(s: seq<int>, x: int)
    requires NoDuplicates(s)
    ensures multiset(s)[x] <= 1
  {
    if s != [] {
      var init := s[..|s| - 1];
      assert s == init + [s[|s| - 1]];
      CountAtMostOne(init, x);
      if s[|s| - 1] == x {
        assert x !in init;
      }
    }
  }

  /** A sorted permutation of a list without duplicates is strictly ascending. */
  lemma SortedStrictly(a: seq<int>, b: seq<int>)
    requires multiset(a) == multiset(b) && NoDuplicates(b) && Sorting.SortedBy(a, IntLe)
    ensures forall i, j :: 0 <= i < j < |a| ==> a[i] < a[j]
  {
    forall i, j | 0 <= i < j < |a| ensures a[i] < a[j] {
      assert IntLe(a[i], a[j]);
      if a[i] == a[j] {
        assert a == a[..j] + a[j..];
        assert a[i] in multiset(a[..j]) && a[j] in multiset(a[j..]);
        assert multiset(a)[a[i]] >= 2;
        CountAtMostOne(b, a[i]);
        assert false;
      }
    }
  }

  /** sorted() of the dict's keys: ascending, and the same keys. */
  function SortedChapters(d: QuestionsDict): (ks: seq<int>)
    requires KeysListed(d)
    ensures forall i, j :: 0 <= i < j < |ks| ==> ks[i] < ks[j]
    ensures forall c :: c in ks <==> c in d.byChapter
  {
    var ks := Sorting.SortBy(d.keys, IntLe);
    IntLeTotal();
    Sorting.SortBySorted(d.keys, IntLe);
    Sorting.SortByPermutation(d.keys, IntLe);
    SortedStrictly(ks, d.keys);
    assert forall c :: c in ks <==> c in multiset(d.keys);
    ks
  }

  // ---------------------------------------------------------------------
  // Cells on the page
  // ---------------------------------------------------------------------

  /**
   * A question as it reaches the page: `q['id'].upper()` and
   * `q['text'].replace(...)` need texts, so an id or text cell that is empty
   * or a number raises AttributeError (None here); options are written with
   * str().
   */
  function PageQuestion(q: SheetQuestion<Cell>): (r: Option<SheetQuestion<string>>)
    ensures r.Some? <==> q.id.Str? && q.text.Str?
    ensures r.Some? ==> r.value.id == q.id.s && r.value.text == q.text.s && |r.value.options| == |q.options|
    ensures r.Some? ==> forall i :: 0 <= i < |q.options| ==> r.value.options[i] == PyStr(q.options[i])
  {
    if q.id.Str? && q.text.Str? then
      Some(SheetQuestion(q.id.s, q.text.s, seq(|q.options|, i requires 0 <= i < |q.options| => PyStr(q.options[i]))))
    else None
  }

  /** A chapter's questions on the page, None when any of them raises. */
  function PageQuestions(qs: seq<SheetQuestion<Cell>>): Option<seq<SheetQuestion<string>>> {
    if qs == [] then Some([])
    else
      var init := PageQuestions(qs[..|qs| - 1]);
      var last := PageQuestion(qs[|qs| - 1]);
      if init.Some? && last.Some? then Some(init.value + [last.value]) else None
  }

  /** The questions reach the page exactly when every one does, each in its place. */
  lemma {:induction false} PageQuestionsSpec(qs: seq<SheetQuestion<Cell>>)
    ensures PageQuestions(qs).Some? <==> forall i :: 0 <= i < |qs| ==> PageQuestion(qs[i]).Some?
    ensures PageQuestions(qs).Some? ==>
      |PageQuestions(qs).value| == |qs| && forall i :: 0 <= i < |qs| ==> PageQuestions(qs).value[i] == PageQuestion(qs[i]).value
  {
    if qs != [] {
      var init := qs[..|qs| - 1];
      PageQuestionsSpec(init);
      assert forall i :: 0 <= i < |init| ==> init[i] == qs[i];
    }
  }

  /**
   * The UI texts as they reach the page: `conversation_label.replace(...)`
   * needs a text, every other field is written with str().
   */
  function PageUi(u: UiData<Cell>): (r: Option<UiData<string>>)
    ensures r.Some? <==> u.conversationLabel.Str?
    ensures r.Some? ==> r.value.conversationLabel == u.conversationLabel.s && r.value.title == PyStr(u.title)
  {
    if u.conversationLabel.Str? then
      Some(UiData(PyStr(u.title), PyStr(u.mainInstruction), u.conversationLabel.s, PyStr(u.conversationPlaceholder),
        PyStr(u.emailLabel), PyStr(u.emailPlaceholder), PyStr(u.submitButton), PyStr(u.resetButton),
        PyStr(u.successMessage), PyStr(u.summaryTitle)))
    else None
  }

  // ---------------------------------------------------------------------
  // The files
  // ---------------------------------------------------------------------

  /** What the loop in main does with one chapter: skip it, stop on an exception, or write its file. */
  datatype Outcome = Skip | Fail | Write(file: OutputFile)

  /**
   * Chapter c: skipped without UI texts; otherwise its page is generated,
   * which raises when a question or the conversation label does not reach
   * the page.
   */
  function ChapterOutcome(c: int, questions: map<int, seq<SheetQuestion<Cell>>>, ui: map<int, UiData<Cell>>, cfg: LangConfig): Outcome {
    if c !in questions || c !in ui then Skip
    else
      var qs := PageQuestions(questions[c]);
      var u := PageUi(ui[c]);
      if qs.Some? && u.Some? then Write(OutputFile(c, FileName(cfg.prefix, c), ChapterPage(c, qs.value, u.value, cfg)))
      else Fail
  }

  function OutcomeOf(questions: map<int, seq<SheetQuestion<Cell>>>, ui: map<int, UiData<Cell>>, cfg: LangConfig): int -> Outcome {
    c => ChapterOutcome(c, questions, ui, cfg)
  }

  /** A chapter is written exactly when it has questions and UI texts that all reach the page, and then under its own number and file name. */
  lemma ChapterOutcomeSpec(c: int, questions: map<int, seq<SheetQuestion<Cell>>>, ui: map<int, UiData<Cell>>, cfg: LangConfig)
    ensures var o := ChapterOutcome(c, questions, ui, cfg);
      && (o.Skip? <==> c !in questions || c !in ui)
      && (o.Fail? <==>
            c in questions && c in ui
            && !(ui[c].conversationLabel.Str?
                 && forall i :: 0 <= i < |questions[c]| ==> questions[c][i].id.Str? && questions[c][i].text.Str?))
      && (o.Write? ==> o.file.chapter == c && o.file.name == FileName(cfg.prefix, c))
  {
    if c in questions {
      PageQuestionsSpec(questions[c]);
    }
  }

  /** The files written so far, and whether an exception ended the loop. */
  datatype Run = Run(files: seq<OutputFile>, failed: bool)

  /** The loop in main over `keys`: it stops at the first chapter whose page raises. */
  function Runs(keys: seq<int>, step: int -> Outcome): Run {
    if keys == [] then Run([], false)
    else
      var r := Runs(keys[..|keys| - 1], step);
      if r.failed then r
      else
        match step(keys[|keys| - 1])
        case Skip => r
        case Fail => r.(failed := true)
        case Write(f) => r.(files := r.files + [f])
  }

  /** A step that writes chapter c writes the file of chapter c. */
  ghost predicate Numbered(step: int -> Outcome) {
    forall c :: step(c).Write? ==> step(c).file.chapter == c
  }

  lemma OutcomeNumbered(questions: map<int, seq<SheetQuestion<Cell>>>, ui: map<int, UiData<Cell>>, cfg: LangConfig)
    ensures Numbered(OutcomeOf(questions, ui, cfg))
  {
  }

  /** Each of `fs` is the file some key's step writes. */
  ghost predicate FilesOf(fs: seq<OutputFile>, keys: seq<int>, step: int -> Outcome) {
    forall i :: 0 <= i < |fs| ==> fs[i].chapter in keys && step(fs[i].chapter) == Write(fs[i])
  }

  /** The files are in strictly ascending chapter order. */
  predicate InChapterOrder(fs: seq<OutputFile>) {
    forall i, j :: 0 <= i < j < |fs| ==> fs[i].chapter < fs[j].chapter
  }

  /** No file is for a chapter past `c`. */
  predicate AtMost(fs: seq<OutputFile>, c: int) {
    forall i :: 0 <= i < |fs| ==> fs[i].chapter <= c
  }

  /** Some file is for chapter `c`. */
  predicate HasFileFor(fs: seq<OutputFile>, c: int) {
    exists i :: 0 <= i < |fs| && fs[i].chapter == c
  }

  /** Each file is the one its chapter's step writes, for one of the keys. */
  lemma {:induction false} RunsValid(keys: seq<int>, step: int -> Outcome)
    requires Numbered(step)
    ensures FilesOf(Runs(keys, step).files, keys, step)
  {
    if keys != [] {
      var init := keys[..|keys| - 1];
      var c := keys[|keys| - 1];
      assert keys == init + [c];
      RunsValid(init, step);
      var prev := Runs(init, step).files;
      var fs := Runs(keys, step).files;
      forall i | 0 <= i < |fs| ensures fs[i].chapter in keys && step(fs[i].chapter) == Write(fs[i]) {
        if i < |prev| {
          assert fs[i] == prev[i];
          assert prev[i].chapter in init;
        } else {
          assert fs[i] == step(c).file;
        }
      }
    }
  }

  /** Over ascending keys the files come in ascending chapter order, none past the last key. */
  lemma {:induction false} RunsAscending(keys: seq<int>, step: int -> Outcome)
    requires Numbered(step)
    requires forall i, j :: 0 <= i < j < |keys| ==> keys[i] < keys[j]
    ensures InChapterOrder(Runs(keys, step).files)
    ensures |keys| > 0 ==> AtMost(Runs(keys, step).files, keys[|keys| - 1])
  {
    if keys != [] {
      var init := keys[..|keys| - 1];
      var c := keys[|keys| - 1];
      assert keys == init + [c];
      RunsAscending(init, step);
      var prev := Runs(init, step).files;
      var fs := Runs(keys, step).files;
      if |init| > 0 {
        assert init[|init| - 1] < c;
      }
      StepInOrder(prev, fs, init, if step(c).Write? then step(c).file else OutputFile(c, "", ""), c);
    }
  }

  /** One step of the loop, with or without a file for the next key `c`, keeps the files in order. */
  lemma StepInOrder(prev: seq<OutputFile>, fs: seq<OutputFile>, init: seq<int>, f: OutputFile, c: int)
    requires InChapterOrder(prev)
    requires |init| == 0 ==> prev == []
    requires |init| > 0 ==> AtMost(prev, init[|init| - 1]) && init[|init| - 1] < c
    requires fs == prev || (fs == prev + [f] && f.chapter == c)
    ensures InChapterOrder(fs) && AtMost(fs, c)
  {
    assert forall i :: 0 <= i < |prev| ==> prev[i].chapter < c;
    if fs != prev {
      assert fs[|prev|] == f;
    }
  }

  /** Without an exception every key that its step writes gets a file. */
  lemma {:induction false} RunsCover(keys: seq<int>, step: int -> Outcome)
    requires Numbered(step)
    ensures !Runs(keys, step).failed ==> forall k :: 0 <= k < |keys| && step(keys[k]).Write? ==> HasFileFor(Runs(keys, step).files, keys[k])
  {
    if keys != [] {
      var init := keys[..|keys| - 1];
      var c := keys[|keys| - 1];
      RunsCover(init, step);
      var r := Runs(keys, step);
      var prev := Runs(init, step).files;
      if !r.failed {
        forall k | 0 <= k < |keys| && step(keys[k]).Write? ensures HasFileFor(r.files, keys[k]) {
          if k == |keys| - 1 {
            assert r.files[|prev|].chapter == c;
          } else {
            assert keys[k] == init[k];
            var i :| 0 <= i < |prev| && prev[i].chapter == keys[k];
            assert r.files[i] == prev[i];
          }
        }
      }
    }
  }

  /** The loop ends in an exception exactly when the step of some key raises. */
  lemma {:induction false} RunsFailed(keys: seq<int>, step: int -> Outcome)
    ensures Runs(keys, step).failed <==> exists k :: 0 <= k < |keys| && step(keys[k]).Fail?
  {
    if keys != [] {
      var init := keys[..|keys| - 1];
      RunsFailed(init, step);
      if Runs(init, step).failed {
        var k :| 0 <= k < |init| && step(init[k]).Fail?;
        assert keys[k] == init[k];
      }
      if exists k :: 0 <= k < |keys| && step(keys[k]).Fail? {
        var k :| 0 <= k < |keys| && step(keys[k]).Fail?;
        if k < |init| {
          assert init[k] == keys[k];
        }
      }
    }
  }

  /** Over ascending keys, no file is written for a chapter at or past one whose page raises. */
  lemma {:induction false} RunsStop(keys: seq<int>, step: int -> Outcome, k: nat)
    requires Numbered(step)
    requires forall i, j :: 0 <= i < j < |keys| ==> keys[i] < keys[j]
    requires k < |keys| && step(keys[k]).Fail?
    ensures forall i :: 0 <= i < |Runs(keys, step).files| ==> Runs(keys, step).files[i].chapter < keys[k]
  {
    var init := keys[..|keys| - 1];
    var c := keys[|keys| - 1];
    if k < |init| {
      assert init[k] == keys[k];
      RunsStop(init, step, k);
      RunsFailed(init, step);
    } else {
      RunsAscending(init, step);
      RunsValid(init, step);
      if |init| > 0 {
        assert init[|init| - 1] < c;
      }
    }
  }

  /** Once an exception has ended the loop, later keys change nothing. */
  lemma {:induction false} RunsFailedStays(keys: seq<int>, j: nat, step: int -> Outcome)
    requires j <= |keys| && Runs(keys[..j], step).failed
    ensures Runs(keys, step) == Runs(keys[..j], step)
    decreases |keys| - j
  {
    if j < |keys| {
      assert keys[..|keys| - 1][..j] == keys[..j];
      RunsFailedStays(keys[..|keys| - 1], j, step);
    } else {
      assert keys[..j] == keys;
    }
  }

  /** The loop over one more key. */
  lemma RunsStep(keys: seq<int>, k: nat, step: int -> Outcome)
    requires k < |keys|
    ensures var r := Runs(keys[..k], step);
      Runs(keys[..k + 1], step) ==
        if r.failed then r
        else match step(keys[k])
          case Skip => r
          case Fail => r.(failed := true)
          case Write(f) => r.(files := r.files + [f])
  {
    assert keys[..k + 1][..k] == keys[..k];
  }

  /**
   * One chapter of the loop in main: None when generate_chapter_html raises,
   * otherwise the file's name and page.
   */
  method WriteChapterFile(c: int, questions: map<int, seq<SheetQuestion<Cell>>>, ui: map<int, UiData<Cell>>, cfg: LangConfig)
    returns (f: Option<OutputFile>)
    requires c in questions && c in ui
    ensures f.None? <==> ChapterOutcome(c, questions, ui, cfg).Fail?
    ensures f.Some? ==> ChapterOutcome(c, questions, ui, cfg) == Write(f.value)
  {
    var qs := PageQuestions(questions[c]);
    var u := PageUi(ui[c]);
    if qs.None? || u.None? {
      return None;
    }
    var html := GenerateChapterHtml(c, qs.value, u.value, cfg);
    f := Some(OutputFile(c, FileName(cfg.prefix, c), html));
  }

  /**
   * The loop in main: over the chapters in ascending order, a chapter
   * without UI texts is skipped and the others get their file, until the
   * first page that raises ends the program.
   */
  method ImportChapters(d: QuestionsDict, ui: map<int, UiData<Cell>>, cfg: LangConfig)
    returns (files: seq<OutputFile>, failed: bool)
    requires KeysListed(d)
    ensures Run(files, failed) == Runs(SortedChapters(d), OutcomeOf(d.byChapter, ui, cfg))
    ensures FilesOf(files, SortedChapters(d), OutcomeOf(d.byChapter, ui, cfg))
    ensures InChapterOrder(files)
    ensures failed <==> exists c :: c in d.byChapter && ChapterOutcome(c, d.byChapter, ui, cfg).Fail?
    ensures !failed ==> forall c :: c in d.byChapter && c in ui ==> HasFileFor(files, c)
  {
    var questions := d.byChapter;
    var keys := SortedChapters(d);
    ghost var step := OutcomeOf(questions, ui, cfg);
    files, failed := [], false;
    var k := 0;
    while k < |keys|
      invariant 0 <= k <= |keys|
      invariant Runs(keys[..k], step) == Run(files, false)
    {
      var c := keys[k];
      RunsStep(keys, k, step);
      if c in ui {
        var f := WriteChapterFile(c, questions, ui, cfg);
        if f.None? {
          failed := true;
          RunsFailedStays(keys, k + 1, step);
          break;
        }
        files := files + [f.value];
      }
      k := k + 1;
    }
    if !failed {
      assert keys[..|keys|] == keys;
    }
    OutcomeNumbered(questions, ui, cfg);
    RunsValid(keys, step);
    RunsAscending(keys, step);
    RunsCover(keys, step);
    RunsFailed(keys, step);
    SortedCover(keys, questions, ui, cfg);
  }

  /** The steps of the sorted keys are those of every chapter with questions. */
  lemma SortedCover(keys: seq<int>, questions: map<int, seq<SheetQuestion<Cell>>>, ui: map<int, UiData<Cell>>, cfg: LangConfig)
    requires forall c :: c in keys <==> c in questions
    ensures (exists k :: 0 <= k < |keys| && OutcomeOf(questions, ui, cfg)(keys[k]).Fail?)
      <==> exists c :: c in questions && ChapterOutcome(c, questions, ui, cfg).Fail?
    ensures forall c :: c in questions && c in ui && !ChapterOutcome(c, questions, ui, cfg).Fail? ==>
      exists k :: 0 <= k < |keys| && keys[k] == c && OutcomeOf(questions, ui, cfg)(keys[k]).Write?
  {
    forall c | c in questions && c in ui && !ChapterOutcome(c, questions, ui, cfg).Fail?
      ensures exists k :: 0 <= k < |keys| && keys[k] == c && OutcomeOf(questions, ui, cfg)(keys[k]).Write?
    {
      var k :| 0 <= k < |keys| && keys[k] == c;
    }
    if exists c :: c in questions && ChapterOutcome(c, questions, ui, cfg).Fail? {
      var c :| c in questions && ChapterOutcome(c, questions, ui, cfg).Fail?;
      var k :| 0 <= k < |keys| && keys[k] == c;
    }
  }
}
