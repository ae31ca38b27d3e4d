/**
 * `/addsheet` (src/commands/addsheet.js): import a question set from a
 * Google Sheets spreadsheet.
 *
 * The spreadsheet service (authentication, loading, fetching rows) is
 * outside the model: what it returned is the input `SheetAccess`. The
 * per-row question pattern is a regular expression whose outcome on the
 * first cell is carried by each row as `QuestionGroups`.
 */
module AddSheet {
  import opened Types
  import opened JsText
  import opened Whitespace
  import opened QuestionSets
  import opened ImportGuards
  import Urls

  const MaxRows: nat := 2000
  const MaxColumns: nat := 100

  /** The named groups of the question pattern: `img`, `ansnum` and `question`. */
  datatype QuestionGroups = QuestionGroups(img: Option<string>, ansnum: Option<nat>, question: Option<string>)

  /**
   * A spreadsheet row: its row number in the sheet, its cells, and what the
   * question pattern made of the first cell (`None` when it did not match).
   */
  datatype Row = Row(rowIndex: nat, raw: seq<string>, matched: Option<QuestionGroups>)

  /** What the spreadsheet service returned. */
  datatype SheetAccess = AuthError | LoadError | RowsError | Rows(rows: seq<Row>)

  datatype SheetRejection =
    | Guard(reason: GuardRejection)
    | NoSheetId
    | AuthFailed
    | LoadFailed
    | NoQuestions
    | TooManyRows
    | TooManyColumns
    | InvalidQuestion(rowIndex: nat)
    | NotEnoughAnswers(question: string)
    | ExtractFailed

  /** The reply, and with `Uploaded` the set handed to the database. */
  datatype SheetReply =
    | Rejected(reason: SheetRejection)
    | Uploaded(title: string, description: string, questions: seq<Question>)

  /** The `ansnum` group is a single digit from 2 to 9 whenever it is present. */
  predicate WellFormed(rows: seq<Row>) {
    forall i :: 0 <= i < |rows| ==> (rows[i].matched.Some? && rows[i].matched.value.ansnum.Some? ==>
      2 <= rows[i].matched.value.ansnum.value <= 9)
  }

  /** How many answers a question asks for: the captured digit, otherwise 1. */
  function Multi(g: QuestionGroups): nat {
    if g.ansnum.Some? then g.ansnum.value else 1
  }

  /**
   * Why the row aborts the import, if it does. An empty row has no first
   * cell to match, and a row the pattern does not match has no groups to
   * read; both throw, and the import ends with the extraction failure.
   */
  function RowError(row: Row): Option<SheetRejection> {
    if row.raw == [] then Some(ExtractFailed)
    else if |row.raw| > MaxColumns then Some(TooManyColumns)
    else match row.matched
      case None => Some(ExtractFailed)
      case Some(g) =>
        if g.question.None? then Some(InvalidQuestion(row.rowIndex))
        else if |row.raw| < Multi(g) + 1 then Some(NotEnoughAnswers(row.raw[0]))
        else None
  }

  function NormalizeAll(cells: seq<string>): (r: seq<string>)
    ensures |r| == |cells|
    ensures forall i :: 0 <= i < |cells| ==> r[i] == RemoveWhiteSpace(cells[i])
  {
    if cells == [] then [] else [RemoveWhiteSpace(cells[0])] + NormalizeAll(cells[1..])
  }

  /** The question a row that passes contributes. */
  function RowQuestion(row: Row): (q: Question)
    requires RowError(row) == None
    ensures q.multi <= |q.answer| == |row.raw| - 1
    ensures q.img == row.matched.value.img
  {
    var g := row.matched.value;
    Question(RemoveWhiteSpace(g.question.value), NormalizeAll(row.raw[1..]), Multi(g), g.img)
  }

  /**
   * The stored question and answers are normalised text, and each answer
   * keeps every non-white-space character of its cell.
   */
  lemma RowQuestionNormalized(row: Row)
    requires RowError(row) == None
    ensures var q := RowQuestion(row);
      && Normalized(q.question)
      && forall i :: 0 <= i < |q.answer| ==> Normalized(q.answer[i]) && NonSpace(q.answer[i]) == NonSpace(row.raw[i + 1])
  {
    var q := RowQuestion(row);
    RemoveWhiteSpaceSpec(row.matched.value.question.value);
    forall i | 0 <= i < |q.answer|
      ensures Normalized(q.answer[i]) && NonSpace(q.answer[i]) == NonSpace(row.raw[i + 1])
    {
      assert row.raw[1..][i] == row.raw[i + 1];
      RemoveWhiteSpaceSpec(row.raw[i + 1]);
    }
  }

  /** Row `i` fails and every row before it passes. */
  predicate FirstBadRow(rows: seq<Row>, i: nat)
    requires i < |rows|
  {
    RowError(rows[i]).Some? && forall j :: 0 <= j < i ==> RowError(rows[j]) == None
  }

  /** The rows loop: the first row that fails aborts, otherwise one question per row, in order. */
  method ConvertRows(rows: seq<Row>) returns (r: Result<seq<Question>, SheetRejection>)
    ensures r.Ok? <==> forall i :: 0 <= i < |rows| ==> RowError(rows[i]) == None
    ensures r.Ok? ==> |r.value| == |rows| && forall i :: 0 <= i < |rows| ==> r.value[i] == RowQuestion(rows[i])
    ensures r.Err? ==> exists i :: 0 <= i < |rows| && FirstBadRow(rows, i) && RowError(rows[i]) == Some(r.error)
  {
    var questionSet: seq<Question> := [];
    for i := 0 to |rows|
      invariant forall j :: 0 <= j < i ==> RowError(rows[j]) == None
      invariant |questionSet| == i
      invariant forall j :: 0 <= j < i ==> questionSet[j] == RowQuestion(rows[j])
    {
      var e := RowError(rows[i]);
      if e.Some? {
        return Err(e.value);
      }
      questionSet := questionSet + [RowQuestion(rows[i])];
    }
    return Ok(questionSet);
  }

  /** The whole command. */
  method AddSheetCommand(titleIn: string, descriptionIn: string, url: string, currSets: seq<string>,
                         isUrl: bool, access: SheetAccess) returns (reply: SheetReply)
    requires access.Rows? ==> WellFormed(access.rows)
    ensures var guard := Check(titleIn, descriptionIn, currSets, isUrl);
      && (guard.Some? ==> reply == Rejected(Guard(guard.value)))
      && (guard.None? && Urls.SheetId(url, true).None? ==> reply == Rejected(NoSheetId))
    ensures reply.Uploaded? <==>
      && Check(titleIn, descriptionIn, currSets, isUrl).None?
      && Urls.SheetId(url, true).Some?
      && access.Rows? && 1 <= |access.rows| <= MaxRows
      && forall i :: 0 <= i < |access.rows| ==> RowError(access.rows[i]) == None
    ensures reply.Uploaded? ==>
      && reply.title == RemoveWhiteSpace(titleIn)
      && reply.description == RemoveWhiteSpace(descriptionIn)
      && |reply.questions| == |access.rows|
      && forall i :: 0 <= i < |access.rows| ==> reply.questions[i] == RowQuestion(access.rows[i])
  {
    var title := RemoveWhiteSpace(titleIn);
    var description := RemoveWhiteSpace(descriptionIn);
    var guard := FirstFailure(title, description, currSets, isUrl);
    if guard.Some? {
      return Rejected(Guard(guard.value));
    }
    if Urls.SheetId(url, true).None? {
      return Rejected(NoSheetId);
    }
    match access {
      case AuthError => return Rejected(AuthFailed);
      case LoadError => return Rejected(LoadFailed);
      case RowsError => return Rejected(ExtractFailed);
      case Rows(rows) =>
        if |rows| < 1 {
          return Rejected(NoQuestions);
        }
        if |rows| > MaxRows {
          return Rejected(TooManyRows);
        }
        var converted := ConvertRows(rows);
        if converted.Err? {
          return Rejected(converted.error);
        }
        reply := Uploaded(title, description, converted.value);
    }
  }

  /**
   * Every stored question asks for between 1 and 9 answers and has at
   * least that many, all normalised.
   */
  lemma UploadedQuestionsSound(rows: seq<Row>, i: nat)
    requires WellFormed(rows) && i < |rows| && RowError(rows[i]) == None
    ensures var q := RowQuestion(rows[i]);
      1 <= q.multi <= 9 && q.multi <= |q.answer| && |q.answer| < MaxColumns
  {
  }

  /** A question without the "N part question" prefix asks for a single answer. */
  lemma OnePartByDefault(row: Row)
    requires RowError(row) == None && row.matched.value.ansnum.None?
    ensures RowQuestion(row).multi == 1 && |RowQuestion(row).answer| >= 1
  {
  }
}
