/**
 * `/addquestion` (commands/addquestion.js): the older spreadsheet import,
 * which validates the title and description with the sentence pattern,
 * reads `!!<digit>` tags on the questions and writes the set to the
 * database itself, undoing the metadata write when the list write fails.
 *
 * The spreadsheet service and the success of each database request are
 * inputs; the database is the `Store` object.
 */
module AddQuestion {
  import opened Types
  import opened JsText
  import opened Whitespace
  import opened Sentence
  import opened QuestionSets
  import Urls

  /** `rows.length >= 1000` is refused. */
  const RowLimit: nat := 1000

  /** A spreadsheet row: its row number in the sheet and its cells. */
  datatype Row = Row(rowIndex: nat, raw: seq<string>)

  datatype SheetAccess = AuthError | LoadError | RowsError | Rows(rows: seq<Row>)

  /** The `ansnum` and `question` groups of a matched question cell. */
  datatype QuestionGroups = QuestionGroups(ansnum: Option<nat>, question: string)

  datatype Rejection =
    | InvalidTitle
    | InvalidDescription
    | InvalidUrl
    | NoSheetId
    | DatabaseError
    | TitleExists
    | AuthFailed
    | LoadFailed
    | NoQuestions
    | TooManyRows
    | InvalidQuestion(rowIndex: nat)
    | NoAnswer(question: string)
    | ExtractFailed
    | UploadFailed

  datatype Reply = Rejected(reason: Rejection) | Added(count: nat, first: string, last: string)

  /**
   * `^(?<tag>!!(?<ansnum>[1-9]))?(?<question>(\S+ ?)+)$`: the optional tag
   * is tried first, and dropped when the rest is not a sentence.
   */
  function QuestionMatch(s: string): (r: Option<QuestionGroups>)
    ensures r.Some? ==> IsSentence(r.value.question)
    ensures r.Some? && r.value.ansnum.Some? ==> 1 <= r.value.ansnum.value <= 9 && |s| >= 3 && s == "!!" + [s[2]] + r.value.question
    ensures r.Some? && r.value.ansnum.None? ==> r.value.question == s
    ensures r.None? <==> !IsSentence(s)
  {
    if |s| >= 3 && s[..2] == "!!" && '1' <= s[2] <= '9' && IsSentence(s[3..]) then
      assert s == s[..2] + [s[2]] + s[3..];
      var t1 := [s[2]] + s[3..];
      var t2 := ['!'] + t1;
      PrefixedSentence(s[2], s[3..]);
      PrefixedSentence('!', t1);
      PrefixedSentence('!', t2);
      assert s == ['!'] + t2;
      Some(QuestionGroups(Some((s[2] as int - '0' as int) as nat), s[3..]))
    else if IsSentence(s) then Some(QuestionGroups(None, s))
    else None
  }

  /** A non-white-space character in front of a sentence leaves a sentence. */
  lemma PrefixedSentence(c: char, q: string)
    requires !IsSpace(c) && IsSentence(q)
    ensures IsSentence([c] + q)
  {
    assert ([c] + q)[1..] == q;
  }

  /** A tag followed directly by a question is stripped and sets how many answers it asks for. */
  lemma TagStripped(d: char, q: string)
    requires '1' <= d <= '9' && IsSentence(q)
    ensures QuestionMatch("!!" + [d] + q) == Some(QuestionGroups(Some((d as int - '0' as int) as nat), q))
  {
    var tag := "!!" + [d];
    var s := tag + q;
    assert |tag| == 3 && tag[..2] == "!!" && tag[2] == d;
    assert s[..3] == tag && s[3..] == q;
    assert s[..2] == "!!" && s[2] == d by {
      assert s[..2] == s[..3][..2];
    }
  }

  /** A tag followed by a space is not a tag: the text is kept whole and asks for no count. */
  lemma TagBeforeSpaceKept(d: char, q: string)
    requires '1' <= d <= '9' && IsSentence(q)
    ensures QuestionMatch("!!" + [d] + " " + q) == Some(QuestionGroups(None, "!!" + [d] + " " + q))
  {
    var s := "!!" + [d] + " " + q;
    assert s[3..] == " " + q;
    SentenceShape(" " + q);
    SentenceShape(q);
    SentenceShape(s);
    SentenceShape(s[..3]);
    assert s == s[..3] + (" " + q);
    assert !IsSpace(s[0]);
    SpacedJoin(s[..3], q);
  }

  /** Two single-spaced texts with no white space at the joint, joined by one space. */
  lemma SpacedJoin(a: string, b: string)
    requires a != [] && !IsSpace(a[|a| - 1]) && SingleSpaced(a)
    requires b != [] && !IsSpace(b[0]) && SingleSpaced(b)
    ensures SingleSpaced(a + (" " + b))
  {
    var r := a + (" " + b);
    forall i | 0 <= i < |r| && IsSpace(r[i]) ensures r[i] == ' ' {
      if i < |a| { assert r[i] == a[i]; }
      else if i > |a| { assert r[i] == b[i - |a| - 1]; }
    }
    forall i, j | 0 <= i < |r| && 0 <= j < |r| && j == i + 1
      ensures !(IsSpace(r[i]) && IsSpace(r[j]))
    {
      if j < |a| { assert r[i] == a[i] && r[j] == a[j]; }
      else if i > |a| { assert r[i] == b[i - |a| - 1] && r[j] == b[j - |a| - 1]; }
      else if i == |a| { assert r[j] == b[0]; }
      else { assert r[i] == a[|a| - 1]; }
    }
  }

  /** Why the row aborts the import, if it does. An empty row has no first cell to match and throws. */
  function RowError(row: Row): Option<Rejection> {
    if row.raw == [] then Some(ExtractFailed)
    else if QuestionMatch(row.raw[0]).None? then Some(InvalidQuestion(row.rowIndex))
    else if |row.raw| < 2 then Some(NoAnswer(row.raw[0]))
    else None
  }

  /** The stored question: the matched text, all later cells as they are, and the tag's count or 0. */
  function RowQuestion(row: Row): (q: Question)
    requires RowError(row) == None
    ensures IsSentence(q.question) && q.answer == row.raw[1..] && |q.answer| >= 1 && q.img == None
    ensures q.multi <= 9
  {
    var g := QuestionMatch(row.raw[0]).value;
    Question(g.question, row.raw[1..], if g.ansnum.Some? then g.ansnum.value else 0, None)
  }

  /** Row `i` fails and every row before it passes. */
  predicate FirstBadRow(rows: seq<Row>, i: nat)
    requires i < |rows|
  {
    RowError(rows[i]).Some? && forall j :: 0 <= j < i ==> RowError(rows[j]) == None
  }

  /** The rows loop: the first bad row aborts, otherwise one question per row, in order. */
  method ConvertRows(rows: seq<Row>) returns (r: Result<seq<Question>, Rejection>)
    ensures r.Ok? <==> forall i :: 0 <= i < |rows| ==> RowError(rows[i]) == None
    ensures r.Ok? ==> |r.value| == |rows| && forall i :: 0 <= i < |rows| ==> r.value[i] == RowQuestion(rows[i])
    ensures r.Err? ==> exists i :: 0 <= i < |rows| && FirstBadRow(rows, i) && RowError(rows[i]) == Some(r.error)
  {
    var questionSet: seq<Question> := [];
    for i := 0 to |rows|
      invariant forall j :: 0 <= j < i ==> RowError(rows[j]) == None
      invariant |questionSet| == i
      invariant forall j :: 0 <= j < i ==> questionSet[j] == RowQuestion(rows[j])
    {
      var e := RowError(rows[i]);
      if e.Some? {
        return Err(e.value);
      }
      questionSet := questionSet + [RowQuestion(rows[i])];
    }
    return Ok(questionSet);
  }

  /** The metadata written at `questionSets/<title>` (its timestamp is left out). */
  datatype SetInfo = SetInfo(description: string, owner: string)

  /** The two database paths the command writes: `questionSets` and `questionLists`. */
  class Store {
    var sets: map<string, SetInfo>
    var lists: map<string, seq<Question>>

    /** Every set has both its metadata and its list, or neither. */
    predicate Consistent()
      reads this
    {
      sets.Keys == lists.Keys
    }

    constructor ()
      ensures sets == map[] && lists == map[] && Consistent()
    {
      sets := map[];
      lists := map[];
    }

    /**
     * The write sequence: the metadata, then the list only if the metadata
     * was written, then on any failure the removal of the metadata. Each
     * flag says whether that request succeeds.
     */
    method Upload(title: string, info: SetInfo, questions: seq<Question>, metaOk: bool, listOk: bool, removeOk: bool)
      returns (success: bool)
      modifies this
      ensures success == (metaOk && listOk)
      ensures success ==> sets == old(sets)[title := info] && lists == old(lists)[title := questions]
      ensures !success ==> lists == old(lists)
      ensures !success && removeOk ==> sets == old(sets) - {title}
      ensures !success && !removeOk ==> sets == if metaOk then old(sets)[title := info] else old(sets)
      ensures old(Consistent()) && title !in old(sets) && (metaOk && !listOk ==> removeOk) ==> Consistent()
    {
      success := false;
      if metaOk {
        sets := sets[title := info];
        success := true;
      }
      if success {
        if listOk {
          lists := lists[title := questions];
        } else {
          success := false;
        }
      }
      if !success && removeOk {
        sets := sets - {title};
      }
    }
  }

  /** Every check before the upload passes, given the titles already stored. */
  predicate Acceptable(sets: set<string>, title: string, description: string, url: string, isUrl: bool,
                       readOk: bool, access: SheetAccess)
  {
    && IsSentence(title) && IsSentence(description) && isUrl && Urls.SheetId(url, false).Some?
    && readOk && title !in sets
    && access.Rows? && 1 <= |access.rows| < RowLimit
    && forall i :: 0 <= i < |access.rows| ==> RowError(access.rows[i]) == None
  }

  /** Everything up to the upload, as an outcome: the first refusal, or the questions to write. */
  method Prepare(store: Store, title: string, description: string, url: string, isUrl: bool,
                 readOk: bool, access: SheetAccess) returns (r: Result<seq<Question>, Rejection>)
    ensures !IsSentence(title) ==> r == Err(InvalidTitle)
    ensures IsSentence(title) && !IsSentence(description) ==> r == Err(InvalidDescription)
    ensures r.Ok? <==> Acceptable(store.sets.Keys, title, description, url, isUrl, readOk, access)
    ensures r != Err(UploadFailed)
    ensures r.Ok? ==> |r.value| == |access.rows| && forall i :: 0 <= i < |access.rows| ==> r.value[i] == RowQuestion(access.rows[i])
    ensures r == Err(TitleExists) ==> title in store.sets
  {
    if !IsSentence(title) { return Err(InvalidTitle); }
    if !IsSentence(description) { return Err(InvalidDescription); }
    if !isUrl { return Err(InvalidUrl); }
    if Urls.SheetId(url, false).None? { return Err(NoSheetId); }
    if !readOk { return Err(DatabaseError); }
    var titleExists := title in store.sets;
    if titleExists { return Err(TitleExists); }
    match access {
      case AuthError => return Err(AuthFailed);
      case LoadError => return Err(LoadFailed);
      case RowsError => return Err(ExtractFailed);
      case Rows(rows) =>
        if |rows| < 1 { return Err(NoQuestions); }
        if |rows| >= RowLimit { return Err(TooManyRows); }
        r := ConvertRows(rows);
    }
  }

  /**
   * The whole command: the checks and the rows, then the write sequence. A
   * set is added exactly when every check passes and both writes succeed;
   * it then holds one question per row, in order.
   */
  method AddQuestionCommand(store: Store, title: string, description: string, url: string, owner: string,
                            isUrl: bool, readOk: bool, access: SheetAccess,
                            metaOk: bool, listOk: bool, removeOk: bool) returns (reply: Reply)
    requires store.Consistent()
    modifies store
    ensures reply.Added? <==>
      Acceptable(old(store.sets).Keys, title, description, url, isUrl, readOk, access) && metaOk && listOk
    ensures reply == Rejected(UploadFailed) <==>
      Acceptable(old(store.sets).Keys, title, description, url, isUrl, readOk, access) && !(metaOk && listOk)
    ensures reply.Added? ==> store.sets == old(store.sets)[title := SetInfo(description, owner)]
    ensures reply.Added? ==>
      var rows := access.rows;
      && store.lists.Keys == old(store.lists).Keys + {title}
      && (forall t :: t in old(store.lists) && t != title ==> store.lists[t] == old(store.lists)[t])
      && |store.lists[title]| == |rows| == reply.count
      && (forall i :: 0 <= i < |rows| ==> store.lists[title][i] == RowQuestion(rows[i]))
      && reply.first == RowQuestion(rows[0]).question && reply.last == RowQuestion(rows[|rows| - 1]).question
    ensures reply.Rejected? && reply.reason != UploadFailed ==> store.sets == old(store.sets) && store.lists == old(store.lists)
    ensures reply.Rejected? ==> store.lists == old(store.lists)
    ensures reply == Rejected(UploadFailed) && removeOk ==> store.sets == old(store.sets) - {title}
    ensures reply == Rejected(UploadFailed) && !removeOk ==>
      store.sets == if metaOk then old(store.sets)[title := SetInfo(description, owner)] else old(store.sets)
    ensures (metaOk && !listOk ==> removeOk) ==> store.Consistent()
  {
    var prepared := Prepare(store, title, description, url, isUrl, readOk, access);
    if prepared.Err? {
      return Rejected(prepared.error);
    }
    var questionSet := prepared.value;
    var success := store.Upload(title, SetInfo(description, owner), questionSet, metaOk, listOk, removeOk);
    if !success {
      return Rejected(UploadFailed);
    }
    reply := Added(|questionSet|, questionSet[0].question, questionSet[|questionSet| - 1].question);
  }
}
