/**
 * `/adddoc` (src/commands/adddoc.js): the checks on a `.docx` upload. After
 * the checks, the command fetches the file and extracts its text
 * (`getFile`), logs what its question pattern finds and replies "Check
 * console, loser."; it writes nothing. Whether the fetch and the extraction
 * succeed is an input: nothing catches their failure, so the command then
 * ends without its final reply.
 */
module AddDoc {
  import opened Types
  import opened JsText
  import opened Sentence

  const MaxTitle: nat := 60
  const MaxDescription: nat := 300
  const MaxFileSize: nat := 1024000
  const DocxType: string := "application/vnd.openxmlformats-officedocument.wordprocessingml.document"

  /** The two kinds of value the content-type check compares. */
  datatype JsValue = JsBool(b: bool) | JsString(s: string)

  /** `===`: values of different types are never strictly equal. */
  predicate StrictEquals(x: JsValue, y: JsValue) {
    match (x, y)
    case (JsBool(a), JsBool(b)) => a == b
    case (JsString(a), JsString(b)) => a == b
    case _ => false
  }

  /** A string attachment property is truthy when present and non-empty. */
  predicate Truthy(s: Option<string>) {
    s.Some? && s.value != ""
  }

  /** The content-type check as written: the negated type compared with the `.docx` type. */
  predicate RejectsContentType(contentType: Option<string>) {
    StrictEquals(JsBool(!Truthy(contentType)), JsString(DocxType))
  }

  /** `NoReply`: `getFile` threw, so the command ends without a reply. */
  datatype DocReply = InvalidTitle | InvalidDescription | TooLarge | InvalidFile | CheckConsole | NoReply

  /** The guards of the command, in order, before the file is fetched. */
  predicate GuardsPass(title: string, description: string, size: nat) {
    IsSentence(title) && JsLength(title) <= MaxTitle &&
    IsSentence(description) && JsLength(description) <= MaxDescription && size <= MaxFileSize
  }

  /** `extracted`: the fetch of the attachment and mammoth's text extraction both succeed. */
  function AddDocCommand(title: string, description: string, size: nat, contentType: Option<string>, extracted: bool): (r: DocReply)
    ensures r == CheckConsole <==> GuardsPass(title, description, size) && extracted
    ensures r == NoReply <==> GuardsPass(title, description, size) && !extracted
    ensures r == InvalidTitle <==> !IsSentence(title) || JsLength(title) > MaxTitle
    ensures r == InvalidDescription <==>
      IsSentence(title) && JsLength(title) <= MaxTitle &&
      (!IsSentence(description) || JsLength(description) > MaxDescription)
    ensures r == TooLarge <==>
      IsSentence(title) && JsLength(title) <= MaxTitle &&
      IsSentence(description) && JsLength(description) <= MaxDescription && size > MaxFileSize
  {
    if !IsSentence(title) || JsLength(title) > MaxTitle then InvalidTitle
    else if !IsSentence(description) || JsLength(description) > MaxDescription then InvalidDescription
    else if size > MaxFileSize then TooLarge
    else if RejectsContentType(contentType) then InvalidFile
    else if !extracted then NoReply
    else CheckConsole
  }

  /** The content-type check never fires, whatever the attachment's type. */
  lemma ContentTypeNeverRejects(title: string, description: string, size: nat, contentType: Option<string>, extracted: bool)
    ensures !RejectsContentType(contentType)
    ensures AddDocCommand(title, description, size, contentType, extracted) != InvalidFile
  {
  }

  /**
   * The guard chain does not look at the attachment's type: a `.docx` and
   * any other file reach the extraction alike, and only its outcome tells
   * them apart.
   */
  lemma TypeIrrelevant(title: string, description: string, size: nat, t1: Option<string>, t2: Option<string>, extracted: bool)
    ensures AddDocCommand(title, description, size, t1, extracted) == AddDocCommand(title, description, size, t2, extracted)
  {
  }
}
