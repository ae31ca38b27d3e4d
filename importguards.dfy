/**
 * The checks src/commands/addsheet.js and src/commands/addquizlet.js make,
 * in the same order, before they look inside the URL: both normalise the
 * title and the description with `removeWhiteSpace` first, then reject a
 * title longer than 60 UTF-16 units, a title already among the stored
 * sets, a description longer than 300 units, and a URL that `isURL`
 * refuses. `isURL` belongs to a validation library and is an input here.
 */
module ImportGuards {
  import opened Types
  import opened JsText
  import opened Whitespace

  const MaxTitle: nat := 60
  const MaxDescription: nat := 300

  datatype GuardRejection = InvalidTitle | TitleExists | InvalidDescription | InvalidUrl

  /** The first check the normalised title and description fail, if any. */
  function FirstFailure(title: string, description: string, currSets: seq<string>, isUrl: bool): (r: Option<GuardRejection>)
    ensures r == None ==> JsLength(title) <= MaxTitle && title !in currSets && JsLength(description) <= MaxDescription && isUrl
  {
    if JsLength(title) > MaxTitle then Some(InvalidTitle)
    else if title in currSets then Some(TitleExists)
    else if JsLength(description) > MaxDescription then Some(InvalidDescription)
    else if !isUrl then Some(InvalidUrl)
    else None
  }

  /** The checks, applied to the text as the user typed it. */
  function Check(titleIn: string, descriptionIn: string, currSets: seq<string>, isUrl: bool): Option<GuardRejection> {
    FirstFailure(RemoveWhiteSpace(titleIn), RemoveWhiteSpace(descriptionIn), currSets, isUrl)
  }

  /**
   * Each rejection is reported only when every earlier check passed, and
   * passing all of them leaves a normalised title and description within
   * their limits and a title not yet taken.
   */
  lemma CheckOrder(titleIn: string, descriptionIn: string, currSets: seq<string>, isUrl: bool)
    ensures var t, d := RemoveWhiteSpace(titleIn), RemoveWhiteSpace(descriptionIn);
      var r := Check(titleIn, descriptionIn, currSets, isUrl);
      && (r == Some(InvalidTitle) <==> JsLength(t) > MaxTitle)
      && (r == Some(TitleExists) <==> JsLength(t) <= MaxTitle && t in currSets)
      && (r == Some(InvalidDescription) <==> JsLength(t) <= MaxTitle && t !in currSets && JsLength(d) > MaxDescription)
      && (r == Some(InvalidUrl) <==> JsLength(t) <= MaxTitle && t !in currSets && JsLength(d) <= MaxDescription && !isUrl)
      && (r == None ==> Normalized(t) && Normalized(d))
  {
    RemoveWhiteSpaceSpec(titleIn);
    RemoveWhiteSpaceSpec(descriptionIn);
  }

  /**
   * Because the checks see the normalised title, white space around a taken
   * title does not get it past the duplicate check.
   */
  lemma PaddedTitleStillTaken(w: string, title: string, v: string, descriptionIn: string, currSets: seq<string>, isUrl: bool)
    requires AllSpace(w) && AllSpace(v)
    requires RemoveWhiteSpace(title) in currSets && JsLength(RemoveWhiteSpace(title)) <= MaxTitle
    ensures Check(w + title + v, descriptionIn, currSets, isUrl) == Some(TitleExists)
  {
    OuterSpaceDropped(w, title, v);
  }

  /**
   * A title made only of white space is not refused as invalid: it is
   * checked, and stored, as the empty title.
   */
  lemma BlankTitleAccepted(titleIn: string, descriptionIn: string, currSets: seq<string>, isUrl: bool)
    requires AllSpace(titleIn) && "" !in currSets
    ensures Check(titleIn, descriptionIn, currSets, isUrl) != Some(InvalidTitle)
    ensures Check(titleIn, descriptionIn, currSets, isUrl) != Some(TitleExists)
  {
    WhiteSpaceOnlyIsEmpty(titleIn);
  }
}
