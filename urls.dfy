/**
 * The URL patterns of the import commands, searched the way
 * `String.prototype.match` searches an unanchored regular expression: the
 * leftmost position where the pattern matches wins.
 *
 * - src/commands/addsheet.js: `docs\.google\.com\/spreadsheets(\/u\/\d)?\/d\/(?<id>[\w-]+)\/`
 * - commands/addquestion.js: the same without the `(\/u\/\d)?` part
 *   (its class `[A-Za-z0-9-_]` is the same set as `[\w-]`)
 * - src/commands/addquizlet.js: `quizlet\.com\/(?<id>\d+)\/(?<name>[a-z0-9-]+flash-cards)`
 */
module Urls {
  import opened Types

  predicate StartsWith(s: string, p: string) {
    |p| <= |s| && s[..|p|] == p
  }

  predicate Digit(c: char) {
    '0' <= c <= '9'
  }

  /** `[\w-]`. */
  predicate IdChar(c: char) {
    'A' <= c <= 'Z' || 'a' <= c <= 'z' || Digit(c) || c == '_' || c == '-'
  }

  /** `[a-z0-9-]`. */
  predicate SlugChar(c: char) {
    'a' <= c <= 'z' || Digit(c) || c == '-'
  }

  /** The length of the longest prefix of `s` made of `[\w-]`. */
  function IdRun(s: string): (n: nat)
    ensures n <= |s|
    ensures forall i :: 0 <= i < n ==> IdChar(s[i])
    ensures n < |s| ==> !IdChar(s[n])
  {
    if s == [] || !IdChar(s[0]) then 0 else 1 + IdRun(s[1..])
  }

  function DigitRun(s: string): (n: nat)
    ensures n <= |s|
    ensures forall i :: 0 <= i < n ==> Digit(s[i])
    ensures n < |s| ==> !Digit(s[n])
  {
    if s == [] || !Digit(s[0]) then 0 else 1 + DigitRun(s[1..])
  }

  function SlugRun(s: string): (n: nat)
    ensures n <= |s|
    ensures forall i :: 0 <= i < n ==> SlugChar(s[i])
    ensures n < |s| ==> !SlugChar(s[n])
  {
    if s == [] || !SlugChar(s[0]) then 0 else 1 + SlugRun(s[1..])
  }

  /** A run that is exactly `t`, stopped by a character outside the class, has length `|t|`. */
  lemma IdRunOf(t: string, rest: string)
    requires forall i :: 0 <= i < |t| ==> IdChar(t[i])
    requires rest != [] && !IdChar(rest[0])
    ensures IdRun(t + rest) == |t|
  {
    assert forall i :: 0 <= i < |t| ==> (t + rest)[i] == t[i];
    assert (t + rest)[|t|] == rest[0];
  }

  lemma DigitRunOf(t: string, rest: string)
    requires forall i :: 0 <= i < |t| ==> Digit(t[i])
    requires rest != [] && !Digit(rest[0])
    ensures DigitRun(t + rest) == |t|
  {
    assert forall i :: 0 <= i < |t| ==> (t + rest)[i] == t[i];
    assert (t + rest)[|t|] == rest[0];
  }

  lemma SlugRunOf(t: string, rest: string)
    requires forall i :: 0 <= i < |t| ==> SlugChar(t[i])
    requires rest != [] && !SlugChar(rest[0])
    ensures SlugRun(t + rest) == |t|
  {
    assert forall i :: 0 <= i < |t| ==> (t + rest)[i] == t[i];
    assert (t + rest)[|t|] == rest[0];
  }

  // ---------------------------------------------------------------------
  // Spreadsheet ids

  const SheetsHost: string := "docs.google.com/spreadsheets"

  /** A spreadsheet id as the pattern captures it. */
  predicate ValidSheetId(id: string) {
    id != [] && forall i :: 0 <= i < |id| ==> IdChar(id[i])
  }

  /** `(?<id>[\w-]+)\/` at the start of `s`: the whole run, which a `/` must follow. */
  function IdThenSlash(s: string): (r: Option<string>)
    ensures r.Some? ==> ValidSheetId(r.value)
  {
    var n := IdRun(s);
    if n >= 1 && n < |s| && s[n] == '/' then Some(s[..n]) else None
  }

  /**
   * The rest of the pattern after `docs.google.com/spreadsheets`;
   * `userPart` says whether the optional `/u/<digit>` segment is part of
   * it (being greedy, it is tried first).
   */
  function SheetIdAfterHost(rest: string, userPart: bool): (r: Option<string>)
    ensures r.Some? ==> ValidSheetId(r.value)
  {
    var withUser :=
      if userPart && |rest| >= 7 && rest[..3] == "/u/" && Digit(rest[3]) && rest[4..7] == "/d/"
      then IdThenSlash(rest[7..]) else None;
    if withUser.Some? then withUser
    else if StartsWith(rest, "/d/") then IdThenSlash(rest[3..])
    else None
  }

  /** The pattern tried at the start of `s`. */
  function SheetIdAt(s: string, userPart: bool): (r: Option<string>)
    ensures r.Some? ==> ValidSheetId(r.value)
  {
    if StartsWith(s, SheetsHost) then SheetIdAfterHost(s[|SheetsHost|..], userPart) else None
  }

  /** `url.match(sheetsRegex)?.groups?.id`. */
  function SheetId(url: string, userPart: bool): (r: Option<string>)
    ensures r.Some? ==> ValidSheetId(r.value)
  {
    if url == [] then None
    else if SheetIdAt(url, userPart).Some? then SheetIdAt(url, userPart)
    else SheetId(url[1..], userPart)
  }

  lemma StartsWithAppend(p: string, x: string)
    ensures StartsWith(p + x, p) && (p + x)[|p|..] == x
  {
    assert (p + x)[..|p|] == p;
  }

  lemma NotSheetAt(s: string, userPart: bool)
    requires s != [] && s[0] != 'd'
    ensures SheetIdAt(s, userPart) == None
  {
    assert !StartsWith(s, SheetsHost) by {
      assert SheetsHost[0] == 'd';
    }
  }

  /** Text without a `d` cannot hold the start of a match. */
  lemma {:induction false} SheetIdSkips(p: string, s: string, userPart: bool)
    requires 'd' !in p
    ensures SheetId(p + s, userPart) == SheetId(s, userPart)
    decreases |p|
  {
    if p != [] {
      assert (p + s)[0] == p[0];
      NotSheetAt(p + s, userPart);
      assert (p + s)[1..] == p[1..] + s;
      SheetIdSkips(p[1..], s, userPart);
    } else {
      assert p + s == s;
    }
  }

  /** The address of a spreadsheet: `https://docs.google.com/spreadsheets<path>`. */
  function SheetUrl(path: string): string {
    "https://" + (SheetsHost + path)
  }

  /** The path `/d/<id>/<tail>`. */
  function PlainPath(id: string, tail: string): string {
    "/d/" + (id + ("/" + tail))
  }

  /** The path `/u/<digit>/d/<id>/<tail>`, naming the signed-in account. */
  function UserPath(d: char, id: string, tail: string): string {
    "/u/" + ([d] + PlainPath(id, tail))
  }

  lemma IdThenSlashOf(id: string, tail: string)
    requires ValidSheetId(id)
    ensures IdThenSlash(id + ("/" + tail)) == Some(id)
  {
    IdRunOf(id, "/" + tail);
    assert (id + ("/" + tail))[..|id|] == id;
  }

  lemma PlainPathMatches(id: string, tail: string, userPart: bool)
    requires ValidSheetId(id)
    ensures SheetIdAfterHost(PlainPath(id, tail), userPart) == Some(id)
  {
    var rest := PlainPath(id, tail);
    assert rest[1] == 'd';
    StartsWithAppend("/d/", id + ("/" + tail));
    IdThenSlashOf(id, tail);
  }

  lemma UserPathMatches(d: char, id: string, tail: string)
    requires ValidSheetId(id) && Digit(d)
    ensures SheetIdAfterHost(UserPath(d, id, tail), true) == Some(id)
  {
    var rest := UserPath(d, id, tail);
    assert rest[..3] == "/u/" && rest[3] == d && rest[4..7] == "/d/";
    assert rest[7..] == id + ("/" + tail);
    IdThenSlashOf(id, tail);
  }

  lemma {:induction false} SheetIdOfUrl(path: string, userPart: bool)
    requires SheetIdAfterHost(path, userPart).Some?
    ensures SheetId(SheetUrl(path), userPart) == SheetIdAfterHost(path, userPart)
  {
    SheetIdSkips("https://", SheetsHost + path, userPart);
    StartsWithAppend(SheetsHost, path);
  }

  /** The id is read back from a spreadsheet address whatever follows it. */
  lemma SheetIdRoundTrip(id: string, tail: string, userPart: bool)
    requires ValidSheetId(id)
    ensures SheetId(SheetUrl(PlainPath(id, tail)), userPart) == Some(id)
  {
    PlainPathMatches(id, tail, userPart);
    SheetIdOfUrl(PlainPath(id, tail), userPart);
  }

  /** With the account segment, the pattern that allows it reads the id back too. */
  lemma SheetIdWithUser(d: char, id: string, tail: string)
    requires ValidSheetId(id) && Digit(d)
    ensures SheetId(SheetUrl(UserPath(d, id, tail)), true) == Some(id)
  {
    UserPathMatches(d, id, tail);
    SheetIdOfUrl(UserPath(d, id, tail), true);
  }

  // ---------------------------------------------------------------------
  // Quizlet set addresses

  const QuizletHost: string := "quizlet.com/"
  const FlashCards: string := "flash-cards"

  predicate ValidQuizletId(id: string) {
    id != [] && forall i :: 0 <= i < |id| ==> Digit(id[i])
  }

  /** `[a-z0-9-]+flash-cards`. */
  predicate ValidQuizletName(name: string) {
    && |name| > |FlashCards|
    && name[|name| - |FlashCards|..] == FlashCards
    && forall i :: 0 <= i < |name| ==> SlugChar(name[i])
  }

  /**
   * The greedy `[a-z0-9-]+` backing off until `flash-cards` follows: the
   * longest prefix of `run[..k]` that ends with `flash-cards` after at
   * least one character.
   */
  function NameEnd(run: string, k: nat): (r: Option<nat>)
    requires k <= |run|
    ensures r.Some? ==> |FlashCards| < r.value <= k && run[r.value - |FlashCards|..r.value] == FlashCards
    decreases k
  {
    if k <= |FlashCards| then None
    else if run[k - |FlashCards|..k] == FlashCards then Some(k)
    else NameEnd(run, k - 1)
  }

  /** `(?<name>[a-z0-9-]+flash-cards)` at the start of `s`. */
  function NameAt(s: string): (r: Option<string>)
    ensures r.Some? ==> ValidQuizletName(r.value)
  {
    var n := SlugRun(s);
    match NameEnd(s[..n], n)
    case None => None
    case Some(k) =>
      NamePrefixValid(s, n, k);
      Some(s[..k])
  }

  lemma SliceOfPrefix(s: string, j: nat, k: nat, n: nat)
    requires j <= k <= n <= |s|
    ensures s[..k][j..] == s[j..k] && s[..n][j..k] == s[j..k]
  {
  }

  /** A prefix of a slug run that ends in `flash-cards` is a valid set name. */
  lemma NamePrefixValid(s: string, n: nat, k: nat)
    requires n <= |s| && forall i :: 0 <= i < n ==> SlugChar(s[i])
    requires |FlashCards| < k <= n && s[..n][k - |FlashCards|..k] == FlashCards
    ensures ValidQuizletName(s[..k])
  {
    var name := s[..k];
    SliceOfPrefix(s, k - |FlashCards|, k, n);
    forall i | 0 <= i < |name| ensures SlugChar(name[i]) {
      assert name[i] == s[i];
    }
  }

  /** The rest of the pattern after `quizlet.com/`: the id and the name. */
  function QuizletAfterHost(rest: string): (r: Option<(string, string)>)
    ensures r.Some? ==> ValidQuizletId(r.value.0) && ValidQuizletName(r.value.1)
  {
    var d := DigitRun(rest);
    if d == 0 || d == |rest| || rest[d] != '/' then None
    else
      match NameAt(rest[d + 1..])
      case None => None
      case Some(name) => Some((rest[..d], name))
  }

  /** The pattern tried at the start of `s`. */
  function QuizletAt(s: string): (r: Option<(string, string)>)
    ensures r.Some? ==> ValidQuizletId(r.value.0) && ValidQuizletName(r.value.1)
  {
    if StartsWith(s, QuizletHost) then QuizletAfterHost(s[|QuizletHost|..]) else None
  }

  /** `url.match(quizletRegex)?.groups`: the id and the name. */
  function QuizletIds(url: string): (r: Option<(string, string)>)
    ensures r.Some? ==> ValidQuizletId(r.value.0) && ValidQuizletName(r.value.1)
  {
    if url == [] then None
    else if QuizletAt(url).Some? then QuizletAt(url)
    else QuizletIds(url[1..])
  }

  /** The address fetched: `https://quizlet.com/<id>/<name>/`. */
  function QuizletUrl(id: string, name: string): string {
    "https://" + (QuizletHost + (id + ("/" + (name + "/"))))
  }

  lemma NotQuizletAt(s: string)
    requires s != [] && s[0] != 'q'
    ensures QuizletAt(s) == None
  {
    assert !StartsWith(s, QuizletHost) by {
      assert QuizletHost[0] == 'q';
    }
  }

  lemma {:induction false} QuizletSkips(p: string, s: string)
    requires 'q' !in p
    ensures QuizletIds(p + s) == QuizletIds(s)
    decreases |p|
  {
    if p != [] {
      assert (p + s)[0] == p[0];
      NotQuizletAt(p + s);
      assert (p + s)[1..] == p[1..] + s;
      QuizletSkips(p[1..], s);
    } else {
      assert p + s == s;
    }
  }

  lemma NameAtOf(name: string)
    requires ValidQuizletName(name)
    ensures NameAt(name + "/") == Some(name)
  {
    SlugRunOf(name, "/");
    assert (name + "/")[..|name|] == name;
  }

  lemma QuizletAfterHostOf(id: string, name: string)
    requires ValidQuizletId(id) && ValidQuizletName(name)
    ensures QuizletAfterHost(id + ("/" + (name + "/"))) == Some((id, name))
  {
    var rest := id + ("/" + (name + "/"));
    var d := |id|;
    assert DigitRun(rest) == d by { DigitRunOf(id, "/" + (name + "/")); }
    assert rest[d] == '/' && rest[..d] == id && rest[d + 1..] == name + "/" by { AroundSlash(id, name + "/"); }
    assert NameAt(name + "/") == Some(name) by { NameAtOf(name); }
  }

  /** The pieces of `a + "/" + b` on either side of the slash after `a`. */
  lemma AroundSlash(a: string, b: string)
    ensures var r := a + ("/" + b);
      |r| > |a| && r[|a|] == '/' && r[..|a|] == a && r[|a| + 1..] == b
  {
    var r := a + ("/" + b);
    assert r[|a|] == ("/" + b)[0];
    assert r[|a| + 1..] == ("/" + b)[1..];
  }

  /** The rebuilt address yields the same id and name again. */
  lemma QuizletRoundTrip(id: string, name: string)
    requires ValidQuizletId(id) && ValidQuizletName(name)
    ensures QuizletIds(QuizletUrl(id, name)) == Some((id, name))
  {
    var rest := id + ("/" + (name + "/"));
    QuizletSkips("https://", QuizletHost + rest);
    StartsWithAppend(QuizletHost, rest);
    QuizletAfterHostOf(id, name);
  }

  /**
   * Fetching from the rebuilt address is stable: whatever address the
   * user gave, rebuilding from what it yields and reading again yields the
   * same id and name.
   */
  lemma QuizletRebuildStable(url: string)
    requires QuizletIds(url).Some?
    ensures var (id, name) := QuizletIds(url).value;
      QuizletIds(QuizletUrl(id, name)) == QuizletIds(url)
  {
    var (id, name) := QuizletIds(url).value;
    QuizletRoundTrip(id, name);
  }
}
