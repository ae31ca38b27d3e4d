# triviabot, modelled in Dafny

triviabot is a Discord bot for team trivia. Players use it in two ways:

- They start a game in a text channel (`/startgame`) or in a voice channel (`/startvoicegame`).
- They add question sets from a Google Sheet, a Quizlet set or a `.docx` file.

A game opens a lobby. In the lobby, players press one button per team to join or switch teams, and a leave button to leave. The user who started the game types `ready` to begin or `endtrivia` to give up.

The bot keeps two registries:

- `currGames`: the channels that hold a game.
- `currGuilds`: the guilds (Discord servers) that hold a voice game.

A voice game reads each question aloud. It accepts the first buzz-button press from a registered player once the question audio has started. It then collects that player's answers and produces one of four results: `correct`, `incorrect`, `time` or `nobuzz`. Standings are shown as leaderboard embeds (Discord's formatted message cards). `/listsets` and `/leaderboards` page through lists ten entries at a time.

The model covers these parts:

- Whitespace normaliser: `removeWhiteSpace`.
- Sentence pattern: the one the older import commands use.
- URL patterns: the spreadsheet and Quizlet addresses.
- Import commands: each guard chain and each row or term conversion.
- Lobby: its consistency invariant, and the admission and release rules of both registries.
- Voice game: the single question, as a scan over input events, and the question loop, as a class.
- Shuffle: the in-place Fisher–Yates shuffle.
- Standings: the sorting and text of the standings embeds.
- Other embeds: the content of the list, lobby, buzz, question and result embeds.
- Paging: the page arithmetic of the two listing commands.

Some things are inputs to the model rather than computed by it:

- Chat messages, button presses and collector time-outs. They arrive as sequences of events.
- What Discord, Firebase, Google Sheets and the browser answer.
- `Math.random`. It is a free choice that the shuffle method reports back.

Files: `types.dfy`, `jstext.dfy`, `whitespace.dfy`, `sentence.dfy`, `urls.dfy`, `importguards.dfy`, `questions.dfy`, `addsheet.dfy`, `addquizlet.dfy`, `addquestion.dfy`, `adddoc.dfy`, `lobby.dfy` (module `PreGame`), `sessions.dfy`, `playgame.dfy`, `voiceround.dfy`, `voicegame.dfy`, `standings.dfy`, `embeds.dfy`, `paging.dfy`, `listsets.dfy`, `leaderboards.dfy`.

## Model

| member | source | states |
|---|---|---|
| JsText.JsLength | src/commands/addsheet.js:41 | `length` counts UTF-16 units: at least one and at most two per character |
| JsText.LowerChar | src/game/playvoicegame.js:56 | a capital ASCII letter becomes a small letter; every other character is kept |
| JsText.ToLower | src/game/playvoicegame.js:56 | `toLowerCase` keeps the length and maps each ASCII capital to its small letter, leaving other characters alone |
| JsText.Join | src/helpers/embeds.js:222 | `join` of no parts is empty and of one part is that part |
| JsText.Digits | src/helpers/embeds.js:103 | a natural number prints as a non-empty run of decimal digits |
| JsText.NumberText | src/helpers/embeds.js:103 | a number prints as digits with a leading `-` exactly when it is negative |
| JsText.DigitsRoundTrip | src/helpers/embeds.js:103 | reading a printed natural number back gives the number |
| JsText.NumberTextInjective | src/helpers/embeds.js:103 | different numbers print differently, so page numbers and counts in embeds are unambiguous |
| Whitespace.TrimStart | src/helpers/helpers.js:35 | the front half of `trim()` returns text that does not start with white space and is no longer than the input |
| Whitespace.TrimStartSuffix | src/helpers/helpers.js:35 | what the front trim returns is a suffix of the input |
| Whitespace.TrimStartDropsSpace | src/helpers/helpers.js:35 | everything the front trim drops is white space |
| Whitespace.TrimEnd | src/helpers/helpers.js:35 | the back half of `trim()` returns text that does not end with white space |
| Whitespace.TrimEndPrefix | src/helpers/helpers.js:35 | what the back trim returns is a prefix of the input |
| Whitespace.TrimEndDropsSpace | src/helpers/helpers.js:35 | everything the back trim drops is white space |
| Whitespace.Trim | src/helpers/helpers.js:35 | `trim()` leaves no white space at either end |
| Whitespace.TrimStartNonSpace | src/helpers/helpers.js:35 | the front trim keeps every non-white-space character |
| Whitespace.TrimEndNonSpace | src/helpers/helpers.js:35 | the back trim keeps every non-white-space character |
| Whitespace.CollapseRuns | src/helpers/helpers.js:2 | `replaceAll(/\s+/g, ' ')` never lengthens the text |
| Whitespace.CollapseEnds | src/helpers/helpers.js:35 | collapsing runs keeps white space at either end exactly where it was |
| Whitespace.CollapseSingleSpaced | src/helpers/helpers.js:35 | after collapsing, the only white space is single `' '` characters |
| Whitespace.CollapseNonSpace | src/helpers/helpers.js:35 | collapsing keeps every non-white-space character, in order |
| Whitespace.CollapseFixpoint | src/helpers/helpers.js:35 | text whose white space is already single spaces is left alone by the collapse |
| Whitespace.CollapseAppend | src/helpers/helpers.js:35 | a white-space run never straddles a joint that follows a non-white-space character |
| Whitespace.CollapseSpaceRun | src/helpers/helpers.js:35 | a run of white space in front of a word becomes one space |
| Whitespace.RemoveWhiteSpaceSpec | src/helpers/helpers.js:34-36 | the result has white space only as single spaces, none at either end, and keeps every other character of the input in order |
| Whitespace.NormalizedFixpoint | src/helpers/helpers.js:34-36 | an already normalised string is returned unchanged |
| Whitespace.RemoveWhiteSpaceIdempotent | src/helpers/helpers.js:34-36 | normalising twice is the same as normalising once |
| Whitespace.WhiteSpaceOnlyIsEmpty | src/helpers/helpers.js:34-36 | input made only of white space becomes the empty string |
| Whitespace.NoSpaceUnchanged | src/helpers/helpers.js:34-36 | input without white space is returned unchanged |
| Whitespace.RunBecomesOneSpace | src/helpers/helpers.js:34-36 | an inner white-space run of any length and kind becomes exactly one space between the normalised text on either side |
| Whitespace.TrimAroundRun | src/helpers/helpers.js:35 | `trim()` of text around an inner run changes only the two outer ends |
| Whitespace.OuterSpaceDropped | src/helpers/helpers.js:34-36 | leading and trailing white space does not reach the result |
| Sentence.SentenceShape | commands/addquestion.js:9 | `^(\S+ ?)+$` accepts exactly the non-empty strings that start with non-white-space and whose only white space is single spaces, each after a non-white-space character |
| Sentence.InGroupShape | commands/addquestion.js:9 | inside a group, the rest of the text matches exactly when it is single-spaced |
| Sentence.NormalizedIsSentence | src/commands/adddoc.js:9 | every non-empty output of `removeWhiteSpace` passes the sentence pattern |
| Sentence.TrailingSpaceAllowed | src/commands/adddoc.js:9 | a sentence followed by one space is still a sentence exactly when it did not end in a space, and no sentence starts with a space; double spaces, tabs and the empty string are refused |
| Urls.IdRun | src/commands/addsheet.js:8 | the greedy `[\w-]+` run is the longest prefix of id characters |
| Urls.DigitRun | src/commands/addquizlet.js:8 | the greedy `\d+` run is the longest prefix of digits |
| Urls.SlugRun | src/commands/addquizlet.js:8 | the greedy `[a-z0-9-]+` run is the longest prefix of slug characters |
| Urls.IdThenSlash | src/commands/addsheet.js:8 | the id group followed by `/` yields only well-formed ids |
| Urls.SheetIdAfterHost | src/commands/addsheet.js:8 | the rest of the pattern after the host yields only well-formed ids, with or without the `/u/<digit>` segment |
| Urls.SheetIdAt | src/commands/addsheet.js:8 | a match anchored at a position yields only well-formed ids |
| Urls.SheetIdOfUrl | src/commands/addsheet.js:68-75 | on an address beginning with the sheet host, the leftmost match is the one at the host |
| Urls.SheetId | src/commands/addsheet.js:68-75 | the leftmost match yields only non-empty ids made of `[\w-]` |
| Urls.SheetIdSkips | src/commands/addsheet.js:68 | text without a `d` in front of the address does not change the id found |
| Urls.PlainPathMatches | src/commands/addsheet.js:8 | `/d/<id>/` after the host matches and yields the id |
| Urls.UserPathMatches | src/commands/addsheet.js:8 | `/u/<digit>/d/<id>/` after the host matches and yields the id |
| Urls.SheetIdRoundTrip | src/commands/addsheet.js:8 | the id is read back from a spreadsheet address, whatever follows it |
| Urls.SheetIdWithUser | src/commands/addsheet.js:8 | with the account segment, the pattern that allows it reads the id back too |
| Urls.NameEnd | src/commands/addquizlet.js:8 | the backed-off slug ends with `flash-cards` after at least one character |
| Urls.NameAt | src/commands/addquizlet.js:8 | the name group yields only slugs that end in `flash-cards` |
| Urls.QuizletAfterHost | src/commands/addquizlet.js:8 | after `quizlet.com/`, the pattern yields a digit id and a valid name |
| Urls.QuizletAt | src/commands/addquizlet.js:8 | a match anchored at a position yields a digit id and a slug ending in `flash-cards` |
| Urls.QuizletIds | src/commands/addquizlet.js:80-87 | the leftmost match yields a digit id and a slug ending in `flash-cards` |
| Urls.QuizletSkips | src/commands/addquizlet.js:80 | text without a `q` in front of the address does not change what is found |
| Urls.QuizletRoundTrip | src/commands/addquizlet.js:90 | the address rebuilt from an id and a name yields that id and name again |
| Urls.QuizletRebuildStable | src/commands/addquizlet.js:80-90 | reading the rebuilt address gives the same id and name as the address the user gave |
| ImportGuards.FirstFailure | src/commands/addsheet.js:41-66 | passing every guard means a title of at most 60 units that is not taken, a description of at most 300 units, and a URL that `isURL` accepts |
| ImportGuards.CheckOrder | src/commands/addsheet.js:34-66 | each rejection holds exactly when its check fails and every earlier one passes, and passing all of them leaves a normalised title and description |
| ImportGuards.PaddedTitleStillTaken | src/commands/addsheet.js:34-52 | white space around a taken title does not get it past the duplicate check |
| ImportGuards.BlankTitleAccepted | src/commands/addsheet.js:34-52 | a title made only of white space is neither too long nor taken, so it is checked as the empty title |
| AddSheet.NormalizeAll | src/commands/addsheet.js:148-150 | each answer cell is normalised, position by position |
| AddSheet.RowQuestion | src/commands/addsheet.js:146-153 | a passing row yields one answer per cell after the first, at least `multi` of them, and the captured image |
| AddSheet.RowQuestionNormalized | src/commands/addsheet.js:146-153 | the stored question and every answer are normalised, and each answer keeps the non-white-space characters of its cell |
| AddSheet.ConvertRows | src/commands/addsheet.js:116-160 | the loop succeeds exactly when every row passes, and then yields one question per row, in order; otherwise the reply is the first failing row's |
| AddSheet.AddSheetCommand | src/commands/addsheet.js:34-169 | guard failures and a missing id are reported first; a set is uploaded exactly when the guards pass, the id is found, there are 1 to 2000 rows and all pass; the upload holds the normalised title and description and one question per row |
| AddSheet.UploadedQuestionsSound | src/commands/addsheet.js:136-153 | every stored question asks for 1 to 9 answers, has at least that many, and has fewer than 100 |
| AddSheet.OnePartByDefault | src/commands/addsheet.js:136 | without the "N part question" prefix a question asks for one answer |
| AddQuizlet.TermsToQuestions | src/commands/addquizlet.js:155-165 | one question per term pair, in order, built from the cleaned pair and `flip` |
| AddQuizlet.ScrapeSet | src/commands/addquizlet.js:151-165 | the page yields nothing exactly when there are more than 1000 terms or the two sides differ in length |
| AddQuizlet.ConvertedShape | src/commands/addquizlet.js:155-165 | each question has one answer, `multi` 1 and no image; the sides trade places under `flip` |
| AddQuizlet.FlipSwapsSides | src/commands/addquizlet.js:160-161 | scraping with `flip` equals scraping the set with its two sides exchanged |
| AddQuizlet.FlipSwapsConvert | src/commands/addquizlet.js:160-161 | the term mapping with `flip` equals the mapping of the exchanged sides |
| AddQuizlet.ScrapeSetAsWritten | src/commands/addquizlet.js:144-166 | as written, the page yields `null` exactly for oversized or uneven sets and questions only for a set without terms |
| AddQuizlet.ScrapeAsWrittenLosesTerms | src/commands/addquizlet.js:144-157 | for every set of 1 to 1000 even terms the page as written throws, while the intended conversion gives one question per term |
| AddQuizlet.AddQuizletCommand | src/commands/addquizlet.js:44-111 | guard failures, then a missing id, are reported first; the page is loaded from the address rebuilt from the id and name; a set is uploaded exactly when the page loads and the scrape yields questions, with the normalised title and description |
| AddQuestion.QuestionMatch | commands/addquestion.js:10 | the question group always matches the sentence pattern; a tag is present only as `!!` and a digit 1 to 9 in front of it; the cell matches exactly when it is a sentence |
| AddQuestion.PrefixedSentence | commands/addquestion.js:10 | a non-white-space character in front of a sentence leaves a sentence |
| AddQuestion.TagStripped | commands/addquestion.js:10 | `!!d` directly followed by a question is stripped and sets the count to `d` |
| AddQuestion.TagBeforeSpaceKept | commands/addquestion.js:10 | `!!d` followed by a space is kept as part of the question and sets no count |
| AddQuestion.RowQuestion | commands/addquestion.js:156-161 | a passing row stores a sentence as its question, all later cells unchanged as answers (at least one), and a count of at most 9 |
| AddQuestion.ConvertRows | commands/addquestion.js:137-169 | the loop succeeds exactly when every row passes, and then yields one question per row, in order; otherwise the reply is the first failing row's |
| AddQuestion.Store.Upload | commands/addquestion.js:173-237 | success means both writes succeeded and both paths hold the set; on failure the list is untouched and, when the removal works, the metadata is gone too |
| AddQuestion.Prepare | commands/addquestion.js:47-169 | an invalid title is reported before an invalid description; the questions are ready exactly when both are sentences, the URL and id pass, the read works, the title is new, and there are 1 to 999 rows that all pass; no refusal here is an upload failure |
| AddQuestion.AddQuestionCommand | commands/addquestion.js:47-237 | a set is added exactly when every check of `Prepare` passes and both writes succeed; it then holds the metadata and one question per row, in order, with the first and last question in the reply; an upload failure is reported exactly when the checks pass and a write fails, and leaves the metadata removed, or as the failed write left it when the removal also fails; any earlier refusal leaves the store as it was |
| AddDoc.AddDocCommand | src/commands/adddoc.js:46-93 | the title is rejected exactly when it is not a sentence or longer than 60 units; then the description exactly when it is not a sentence or longer than 300 units; then the file exactly when it is over 1,024,000 bytes; the reply is "check console" exactly when all of these pass and fetching and extracting the file works, and there is no reply when they pass but the extraction fails |
| AddDoc.ContentTypeNeverRejects | src/commands/adddoc.js:67-71 | the content-type guard never fires, whatever the extraction does |
| AddDoc.TypeIrrelevant | src/commands/adddoc.js:67-71 | the guard chain does not look at the content type: a `.docx` and any other file reach the extraction alike |
| PreGame.InitialTeams | src/commands/startgame.js:120-126 | a new lobby has exactly `numTeams` teams, each with its configured name, no members and score 0 |
| PreGame.InitialConsistent | src/commands/startgame.js:120-126 | a new lobby satisfies the lobby invariant |
| PreGame.ClickStep | src/commands/startgame.js:175-227 | a click never changes the number of teams |
| PreGame.ClickKeepsConsistent | src/commands/startgame.js:182-219 | after any click every player is in exactly the team set its entry records, and no team set holds an absent player |
| PreGame.Without | src/commands/startgame.js:193-198 | taking a player out keeps the number of teams |
| PreGame.WithoutConsistent | src/commands/startgame.js:193-198 | taking a player out of `players` and out of their team keeps the invariant and leaves them in no team |
| PreGame.WithConsistent | src/commands/startgame.js:214-219 | adding an absent player to one team and to `players` keeps the invariant |
| PreGame.SameTeamNoOp | src/commands/startgame.js:186-191 | clicking one's own team changes nothing and answers "already joined" |
| PreGame.LeaveUnjoinedNoOp | src/commands/startgame.js:196-210 | leaving without having joined changes nothing and answers "not joined" |
| PreGame.LeaveRemoves | src/commands/startgame.js:193-205 | leaving removes the player from `players` and from every team set |
| PreGame.JoinPlaces | src/commands/startgame.js:214-226 | joining or switching records score 0 and places the player in the chosen team only, with a reply that says whether it was a switch |
| PreGame.ClickLeavesOthers | src/commands/startgame.js:175-227 | a click changes nothing about other users and no team's name or score |
| PreGame.Lobby.constructor | src/commands/startgame.js:120-126 | the lobby starts with no players, the configured empty teams, and is consistent |
| PreGame.Lobby.Click | src/commands/startvoicegame.js:215-267 | the in-place handler's new state and reply are those of `ClickStep`, and the invariant is kept |
| Sessions.TextAdmission | src/commands/startgame.js:99-240 | a busy channel is refused with `currGames` unchanged; the checks that fail before line 118 and the unknown-set and failed-send paths leave `currGames` as it was; a database error leaves the channel registered; admission registers the channel and picks the named set or an element of `currSets` |
| Sessions.VoiceAdmission | src/commands/startvoicegame.js:105-280 | no voice channel, a busy channel, a permission failure or a busy guild is refused with both registries unchanged; any later refusal keeps the guild registered, and only a database error keeps the channel too; admission registers both |
| Sessions.TextShuffleFails | src/commands/startgame.js:147-159 | with `shuffle` on, a text game on a set with questions never starts, because `randomize` is not exported by the helpers module |
| Sessions.Registry.AdmitText | src/commands/startgame.js:99-160 | the in-place admission has the outcome and the new `currGames` of `TextAdmission`, and leaves `currGuilds` alone |
| Sessions.Registry.AdmitVoice | src/commands/startvoicegame.js:105-180 | the in-place admission has the outcome and the new registries of `VoiceAdmission` |
| Sessions.ControlOf | src/commands/startgame.js:242-250 | only the initiator's messages count: `ready` and `endtrivia` in any letter case |
| Sessions.Step | src/commands/startgame.js:242-294 | no event changes the number of teams |
| Sessions.StepKeepsConsistent | src/commands/startgame.js:175-227 | every event keeps the lobby invariant |
| Sessions.OthersCannotControl | src/commands/startgame.js:242-245 | messages from anyone but the initiator change nothing |
| Sessions.ReadyNeedsPlayers | src/commands/startgame.js:251-265 | `ready` with no players changes nothing |
| Sessions.ReadyReleasesChannelOnly | src/commands/startvoicegame.js:290-321 | `ready` with players closes both collectors and keeps the lobby; after the game returns, only the channel is given back, and a voice game keeps its guild and connection |
| Sessions.EndTriviaReleases | src/commands/startgame.js:267-294 | the initiator's `endtrivia` and the start time-out both run `endGame`: both collectors closed, channel given back |
| Sessions.Run | src/commands/startgame.js:175-294 | any run of events keeps the lobby invariant and the number of teams |
| Sessions.StepKeepsSettled | src/commands/startgame.js:251-293 | once the start collector has closed, the join collector stays closed |
| Sessions.ClosedIsFinal | src/commands/startgame.js:242-293 | after both collectors have closed, no event changes anything |
| Sessions.ReadyStartedKeepsGuild | src/commands/startvoicegame.js:290-337 | a voice game started with `ready` keeps its guild registered whatever happens afterwards |
| Sessions.Session.constructor | src/commands/startvoicegame.js:137-146 | an admitted session starts with an empty lobby of the configured teams, both collectors open, and a voice connection only in voice mode |
| Sessions.Session.EndGame | src/commands/startvoicegame.js:330-337 | `endGame` stops both collectors and gives back the channel; in voice mode it also gives back the guild and drops the connection |
| Sessions.Session.Handle | src/commands/startvoicegame.js:215-327 | the in-place handlers move the session exactly as `Step` does and keep the lobby invariant |
| PlayGame.Swap | src/game/playgame.js:18 | the swap exchanges the two cells and leaves every other cell alone |
| PlayGame.Shuffled | src/game/playgame.js:15-20 | the swaps keep the length |
| PlayGame.ShuffledPermutes | src/game/playgame.js:15-20 | any sequence of valid draws leaves a permutation of the input |
| PlayGame.SwapPermutes | src/game/playgame.js:18 | one swap is a permutation |
| PlayGame.ShuffledSettles | src/game/playgame.js:16-19 | once index `i` has had its swap, later steps leave it alone |
| PlayGame.ShortUnchanged | src/game/playgame.js:16 | arrays of length 0 or 1 are left unchanged |
| PlayGame.Randomize | src/commands/startvoicegame.js:340-345 | the in-place shuffle makes one draw `j` in `[0, i]` for each `i` from `length - 1` down to 1; the array becomes the result of those swaps, a permutation of its old contents, and is unchanged when shorter than 2 |
| PlayGame.StartGame | src/game/playgame.js:3-5 | `startGame` leaves the game active, whatever its state before |
| VoiceRound.AwaitBuzz | src/game/playvoicegame.js:131-144 | the press found is the first that passes the filter before the timer runs out; none is found exactly when no such press exists |
| VoiceRound.Buzz | src/game/playvoicegame.js:131-144 | the accepted buzz is the first press by a registered player after the audio started and before the time-out; there is none exactly when no press qualifies |
| VoiceRound.TimedOutLater | src/game/playvoicegame.js:142 | a timer that has run out stays run out |
| VoiceRound.UntilTimeout | src/game/playvoicegame.js:170-171 | the answer window is a prefix of the events with no time-out in it |
| VoiceRound.CollectMatchesReference | src/game/playvoicegame.js:167-175 | the collector completes exactly when `multi` counting messages arrive before the time-out, and then holds the first `multi` of them |
| VoiceRound.ArmedAt | src/game/playvoicegame.js:159-172 | the answer collector starts at the first arming at or after the given position, or at the end of the events when it is not armed in them |
| VoiceRound.AnswerBeforeArmingLost | src/game/playvoicegame.js:159-172 | an answer sent after the buzz but before the collector is armed (while the buzz sound and the buzz reply are awaited) is not collected: the question then ends in `time` |
| VoiceRound.AnswersFiltered | src/game/playvoicegame.js:167-168 | every collected answer is a message of the answerer in the game channel that is not exactly a command word |
| VoiceRound.PlayRound | src/game/playvoicegame.js:126-190 | a question never settles exactly when someone buzzed and it asks for 0 answers (the collector then has neither a count limit nor a timer); otherwise it has exactly one result; an answerer exists exactly when someone buzzed, and is a registered player; a response exists exactly for `correct` and `incorrect`, which agree with the judge |
| VoiceRound.NoBuzzIff | src/game/playvoicegame.js:183-190 | the result is `nobuzz` exactly when no press passes the filter before the timer runs out |
| VoiceRound.EarlyPressRefused | src/game/playvoicegame.js:133-139 | no press before the question audio starts can be the buzz |
| VoiceRound.ResponseIsFirstAnswers | src/game/playvoicegame.js:146-182 | a settled question with a buzz asked for at least one answer; the buzz is the answerer's press; the answer collector starts at the first arming after the buzz; `time` means fewer than `multi` counting answers arrived in the game channel between the arming and the time-out; the judged response is the first `multi` of them |
| VoiceRound.UppercaseCommandIsAnswer | src/game/playvoicegame.js:54-67 | when the game runs in the channel it was started from, `ENDTRIVIA` from the answerer counts as an answer and also ends the game |
| VoiceRound.UpperEndTriviaNotListed | src/game/playvoicegame.js:12 | the upper-case spelling is not one of the command words |
| VoiceRound.SeparateChannels | src/game/playvoicegame.js:54-58 | when the game channel differs from the start channel, an answer is ignored by the command collector and a message in the start channel never counts as an answer |
| VoiceRound.CommandsIn | src/game/playvoicegame.js:54-81 | the collector on the start channel sends at most one leaderboard per message |
| VoiceRound.EndsOnEndtrivia | src/game/playvoicegame.js:54-67 | the collector ends the game exactly when some message in the start channel lowercases to `endtrivia` |
| VoiceRound.BoardsAnswerCommands | src/game/playvoicegame.js:54-81 | every leaderboard sent answers a message in the start channel that lowercases to a command word |
| VoiceRound.BoardsFor | src/game/playvoicegame.js:68-80 | a message in the start channel that lowercases to `teamlb` or `tlb` gets the team board, one to `playerlb` or `plb` the player board, any other message nothing |
| VoiceRound.CommandsInOne | src/game/playvoicegame.js:60-81 | a single message either ends the game, when it is `endtrivia` in the start channel, or gets exactly its own leaderboards |
| VoiceRound.CommandsInAppend | src/game/playvoicegame.js:54-81 | before any `endtrivia`, the collector answers the messages in order: over two runs of messages it sends the boards of the first and then those of the second |
| VoiceRound.CommandGetsBoard | src/game/playvoicegame.js:60-80 | a leaderboard command in the start channel with no `endtrivia` before it gets its board, in its place among the others |
| VoiceGame.Window | src/game/playvoicegame.js:220-234 | the window lies inside the queue and spans at most 10 entries; there is none exactly when it is not the first batch and fewer than 6 remain |
| VoiceGame.PrepareNextQuestions | src/game/playvoicegame.js:220-246 | the jobs started are the batch of the window: one question job and one answer job per index, in order; none when the function returns early |
| VoiceGame.FirstBatchCovers | src/game/playvoicegame.js:88-91 | the first batch spans questions 1 to 10 (or all of them when there are fewer) and holds the question and the answer job of each |
| VoiceGame.LaterBatchCovers | src/game/playvoicegame.js:100-109 | every later question is prepared by exactly one batch, launched at a question number ending in 5 and awaited before the question is asked |
| VoiceGame.JobsForAt | src/game/playvoicegame.js:237-243 | each question gets its question job and then its answer job, at its own position in the batch |
| VoiceGame.LaterJobsLength | src/game/playvoicegame.js:100-104 | the later batches started over the first `k` questions hold two jobs for each question they cover: those after question 10 up to 15 past the last launch point |
| VoiceGame.PreparedBeforeAsked | src/game/playvoicegame.js:88-109 | the audio of every question has been started, in the first batch or in a later one, before the question is asked |
| VoiceGame.CacheCountsFullGeneration | src/game/playvoicegame.js:84-109 | a game that asks every question without a cache starts, in its first and later batches, exactly the number of files the cache check counts |
| VoiceGame.ResultDuration | src/game/playvoicegame.js:305-342 | `correct` takes the correct sound's length; every other result takes at least the answer recording plus 200 ms |
| VoiceGame.AnswerReadUnlessCorrect | src/game/playvoicegame.js:310-339 | a longer answer recording lengthens the pause by exactly its extra length, except after `correct` |
| VoiceGame.BuzzDuration | src/game/playvoicegame.js:291-302 | the buzz pause lasts at least the team's buzzer sound and its name, one after the other |
| VoiceGame.ResultsOf | src/game/playvoicegame.js:100-200 | after `k` questions, `processResult` has been called at most `k` times, once per settled question |
| VoiceGame.ResultsCount | src/game/playvoicegame.js:100-200 | when each of the first `k` questions settles, `processResult` has been called exactly `k` times |
| VoiceGame.ResultsOfAt | src/game/playvoicegame.js:118-193 | when the questions up to `i` settle, the `i`-th result is question `i`, played on its own events and its own queue entry |
| VoiceGame.LaunchPoints | src/game/playvoicegame.js:101-104 | later batches start only at question numbers ending in 5 |
| VoiceGame.VoiceGame.constructor | src/game/playvoicegame.js:46-59 | the loop starts at question 1 with its two channels, not ended, not waiting, with the collector open and nothing recorded |
| VoiceGame.VoiceGame.EndGame | src/game/playvoicegame.js:213-216 | `endGame` sets `ended` and stops the collector, and changes nothing else |
| VoiceGame.VoiceGame.Commands | src/game/playvoicegame.js:54-81 | the collector over one question's events in the start channel records the leaderboards it sends and ends the game exactly on `endtrivia` |
| VoiceGame.VoiceGame.AskNext | src/game/playvoicegame.js:100-200 | one iteration removes exactly the front question and, without a cache, starts the batch of the remaining queue at numbers ending in 5 and no other; a settled question records its result and moves the question number on, one that never settles leaves the loop waiting with no result; answers are taken from the game channel and commands from the start channel |
| VoiceGame.VoiceGame.Step | src/game/playvoicegame.js:100-200 | one iteration keeps the loop invariant, one question further on |
| VoiceGame.VoiceGame.ResultsLength | src/game/playvoicegame.js:100-200 | after `k` questions there are `k` results, less one when the last question never settled |
| VoiceGame.VoiceGame.Play | src/game/playvoicegame.js:54-204 | without a cache, the commands sent while the description and the first batch are synthesized are answered before the first question, and an `endtrivia` among them leaves every question unasked; the loop then plays a prefix of the queue, one result per settled question, in order; otherwise it stops early only right after the question during which `endtrivia` arrived in the start channel, or at a question that never settles; the leaderboards sent are those of the messages before the loop and then those of each question's events; `endGame` then runs exactly once, or, while the loop waits, only if `endtrivia` ran it; the jobs started are the first batch and then the batch of each launch point reached, or none with a cache |
| Standings.Insert | src/helpers/embeds.js:122 | inserting adds exactly one entry |
| Standings.SortByScore | src/helpers/embeds.js:122 | sorting keeps the number of entries |
| Standings.InsertSorted | src/helpers/embeds.js:122 | inserting into a sorted list keeps it sorted |
| Standings.InsertMembers | src/helpers/embeds.js:122 | inserting only adds the new entry |
| Standings.InsertPermutes | src/helpers/embeds.js:122 | inserting adds the entry once and keeps the rest |
| Standings.SortSorted | src/helpers/embeds.js:122 | the standings are in non-increasing order of score |
| Standings.SortPermutes | src/helpers/embeds.js:122 | the standings list every entry exactly as often as the map holds it |
| Standings.SortKeepsOrdered | src/helpers/embeds.js:122 | standings already in order, ties included, come back unchanged |
| Standings.InsertStable | src/helpers/embeds.js:122 | inserting into sorted standings puts the new line after every line of its score already there |
| Standings.SortStable | src/helpers/embeds.js:122 | the sort is stable for every input: for each score, the lines showing it keep their order from the map |
| Standings.InsertLast | src/helpers/embeds.js:122 | an entry scoring no more than all the others goes last |
| Standings.OneLinePerEntry | src/helpers/embeds.js:123-125 | the description has one line break per entry |
| Standings.LineHasOneBreak | src/helpers/embeds.js:124 | each line ends in exactly one line break |
| Standings.Describe | src/helpers/embeds.js:123-125 | the `forEach` loop builds the description of the entries, in order |
| Standings.PlayerLines | src/helpers/embeds.js:122-124 | one line per player, showing its stored score and name |
| Standings.TeamLines | src/helpers/embeds.js:282-284 | one line per team, showing its stored score and name |
| Standings.PlayerLeaderboardEmbed | src/helpers/embeds.js:116-127 | the player standings: their title, and one line per player, best first |
| Standings.TeamLeaderboardEmbed | src/helpers/embeds.js:276-288 | the team standings: their title, and one line per team, best first |
| Embeds.PageSlice | src/helpers/embeds.js:92-94 | page `p` shows the entries from `10 * (p - 1)` up to `min(10 * p, n)`, in order, at most 10 |
| Embeds.PagesPartition | src/helpers/embeds.js:92-94 | every entry is on exactly one page, `i / 10 + 1`, at position `i % 10` |
| Embeds.ListTextShape | src/helpers/embeds.js:95-99 | the listing keeps the keyword header first and names every set of the slice in order |
| Embeds.ListEmbed | src/helpers/embeds.js:91-106 | the title is "Page p of m", the description lists the page's slice, and the footer shows `leftIndex + 1` to `rightIndex` |
| Embeds.TeamValueLines | src/helpers/embeds.js:252-264 | a team shows `None` exactly when it has no players, and otherwise one line per player |
| Embeds.StartEmbed | src/helpers/embeds.js:245-267 | the title names the set and invites players to join; one field per team `0 .. numTeams - 1`, named after the team, listing its members; empty exactly when the team is |
| Embeds.BuzzEmbed | src/helpers/embeds.js:41-49 | the title shows the team emoji around the player's name; the description gives ten seconds per answer; the buzz notice has no fields and no image |
| Embeds.BuzzStatesWindowOnlyAtTen | src/helpers/embeds.js:46 | the notice states the real answer window only when the configured time is 10 seconds or nothing is asked |
| Embeds.QuestionEmbed | src/helpers/embeds.js:138-149 | the title names the set and the question number; an image is shown exactly when `img` is truthy, and it is `img` itself |
| Embeds.QuestionTitleDistinct | src/helpers/embeds.js:141 | different question numbers give different titles within a set |
| Embeds.QuestionText | src/helpers/embeds.js:142 | the description is the part count sentence, present exactly when more than one answer is asked for, followed by the question text |
| Embeds.ResultEmbed | src/helpers/embeds.js:183-233 | the result embed has no image and no footer |
| Embeds.ResultTitle | src/helpers/embeds.js:185-214 | the title names the outcome (`Correct!`, `Incorrect`, `Time's Up!`, `No takers?`) between two copies of its emoji |
| Embeds.ResultReports | src/helpers/embeds.js:185-210 | `correct` always reports one point scored; `nobuzz` reports no change; `incorrect` and `time` report a lost point exactly when `losePoints` is set |
| Embeds.ResultFields | src/helpers/embeds.js:215-230 | the question and the joined answers come first; the player's response follows exactly when there is one |
| Paging.MaxPage | src/commands/listsets.js:44 | `ceil(n / 10)` is 0 exactly for no entries, and otherwise the smallest page count that holds all entries |
| Paging.OpeningPage | src/commands/listsets.js:45 | the opening page is at most the requested page and the page count, and at least 1 when there are pages |
| Paging.WrapInRange | src/commands/listsets.js:59-63 | on pages `1 .. maxPage` both buttons stay in range, wrap at the ends and undo each other |
| Paging.NextForward | src/commands/listsets.js:62 | below the last page each `next` moves one page on |
| Paging.NextTimesAdd | src/commands/listsets.js:62 | `a + b` presses of `next` are `a` presses followed by `b` |
| Paging.NextFullCycle | src/commands/listsets.js:58-67 | pressing `next` `maxPage` times comes back to the start page |
| ListSets.Matching | src/commands/listsets.js:34-36 | a set is in the result exactly when it is among the sets and passes the similarity or containment test; the result is no longer than the list |
| ListSets.MatchingAppend | src/commands/listsets.js:34-36 | filtering a concatenation filters each part and concatenates, so the kept sets stay in their original order |
| ListSets.MatchingOne | src/commands/listsets.js:34-36 | a single set is kept, once, exactly when it passes the test |
| ListSets.MatchingAll | src/commands/listsets.js:34-36 | when every set passes, the list is returned unchanged |
| ListSets.SetList.constructor | src/commands/listsets.js:44-52 | the listing opens on `min(requested, maxPage)` |
| ListSets.SetList.Click | src/commands/listsets.js:58-67 | `prev` and `next` move the page with wrap-around, keep it in `[1, maxPage]`, and show that page's slice |
| ListSets.ListSetsCommand | src/commands/listsets.js:31-56 | nothing is listed exactly when the filtered list is empty; otherwise the listing holds the filtered sets and opens on the clamped requested page |
| Leaderboards.CurrBoard | src/commands/leaderboards.js:87-89 | a board stored as `''` is empty; otherwise it is its entries |
| Leaderboards.TypeIndex | src/commands/leaderboards.js:44-45 | the type index names the requested board, `alltime` by default |
| Leaderboards.SwitchCycles | src/commands/leaderboards.js:66-68 | the switch button goes alltime, daily, weekly, monthly and back, visiting each once |
| Leaderboards.LeaderboardView.constructor | src/commands/leaderboards.js:44-48 | the view opens on the requested board at `min(requested, maxPage)` |
| Leaderboards.LeaderboardView.Click | src/commands/leaderboards.js:60-72 | `prev` and `next` wrap the page on the same board; switch moves to the next board type and clamps the page to its page count |
| Leaderboards.EmptyBoardPaging | src/commands/leaderboards.js:47-72 | an empty board opens on page 0 of 0, `next` then shows page 1 of 0, and a switch onto an empty board gives page 0 |
| Leaderboards.ButtonsKeepRange | src/commands/leaderboards.js:60-72 | on a non-empty board, a page in range stays in range under every button |

## Findings

| source | as written | input that shows it | evidently intended | confidence | as-written member | corrected member |
|---|---|---|---|---|---|---|
| src/commands/addquizlet.js:144-157 | The page receives the source text of `removeWhiteSpace`, which reads `spaceRegex`, a constant that exists only in src/helpers/helpers.js. It receives `undefined` in place of `replaceLineBreaks`, which that module does not export. Cleaning the first term therefore throws, and the command replies that retrieving failed. | any set with 1 to 1000 terms and the same number on both sides, such as one term `a` with definition `b` | each term pair becomes a cleaned question with one answer | high; not executed | AddQuizlet.ScrapeAsWrittenLosesTerms | AddQuizlet.ScrapeSet |

## Left out

- Chat plumbing is not modelled: slash-command builders, embed colours, timestamps, authors, button rows, and the message and component collectors. Collector callbacks are sequences of input events, and time-outs are explicit events.
- Database and service I/O are inputs:
  - The Firebase reads in the start commands.
  - `uploadSet` and `deleteSet` in src/helpers/helpers.js. They fire an async block without awaiting it, so they always report success. The import commands therefore model the upload as the `Uploaded` reply.
  - The Google Sheets authentication, loading and row fetch.
  - The browser session behind the Quizlet import.
  - The `fetch` and `mammoth` extraction behind `/adddoc`: whether it succeeds is the input `extracted`, and what it extracts is not modelled.
- `isURL` from the validator library is an input flag.
- `stringSimilarity` is the opaque predicate `similar`.
- `Math.random` is a free choice. `PlayGame.Randomize` returns the draws it made, and `Sessions.ChosenSet` takes the random index as an input.
- Voice and speech are left out: speech synthesis, audio playback, `speakQuestion`, and `getAudioDurationInSeconds`. Durations are natural-number inputs in milliseconds, and the ceiling of floating-point seconds is not modelled.
- Real time is not modelled: the `wait` pauses, the race between a buzz and its timer, and the 15-second buzz window. Only the order of events matters. The moment the answer collector starts listening, after the buzz sound and the buzz reply, is the event `AnswersArmed`.
- Some helpers are called but not modelled: `judgeAnswer`, `processResult`, `awaitAudioPlayerReady`, `wait`, `updateLeaderboards`, `replaceLineBreaks`, `VoiceQuestionEmbed` and `GeneralLeaderboardEmbed`.
  - Their callers import them from modules that do not export them: src/helpers/helpers.js exports only `deleteSet`, `removeWhiteSpace` and `uploadSet` (src/helpers/helpers.js:71-73), and src/helpers/embeds.js exports neither embed (src/helpers/embeds.js:290-293).
  - The judge is a parameter. Score keeping is the recorded list of results. The others are modelled as steps that work.
  - As written, `playVoiceGame` therefore throws a `TypeError` at its first `awaitAudioPlayerReady` call (src/game/playvoicegame.js:112), before the first question is asked; `VoiceGame.VoiceGame.Play` models the loop as intended.
- `playGame` is imported from src/game/playgame.js, which exports only `startGame`. Running a game is therefore an abstract step whose outcome is the input `gameCompletes`. As written, the call throws, and the channel stays registered.
- `answerThreshold` and the profile statistics are not modelled, because they use floating point.
- Sessions.VoiceAdmission: the refusal when the caller is not in a voice channel is modelled as a refusal. The source answers it with `reply` rather than `editReply`, and that difference is not modelled.
- AddSheet.RowQuestion: the per-row question pattern is not re-implemented. Its outcome on the first cell is the row's `matched` input. The pattern ends in `.{1, 1000}`, which the web-compatibility grammar of Annex B of ECMA-262 reads as one character followed by the literal text `{1, 1000}`. So most cells do not match, and those rows end the import with the extraction failure. The `InvalidQuestion` reply is kept as the code writes it, although a successful match always captures the question group. `rowIndex` is the spreadsheet library's row number, taken as given.
- AddQuestion.RowQuestion: the count is stored as a number. The source stores the captured digit as text, or the number 0 when there is no tag.
- AddQuestion.Store.Upload: the `timestamp` written with the metadata is not modelled.
- VoiceRound.PlayRound: a question asking for 0 answers never settles after a buzz because the chat library's message collector arms a count limit and a timer only for a non-zero `max` and `time`. That library is not part of this model, and this behaviour of it is taken as given. Such questions come from the legacy `/aq` import, which stores 0 for an untagged question (commands/addquestion.js:160).
- AddQuizlet.AddQuizletCommand: the command is modelled over the intended conversion `ScrapeSet`. As written, every set with at least one term ends in the retrieval failure; see Findings and `ScrapeAsWrittenLosesTerms`.
- The summary embed (`AddSummaryEmbed`) is not modelled. After an upload of a set without questions it would read the first question and throw. As written, the Quizlet import reaches this case for a page without terms.
- Embeds.QuestionEmbed: the `'_ _'` fallback for a question without text is not modelled; a stored question always has its text.
- Embeds.BuzzEmbed: the team emoji is an input, because the source looks it up in the client's emoji cache.
- JsText.ToLower: lower-casing is modelled on ASCII letters only. That is exact for the command words the bot compares (`ready`, `endtrivia`, `teamlb`, `tlb`, `playerlb`, `plb`), but not for arbitrary Unicode text.
- ListSets.Matching: the containment test lower-cases the set titles and the keyword with the ASCII-only `ToLower`. For a title or keyword with non-ASCII capitals (a title "ÉTÉ" against the keyword "été") the source finds the keyword and the model keeps the set only if `similar` holds.
- The `/adddoc` question pattern and its log output are not modelled, because the command stores nothing.
- The commands outside these files are not part of this model: removing sets, info, profile, the sound test, and the older `startgame` listener.
