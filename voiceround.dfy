/**
 * One question of the voice game loop of src/game/playvoicegame.js, as a
 * scan over the events that reach the bot while the question is open: the
 * moment the question audio starts, buzz-button presses, chat messages and
 * the collectors' timers running out.
 *
 * Judging (`judgeAnswer`) is a parameter: it is imported from
 * src/helpers/helpers.js, which does not define it.
 *
 * Chat messages carry the channel they were sent in: the question, the buzz
 * button and the answer collector use the game channel (`channel`), while
 * the command collector watches the channel the game was started from
 * (`startChannel`); the two differ when `/startvoicegame` names a channel.
 */
module VoiceRound {
  import opened Types
  import opened JsText

  type UserId = string
  type ChannelId = string

  /** `commands` of src/game/playvoicegame.js. */
  const Commands: seq<string> := ["endtrivia", "teamlb", "tlb", "playerlb", "plb"]

  datatype RoundEvent =
    | AudioStarted
    | Press(user: UserId)
    | Chat(channel: ChannelId, author: UserId, content: string)
    /** The answer collector starts listening (after the buzz sound and the buzz reply). */
    | AnswersArmed
    | Timeout

  datatype Outcome = Correct | Incorrect | Time | NoBuzz

  /**
   * What the round hands to `processResult`: the outcome, who buzzed, and
   * the collected answers (`response`), present only when they were judged.
   */
  datatype RoundResult = RoundResult(outcome: Outcome, answerer: Option<UserId>, response: Option<seq<string>>)

  predicate StartedBefore(es: seq<RoundEvent>, k: nat)
    requires k <= |es|
  {
    AudioStarted in es[..k]
  }

  predicate TimedOutBefore(es: seq<RoundEvent>, k: nat)
    requires k <= |es|
  {
    Timeout in es[..k]
  }

  /**
   * The buzz filter accepts press `k`: it comes after the question audio
   * started (`questionStarted[0]`) and the presser is in `players`.
   */
  predicate Accepted(players: set<UserId>, es: seq<RoundEvent>, k: nat)
    requires k < |es|
  {
    es[k].Press? && es[k].user in players && StartedBefore(es, k)
  }

  lemma PrefixStep(es: seq<RoundEvent>, i: nat)
    requires i < |es|
    ensures es[..i + 1] == es[..i] + [es[i]]
  {
  }

  /** A timer that has run out stays run out. */
  lemma TimedOutLater(es: seq<RoundEvent>, i: nat, k: nat)
    requires i < k <= |es| && es[i] == Timeout
    ensures TimedOutBefore(es, k)
  {
    assert es[..k][i] == Timeout;
  }

  /** `awaitMessageComponent`, scanning from event `i`. */
  function AwaitBuzz(players: set<UserId>, es: seq<RoundEvent>, i: nat, started: bool): (r: Option<nat>)
    requires i <= |es|
    requires started <==> StartedBefore(es, i)
    requires !TimedOutBefore(es, i)
    requires forall j :: 0 <= j < i ==> !Accepted(players, es, j)
    ensures r.Some? ==> && i <= r.value < |es|
                        && Accepted(players, es, r.value)
                        && !TimedOutBefore(es, r.value)
                        && forall j :: 0 <= j < r.value ==> !Accepted(players, es, j)
    ensures r.None? ==> forall k :: 0 <= k < |es| && !TimedOutBefore(es, k) ==> !Accepted(players, es, k)
    decreases |es| - i
  {
    if i == |es| then None
    else if es[i] == Timeout then
      assert forall k :: i < k <= |es| ==> TimedOutBefore(es, k) by {
        forall k | i < k <= |es| ensures TimedOutBefore(es, k) { TimedOutLater(es, i, k); }
      }
      None
    else
      PrefixStep(es, i);
      if es[i] == AudioStarted then AwaitBuzz(players, es, i + 1, true)
      else if es[i].Press? && started && es[i].user in players then Some(i)
      else AwaitBuzz(players, es, i + 1, started)
  }

  /**
   * The accepted buzz: the first press that passes the filter before the
   * timer runs out, or none.
   */
  function Buzz(players: set<UserId>, es: seq<RoundEvent>): (r: Option<nat>)
    ensures r.Some? ==> && r.value < |es|
                        && Accepted(players, es, r.value)
                        && !TimedOutBefore(es, r.value)
                        && forall j :: 0 <= j < r.value ==> !Accepted(players, es, j)
    ensures r.None? <==> forall k :: 0 <= k < |es| && !TimedOutBefore(es, k) ==> !Accepted(players, es, k)
  {
    AwaitBuzz(players, es, 0, false)
  }

  /**
   * The answer collector's filter: the answerer's messages in the game
   * channel that are not exactly a command word.
   */
  predicate CountsAsAnswer(channel: ChannelId, answerer: UserId, e: RoundEvent) {
    e.Chat? && e.channel == channel && e.author == answerer && e.content !in Commands
  }

  /**
   * Where the answer collector starts: the first `AnswersArmed` at or after
   * `from`, or the end of the events when it is never armed in them.
   */
  function ArmedAt(es: seq<RoundEvent>, from: nat): (a: nat)
    requires from <= |es|
    ensures from <= a <= |es|
    ensures a < |es| ==> es[a] == AnswersArmed
    ensures forall j :: from <= j < a ==> es[j] != AnswersArmed
    decreases |es| - from
  {
    if from == |es| || es[from] == AnswersArmed then from else ArmedAt(es, from + 1)
  }

  /** The events before the first time-out. */
  function UntilTimeout(es: seq<RoundEvent>): (r: seq<RoundEvent>)
    ensures |r| <= |es| && r == es[..|r|] && Timeout !in r
  {
    if es == [] || es[0] == Timeout then [] else [es[0]] + UntilTimeout(es[1..])
  }

  /** Reference: the contents of all counting messages, in order. */
  function Answers(channel: ChannelId, answerer: UserId, es: seq<RoundEvent>): seq<string> {
    if es == [] then []
    else (if CountsAsAnswer(channel, answerer, es[0]) then [es[0].content] else []) + Answers(channel, answerer, es[1..])
  }

  /**
   * `awaitMessages` with `max: multi` and `errors: ['time']`, for `multi` at
   * least 1: collects until `multi` answers have arrived (complete) or the
   * timer runs out.
   */
  function CollectAnswers(channel: ChannelId, answerer: UserId, multi: nat, es: seq<RoundEvent>, acc: seq<string>): (r: (bool, seq<string>))
    decreases |es|
  {
    if es == [] || es[0] == Timeout then (false, acc)
    else if CountsAsAnswer(channel, answerer, es[0]) then
      var acc' := acc + [es[0].content];
      if |acc'| >= multi then (true, acc')
      else CollectAnswers(channel, answerer, multi, es[1..], acc')
    else CollectAnswers(channel, answerer, multi, es[1..], acc)
  }

  /**
   * The collector completes exactly when `multi` counting messages arrive
   * before the time-out, and then holds the first `multi` of them.
   */
  lemma {:induction false} CollectMatchesReference(channel: ChannelId, answerer: UserId, multi: nat, es: seq<RoundEvent>, acc: seq<string>)
    requires |acc| < multi
    ensures var all := acc + Answers(channel, answerer, UntilTimeout(es));
      CollectAnswers(channel, answerer, multi, es, acc) ==
        if |all| >= multi then (true, all[..multi]) else (false, all)
    decreases |es|
  {
    if es == [] || es[0] == Timeout {
      assert acc + [] == acc;
    } else {
      var e := es[0];
      assert UntilTimeout(es) == [e] + UntilTimeout(es[1..]);
      assert ([e] + UntilTimeout(es[1..]))[1..] == UntilTimeout(es[1..]);
      var rest := Answers(channel, answerer, UntilTimeout(es[1..]));
      if CountsAsAnswer(channel, answerer, e) {
        var acc' := acc + [e.content];
        assert acc + Answers(channel, answerer, UntilTimeout(es)) == acc' + rest;
        if |acc'| >= multi {
          assert (acc' + rest)[..multi] == acc';
        } else {
          CollectMatchesReference(channel, answerer, multi, es[1..], acc');
        }
      } else {
        assert acc + Answers(channel, answerer, UntilTimeout(es)) == acc + rest;
        CollectMatchesReference(channel, answerer, multi, es[1..], acc);
      }
    }
  }

  /**
   * Every collected answer is a message of the answerer in the game channel
   * that is not exactly a command word.
   */
  lemma {:induction false} AnswersFiltered(channel: ChannelId, answerer: UserId, es: seq<RoundEvent>)
    ensures forall r :: r in Answers(channel, answerer, es) ==> r !in Commands && Chat(channel, answerer, r) in es
    decreases |es|
  {
    if es != [] {
      AnswersFiltered(channel, answerer, es[1..]);
      assert es == [es[0]] + es[1..];
    }
  }

  /**
   * One question `q` in game channel `channel`, from the question's events;
   * `judge` is `judgeAnswer`. None means the question never settles: for a
   * question asking for 0 answers the answer collector gets `max: 0` and
   * `time: 0`, so it has neither a count limit nor a timer. The collector
   * is armed only after the buzz sound and the buzz reply, so it sees the
   * events from the next `AnswersArmed` on; events that end before it is
   * armed count as the timer running out.
   */
  function PlayRound<Q>(players: set<UserId>, channel: ChannelId, multi: nat, es: seq<RoundEvent>, q: Q,
                        judge: (Q, seq<string>) -> bool): (r: Option<RoundResult>)
    ensures r.None? <==> Buzz(players, es).Some? && multi == 0
    ensures r.Some? ==> (r.value.answerer.Some? <==> r.value.outcome != NoBuzz)
    ensures r.Some? && r.value.answerer.Some? ==> r.value.answerer.value in players
    ensures r.Some? ==> (r.value.response.Some? <==> r.value.outcome in {Correct, Incorrect})
    ensures r.Some? && r.value.outcome == Correct ==> judge(q, r.value.response.value)
    ensures r.Some? && r.value.outcome == Incorrect ==> !judge(q, r.value.response.value)
  {
    match Buzz(players, es)
    case None => Some(RoundResult(NoBuzz, None, None))
    case Some(k) =>
      var u := es[k].user;
      if multi == 0 then None
      else
        var (complete, got) := CollectAnswers(channel, u, multi, es[ArmedAt(es, k + 1)..], []);
        if !complete then Some(RoundResult(Time, Some(u), None))
        else if judge(q, got) then Some(RoundResult(Correct, Some(u), Some(got)))
        else Some(RoundResult(Incorrect, Some(u), Some(got)))
  }

  /** `nobuzz` exactly when no press passes the filter before the timer runs out. */
  lemma NoBuzzIff<Q>(players: set<UserId>, channel: ChannelId, multi: nat, es: seq<RoundEvent>, q: Q,
                     judge: (Q, seq<string>) -> bool)
    ensures var r := PlayRound(players, channel, multi, es, q, judge);
      r.Some? && r.value.outcome == NoBuzz <==>
        forall k :: 0 <= k < |es| && !TimedOutBefore(es, k) ==> !Accepted(players, es, k)
  {
  }

  /** No press before the question audio starts can ever be the buzz. */
  lemma EarlyPressRefused(players: set<UserId>, es: seq<RoundEvent>, k: nat)
    requires k < |es| && !StartedBefore(es, k)
    ensures Buzz(players, es) != Some(k)
  {
  }

  /**
   * A settled question with a buzz asked for at least one answer; its judged
   * answers are the first `multi` counting messages of the answerer after
   * the collector is armed and before the answer timer; `time` means fewer
   * than `multi` of them arrived.
   */
  lemma ResponseIsFirstAnswers<Q>(players: set<UserId>, channel: ChannelId, multi: nat, es: seq<RoundEvent>, q: Q,
                                  judge: (Q, seq<string>) -> bool)
    requires PlayRound(players, channel, multi, es, q, judge).Some?
    requires PlayRound(players, channel, multi, es, q, judge).value.outcome != NoBuzz
    ensures var r := PlayRound(players, channel, multi, es, q, judge).value;
      var k := Buzz(players, es).value;
      var a := ArmedAt(es, k + 1);
      var all := Answers(channel, r.answerer.value, UntilTimeout(es[a..]));
      && multi >= 1
      && es[k] == Press(r.answerer.value)
      && (forall j :: k < j < a ==> es[j] != AnswersArmed)
      && (r.outcome == Time <==> |all| < multi)
      && (r.response.Some? ==> r.response.value == all[..multi])
  {
    var k := Buzz(players, es).value;
    var u := es[k].user;
    var a := ArmedAt(es, k + 1);
    CollectMatchesReference(channel, u, multi, es[a..], []);
    assert [] + Answers(channel, u, UntilTimeout(es[a..])) == Answers(channel, u, UntilTimeout(es[a..]));
  }

  /**
   * An answer sent between the buzz and the arming of the collector is
   * lost: the answerer's only answer arrives while the buzz reply is still
   * being sent, and the question ends in `time`.
   */
  lemma AnswerBeforeArmingLost<Q>(channel: ChannelId, u: UserId, q: Q, judge: (Q, seq<string>) -> bool)
    ensures PlayRound({u}, channel, 1, [AudioStarted, Press(u), Chat(channel, u, "a"), AnswersArmed], q, judge)
      == Some(RoundResult(Time, Some(u), None))
  {
    var es := [AudioStarted, Press(u), Chat(channel, u, "a"), AnswersArmed];
    assert Accepted({u}, es, 1) by { assert es[..1][0] == AudioStarted; }
    assert !TimedOutBefore(es, 1) by { assert es[..1] == [AudioStarted]; }
    assert Buzz({u}, es) == Some(1);
    assert ArmedAt(es, 2) == 3;
    assert es[3..] == [AnswersArmed];
    assert CollectAnswers(channel, u, 1, es[3..], []) == (false, []);
  }

  /**
   * The answer filter compares case-sensitively while the command collector
   * lowercases: when the game runs in the channel it was started from, the
   * answerer's `ENDTRIVIA` is both an answer and the end command.
   */
  lemma UppercaseCommandIsAnswer(channel: ChannelId, answerer: UserId)
    ensures CountsAsAnswer(channel, answerer, Chat(channel, answerer, "ENDTRIVIA"))
    ensures CommandsIn(channel, [Chat(channel, answerer, "ENDTRIVIA")]) == ([], true)
  {
    UpperEndTriviaNotListed();
    LowercasedEndTrivia();
  }

  /**
   * When the game channel differs from the start channel, no message is
   * both: an answer is ignored by the command collector, and a message in
   * the start channel never counts as an answer.
   */
  lemma SeparateChannels(channel: ChannelId, startChannel: ChannelId, answerer: UserId, e: RoundEvent)
    requires channel != startChannel
    ensures CountsAsAnswer(channel, answerer, e) ==> CommandsIn(startChannel, [e]) == ([], false)
    ensures e.Chat? && e.channel == startChannel ==> !CountsAsAnswer(channel, answerer, e)
  {
    if CountsAsAnswer(channel, answerer, e) {
      assert CommandsIn(startChannel, [e]) == (BoardsFor(startChannel, e) + CommandsIn(startChannel, [e][1..]).0, false);
    }
  }

  lemma UpperEndTriviaNotListed()
    ensures "ENDTRIVIA" !in Commands
  {
    var upper := "ENDTRIVIA";
    assert upper != Commands[0] by { assert upper[0] != Commands[0][0]; }
    assert |Commands[1]| != 9 && |Commands[2]| != 9 && |Commands[3]| != 9 && |Commands[4]| != 9;
  }

  // ---------------------------------------------------------------------
  // The command collector.

  /** A leaderboard sent in reply to a command. */
  datatype Board = TeamBoard | PlayerBoard

  /** The collector's filter: the lowercased message is one of `commands`. */
  predicate IsCommand(content: string) {
    ToLower(content) in Commands
  }

  /** A chat message in the given channel. */
  predicate InChannel(channel: ChannelId, e: RoundEvent) {
    e.Chat? && e.channel == channel
  }

  /** The leaderboards a message in the start channel asks for. */
  function BoardsFor(startChannel: ChannelId, e: RoundEvent): (r: seq<Board>)
    ensures InChannel(startChannel, e) && ToLower(e.content) in ["teamlb", "tlb"] ==> r == [TeamBoard]
    ensures InChannel(startChannel, e) && ToLower(e.content) in ["playerlb", "plb"] ==> r == [PlayerBoard]
    ensures !(InChannel(startChannel, e) && ToLower(e.content) in ["teamlb", "tlb", "playerlb", "plb"]) ==> r == []
  {
    if !InChannel(startChannel, e) then []
    else
      var c := ToLower(e.content);
      if c == "teamlb" || c == "tlb" then [TeamBoard]
      else if c == "playerlb" || c == "plb" then [PlayerBoard]
      else []
  }

  /**
   * The command collector on the start channel over a question's events:
   * the leaderboards sent, and whether `endtrivia` arrived (after which the
   * collector is stopped).
   */
  function CommandsIn(startChannel: ChannelId, es: seq<RoundEvent>): (r: (seq<Board>, bool))
    ensures |r.0| <= |es|
  {
    if es == [] then ([], false)
    else if InChannel(startChannel, es[0]) && ToLower(es[0].content) == "endtrivia" then ([], true)
    else
      var rest := CommandsIn(startChannel, es[1..]);
      (BoardsFor(startChannel, es[0]) + rest.0, rest.1)
  }

  /** A message in the start channel that lowercases to `endtrivia`. */
  predicate EndsGame(startChannel: ChannelId, e: RoundEvent) {
    InChannel(startChannel, e) && ToLower(e.content) == "endtrivia"
  }

  /** One message: `endtrivia` ends the game, any other gets its leaderboards. */
  lemma CommandsInOne(startChannel: ChannelId, e: RoundEvent)
    ensures CommandsIn(startChannel, [e]) == if EndsGame(startChannel, e) then ([], true) else (BoardsFor(startChannel, e), false)
  {
    assert [e][1..] == [];
    assert CommandsIn(startChannel, []) == ([], false);
    assert BoardsFor(startChannel, e) + [] == BoardsFor(startChannel, e);
  }

  /**
   * Before any `endtrivia`, the collector answers the messages one by one:
   * over `a + b` it sends the boards of `a` followed by those of `b`.
   */
  lemma {:induction false} CommandsInAppend(startChannel: ChannelId, a: seq<RoundEvent>, b: seq<RoundEvent>)
    requires forall k :: 0 <= k < |a| ==> !EndsGame(startChannel, a[k])
    ensures CommandsIn(startChannel, a + b) ==
      (CommandsIn(startChannel, a).0 + CommandsIn(startChannel, b).0, CommandsIn(startChannel, b).1)
    decreases |a|
  {
    if a == [] {
      assert a + b == b;
      assert CommandsIn(startChannel, a).0 + CommandsIn(startChannel, b).0 == CommandsIn(startChannel, b).0;
    } else {
      assert !EndsGame(startChannel, a[0]);
      assert (a + b)[0] == a[0] && (a + b)[1..] == a[1..] + b;
      CommandsInAppend(startChannel, a[1..], b);
      assert CommandsIn(startChannel, a + b) ==
        (BoardsFor(startChannel, a[0]) + CommandsIn(startChannel, a[1..] + b).0, CommandsIn(startChannel, a[1..] + b).1);
      assert CommandsIn(startChannel, a).0 == BoardsFor(startChannel, a[0]) + CommandsIn(startChannel, a[1..]).0;
      assert BoardsFor(startChannel, a[0]) + (CommandsIn(startChannel, a[1..]).0 + CommandsIn(startChannel, b).0) ==
        (BoardsFor(startChannel, a[0]) + CommandsIn(startChannel, a[1..]).0) + CommandsIn(startChannel, b).0;
    }
  }

  /**
   * A leaderboard command in the start channel, with no `endtrivia` before
   * it, gets its board, in its place among the others.
   */
  lemma CommandGetsBoard(startChannel: ChannelId, es: seq<RoundEvent>, k: nat)
    requires k < |es|
    requires forall j :: 0 <= j <= k ==> !EndsGame(startChannel, es[j])
    ensures CommandsIn(startChannel, es).0 ==
      CommandsIn(startChannel, es[..k]).0 + BoardsFor(startChannel, es[k]) + CommandsIn(startChannel, es[k + 1..]).0
    ensures InChannel(startChannel, es[k]) && ToLower(es[k].content) in ["teamlb", "tlb"] ==>
      TeamBoard in CommandsIn(startChannel, es).0
    ensures InChannel(startChannel, es[k]) && ToLower(es[k].content) in ["playerlb", "plb"] ==>
      PlayerBoard in CommandsIn(startChannel, es).0
  {
    assert es == es[..k] + ([es[k]] + es[k + 1..]);
    CommandsInAppend(startChannel, es[..k], [es[k]] + es[k + 1..]);
    CommandsInAppend(startChannel, [es[k]], es[k + 1..]);
    CommandsInOne(startChannel, es[k]);
  }

  /**
   * The game is ended by the collector exactly when some message in the
   * start channel lowercases to `endtrivia`.
   */
  lemma {:induction false} EndsOnEndtrivia(startChannel: ChannelId, es: seq<RoundEvent>)
    ensures CommandsIn(startChannel, es).1 <==>
      exists k :: 0 <= k < |es| && InChannel(startChannel, es[k]) && ToLower(es[k].content) == "endtrivia"
    decreases |es|
  {
    if es != [] {
      EndsOnEndtrivia(startChannel, es[1..]);
      if exists k :: 1 <= k < |es| && InChannel(startChannel, es[k]) && ToLower(es[k].content) == "endtrivia" {
        var k :| 1 <= k < |es| && InChannel(startChannel, es[k]) && ToLower(es[k].content) == "endtrivia";
        assert es[1..][k - 1] == es[k];
      }
    }
  }

  /** Every board sent answers a command message in the start channel. */
  lemma {:induction false} BoardsAnswerCommands(startChannel: ChannelId, es: seq<RoundEvent>)
    ensures forall b :: b in CommandsIn(startChannel, es).0 ==>
      exists k :: 0 <= k < |es| && InChannel(startChannel, es[k]) && IsCommand(es[k].content) && b in BoardsFor(startChannel, es[k])
    decreases |es|
  {
    if es != [] && !(InChannel(startChannel, es[0]) && ToLower(es[0].content) == "endtrivia") {
      BoardsAnswerCommands(startChannel, es[1..]);
      forall b | b in CommandsIn(startChannel, es).0
        ensures exists k :: 0 <= k < |es| && InChannel(startChannel, es[k]) && IsCommand(es[k].content) && b in BoardsFor(startChannel, es[k])
      {
        if b in BoardsFor(startChannel, es[0]) {
          assert InChannel(startChannel, es[0]) && IsCommand(es[0].content);
        } else {
          assert CommandsIn(startChannel, es).0 == BoardsFor(startChannel, es[0]) + CommandsIn(startChannel, es[1..]).0;
          assert b in CommandsIn(startChannel, es[1..]).0;
          var k :| 0 <= k < |es[1..]| && InChannel(startChannel, es[1..][k]) && IsCommand(es[1..][k].content) && b in BoardsFor(startChannel, es[1..][k]);
          assert es[k + 1] == es[1..][k];
        }
      }
    }
  }
}
