/**
 * The question loop of `playVoiceGame` (src/game/playvoicegame.js) with its
 * command collector, the text-to-speech pre-generation window
 * (`prepareNextQuestions`), the audio cache check and the durations of the
 * buzz and result sounds.
 *
 * Each question's events are an input (one event list per question, the
 * messages of both channels tagged with their channel); the judge
 * (`judgeAnswer`) is a parameter and score keeping (`processResult`) is
 * recorded as the list of results handed to it.
 */
module VoiceGame {
  import opened Types
  import opened QuestionSets
  import opened VoiceRound

  /** A queue entry `[questionId, question]`. */
  datatype Entry = Entry(id: string, q: Question)

  /** One speech synthesis request of `prepareNextQuestions`. */
  datatype Job = QuestionAudio(id: string) | AnswerAudio(id: string)

  function Min(a: nat, b: nat): nat {
    if a <= b then a else b
  }

  /**
   * The queue indices `[start, stop)` that `prepareNextQuestions` prepares
   * for a queue of `len` entries at `questionNumber`, or none when it
   * returns early.
   */
  function Window(len: nat, questionNumber: int): (w: Option<(nat, nat)>)
    ensures w.Some? ==> w.value.0 <= w.value.1 <= len && w.value.1 - w.value.0 <= 10
    ensures w.None? <==> questionNumber != 1 && len < 6
  {
    if questionNumber == 1 then Some((0, Min(len, 10)))
    else if len < 6 then None
    else Some((6, Min(len, 16)))
  }

  /** The synthesis of `entries`: a question job then an answer job for each, in order. */
  function JobsFor(entries: seq<Entry>): (r: seq<Job>)
    ensures |r| == 2 * |entries|
  {
    if entries == [] then []
    else [QuestionAudio(entries[0].id), AnswerAudio(entries[0].id)] + JobsFor(entries[1..])
  }

  /** Entry `k` has its question job at `2 * k` and its answer job right after. */
  lemma {:induction false} JobsForAt(entries: seq<Entry>, k: nat)
    requires k < |entries|
    ensures JobsFor(entries)[2 * k] == QuestionAudio(entries[k].id)
    ensures JobsFor(entries)[2 * k + 1] == AnswerAudio(entries[k].id)
    decreases k
  {
    if k > 0 {
      JobsForAt(entries[1..], k - 1);
    }
  }

  lemma {:induction false} JobsForSnoc(entries: seq<Entry>, e: Entry)
    ensures JobsFor(entries + [e]) == JobsFor(entries) + [QuestionAudio(e.id), AnswerAudio(e.id)]
    decreases |entries|
  {
    if entries == [] {
      assert entries + [e] == [e];
    } else {
      assert (entries + [e])[1..] == entries[1..] + [e];
      JobsForSnoc(entries[1..], e);
    }
  }

  /** The batch `prepareNextQuestions` starts for `questions` at `questionNumber`. */
  function BatchJobs(questions: seq<Entry>, questionNumber: int): seq<Job> {
    match Window(|questions|, questionNumber)
    case None => []
    case Some((start, stop)) => JobsFor(questions[start..stop])
  }

  /** A batch has one question and one answer job per index of the window, in order. */
  lemma BatchAt(questions: seq<Entry>, questionNumber: int)
    requires Window(|questions|, questionNumber).Some?
    ensures var (start, stop) := Window(|questions|, questionNumber).value;
      var jobs := BatchJobs(questions, questionNumber);
      && |jobs| == 2 * (stop - start)
      && forall k :: 0 <= k < stop - start ==>
           jobs[2 * k] == QuestionAudio(questions[start + k].id) &&
           jobs[2 * k + 1] == AnswerAudio(questions[start + k].id)
  {
    var (start, stop) := Window(|questions|, questionNumber).value;
    forall k | 0 <= k < stop - start
      ensures BatchJobs(questions, questionNumber)[2 * k] == QuestionAudio(questions[start + k].id)
      ensures BatchJobs(questions, questionNumber)[2 * k + 1] == AnswerAudio(questions[start + k].id)
    {
      JobsForAt(questions[start..stop], k);
    }
  }

  /** `prepareNextQuestions`: one question and one answer job per index of the window, in order. */
  method PrepareNextQuestions(questions: seq<Entry>, questionNumber: int) returns (jobs: seq<Job>)
    ensures jobs == BatchJobs(questions, questionNumber)
    ensures Window(|questions|, questionNumber).None? ==> jobs == []
    ensures Window(|questions|, questionNumber).Some? ==>
      var (start, stop) := Window(|questions|, questionNumber).value;
      && |jobs| == 2 * (stop - start)
      && forall k :: 0 <= k < stop - start ==>
           jobs[2 * k] == QuestionAudio(questions[start + k].id) &&
           jobs[2 * k + 1] == AnswerAudio(questions[start + k].id)
  {
    jobs := [];
    var w := Window(|questions|, questionNumber);
    if w.None? {
      return;
    }
    var (start, stop) := w.value;
    for i := start to stop
      invariant jobs == JobsFor(questions[start..i])
    {
      JobsForSnoc(questions[start..i], questions[i]);
      assert questions[start..i + 1] == questions[start..i] + [questions[i]];
      jobs := jobs + [QuestionAudio(questions[i].id), AnswerAudio(questions[i].id)];
    }
    BatchAt(questions, questionNumber);
  }

  /**
   * The first batch, prepared before the loop, covers questions 1 to 10 (or
   * all of them when there are fewer): it holds the question and the answer
   * job of each.
   */
  lemma FirstBatchCovers(all: seq<Entry>, n: nat)
    requires 1 <= n <= |all| && n <= 10
    ensures Window(|all|, 1) == Some((0, Min(|all|, 10)))
    ensures QuestionAudio(all[n - 1].id) in BatchJobs(all, 1) && AnswerAudio(all[n - 1].id) in BatchJobs(all, 1)
  {
    var b := JobsFor(all[0..Min(|all|, 10)]);
    JobsForAt(all[0..Min(|all|, 10)], n - 1);
    assert b[2 * (n - 1)] == QuestionAudio(all[n - 1].id);
    assert b[2 * (n - 1) + 1] == AnswerAudio(all[n - 1].id);
  }

  /**
   * Every later question `n` is prepared by exactly one batch: the one
   * launched at question `q` (`q % 10 == 5`), when the queue holds questions
   * `q ..`, and that batch is awaited at question `q + 5`, before `n` is
   * asked. The first batch ends at question 10, so no question is prepared
   * twice.
   */
  lemma LaterBatchCovers(total: nat, n: nat)
    requires 11 <= n <= total
    ensures var q := n - 6 - (n - 11) % 10;
      && 1 <= q && q % 10 == 5
      && (q + 5) % 10 == 0 && q + 5 < n
      && Window(total - (q - 1), q).Some?
      && Window(total - (q - 1), q).value.0 <= n - q < Window(total - (q - 1), q).value.1
    ensures forall q' :: 1 <= q' && q' % 10 == 5 && 6 <= n - q' < 16 ==> q' == n - 6 - (n - 11) % 10
  {
  }

  /** The audio directory is complete: one file per question, one per answer, and the description. */
  predicate Cached(fileCount: nat, numQuestions: nat) {
    fileCount == 2 * numQuestions + 1
  }

  /**
   * The batches started over the first `k` questions of `all`: at each
   * question number `k` ending in 5, the window of the queue `all[k - 1..]`
   * that remains then.
   */
  function LaterJobs(all: seq<Entry>, k: nat): seq<Job>
    requires k <= |all|
  {
    if k == 0 then []
    else LaterJobs(all, k - 1) + (if k % 10 == 5 then BatchJobs(all[k - 1..], k) else [])
  }

  function Max(a: int, b: int): int {
    if a >= b then a else b
  }

  /**
   * The number of questions the later batches cover after `k` questions:
   * those after question 10 up to 15 past the last launch point.
   */
  function LaterCovered(total: nat, k: nat): nat {
    if k < 5 then 0 else Max(0, Min(total, k + 15 - (k - 5) % 10) - 10)
  }

  /** How the covered count grows by question `k`: by the window launched there, if any. */
  lemma LaterCoveredStep(total: nat, k: nat)
    requires 1 <= k <= total
    ensures k % 10 != 5 ==> LaterCovered(total, k) == LaterCovered(total, k - 1)
    ensures k % 10 == 5 ==>
      LaterCovered(total, k) == LaterCovered(total, k - 1) + (if total - k + 1 < 6 then 0 else Min(total - k + 1, 16) - 6)
  {
    if k % 10 == 5 {
      assert k == 5 || (k - 1 - 5) % 10 == 9;
    } else if k > 5 {
      assert (k - 5) % 10 == (k - 1 - 5) % 10 + 1;
    }
  }

  lemma {:induction false} LaterJobsLength(all: seq<Entry>, k: nat)
    requires k <= |all|
    ensures |LaterJobs(all, k)| == 2 * LaterCovered(|all|, k)
    decreases k
  {
    if k > 0 {
      LaterJobsLength(all, k - 1);
      LaterCoveredStep(|all|, k);
      if k % 10 == 5 {
        var rest := all[k - 1..];
        assert |rest| == |all| - k + 1;
        assert |BatchJobs(rest, k)| == 2 * (if |rest| < 6 then 0 else Min(|rest|, 16) - 6);
      }
    }
  }

  /**
   * A game that asks every question of `all` without a cache generates,
   * through its first and later batches, exactly the files the cache check
   * counts, so the next game on the set uses the cache.
   */
  lemma CacheCountsFullGeneration(all: seq<Entry>)
    ensures Cached(|BatchJobs(all, 1) + LaterJobs(all, |all|)| + 1, |all|)
  {
    LaterJobsLength(all, |all|);
  }

  /**
   * Every question's audio has been started before it is asked: question
   * `n` is in the first batch or in a later batch launched at least five
   * questions earlier.
   */
  lemma PreparedBeforeAsked(all: seq<Entry>, n: nat)
    requires 1 <= n <= |all|
    ensures var started := BatchJobs(all, 1) + LaterJobs(all, n - 1);
      QuestionAudio(all[n - 1].id) in started && AnswerAudio(all[n - 1].id) in started
  {
    if n <= 10 {
      FirstBatchCovers(all, n);
    } else {
      var q := n - 6 - (n - 11) % 10;
      LaterBatchCovers(|all|, n);
      LaterHolds(all, q, n);
    }
  }

  /** The batch launched at `q` holds the jobs of question `n`, 6 to 15 places on. */
  lemma LaterHolds(all: seq<Entry>, q: nat, n: nat)
    requires 1 <= q && q % 10 == 5 && q + 6 <= n <= |all| && n - q < 16
    ensures QuestionAudio(all[n - 1].id) in LaterJobs(all, n - 1)
    ensures AnswerAudio(all[n - 1].id) in LaterJobs(all, n - 1)
  {
    var rest := all[q - 1..];
    assert Window(|rest|, q) == Some((6, Min(|rest|, 16)));
    BatchHolds(rest, q, n - q);
    assert rest[n - q] == all[n - 1];
    LaterJobsPrefix(all, q, n - 1);
  }

  /** A batch holds the jobs of every queue entry inside its window. */
  lemma BatchHolds(questions: seq<Entry>, questionNumber: int, i: nat)
    requires Window(|questions|, questionNumber).Some?
    requires Window(|questions|, questionNumber).value.0 <= i < Window(|questions|, questionNumber).value.1
    ensures QuestionAudio(questions[i].id) in BatchJobs(questions, questionNumber)
    ensures AnswerAudio(questions[i].id) in BatchJobs(questions, questionNumber)
  {
    var (start, stop) := Window(|questions|, questionNumber).value;
    var window := questions[start..stop];
    assert window[i - start] == questions[i];
    JobsForAt(window, i - start);
  }

  /** Later launches only append: the batches started by question `i` stay at the front. */
  lemma {:induction false} LaterJobsPrefix(all: seq<Entry>, i: nat, k: nat)
    requires 1 <= i <= k <= |all| && i % 10 == 5
    ensures forall j :: j in BatchJobs(all[i - 1..], i) ==> j in LaterJobs(all, k)
    decreases k
  {
    if k > i {
      LaterJobsPrefix(all, i, k - 1);
    }
  }

  /** Lengths of the fixed sound effects, in milliseconds. */
  datatype Sounds = Sounds(correct: nat, incorrect: nat, time: nat, nobuzz: nat)

  /** `speakResult`: how long the result sound, and the answer read after it, take. */
  function ResultDuration(o: Outcome, answerDuration: nat, d: Sounds): (ms: nat)
    ensures o == Correct ==> ms == d.correct
    ensures o != Correct ==> ms >= answerDuration + 200
  {
    match o
    case Correct => d.correct
    case Incorrect => answerDuration + d.incorrect + 200
    case Time => answerDuration + d.time + 200
    case NoBuzz => answerDuration + d.nobuzz + 200
  }

  /**
   * Only an outcome other than `correct` reads the answer aloud: a longer
   * answer recording lengthens the pause by exactly its extra length, and
   * never after a correct answer.
   */
  lemma AnswerReadUnlessCorrect(o: Outcome, a: nat, extra: nat, d: Sounds)
    ensures ResultDuration(o, a + extra, d) ==
      ResultDuration(o, a, d) + (if o == Correct then 0 else extra)
  {
  }

  /** `speakBuzz`: the team's buzzer sound followed by the team's name. */
  function BuzzDuration(team: nat, buzzers: seq<nat>, names: seq<nat>): (ms: nat)
    requires team < |buzzers| && team < |names|
    ensures ms >= buzzers[team] && ms >= names[team]
    ensures ms >= buzzers[team] + names[team]
  {
    buzzers[team] + names[team]
  }

  /**
   * The leaderboards sent by the command collector: `preBoards` before the
   * first question, then those of the first `k` questions.
   */
  function BoardsSent(startChannel: ChannelId, preBoards: seq<Board>, rounds: seq<seq<RoundEvent>>, k: nat): seq<Board>
    requires k <= |rounds|
  {
    if k == 0 then preBoards
    else BoardsSent(startChannel, preBoards, rounds, k - 1) + CommandsIn(startChannel, rounds[k - 1]).0
  }

  /** Question `i` of `queue`, played on the events `rounds[i]`; None when it never settles. */
  function Played(players: set<UserId>, channel: ChannelId, queue: seq<Entry>, rounds: seq<seq<RoundEvent>>,
                  judge: (Question, seq<string>) -> bool, i: nat): Option<RoundResult>
    requires i < |queue| && i < |rounds|
  {
    PlayRound(players, channel, queue[i].q.multi, rounds[i], queue[i].q, judge)
  }

  /** What `processResult` receives for the first `k` questions of `queue`: one call per settled question. */
  function ResultsOf(players: set<UserId>, channel: ChannelId, queue: seq<Entry>, rounds: seq<seq<RoundEvent>>,
                     judge: (Question, seq<string>) -> bool, k: nat): (r: seq<(Entry, RoundResult)>)
    requires k <= |queue| && k <= |rounds|
    ensures |r| <= k
  {
    if k == 0 then []
    else
      var p := Played(players, channel, queue, rounds, judge, k - 1);
      ResultsOf(players, channel, queue, rounds, judge, k - 1) + (if p.Some? then [(queue[k - 1], p.value)] else [])
  }

  /** When each of the first `k` questions settles, `processResult` has been called `k` times. */
  lemma {:induction false} ResultsCount(players: set<UserId>, channel: ChannelId, queue: seq<Entry>, rounds: seq<seq<RoundEvent>>,
                                        judge: (Question, seq<string>) -> bool, k: nat)
    requires k <= |queue| && k <= |rounds|
    requires forall j :: 0 <= j < k ==> Played(players, channel, queue, rounds, judge, j).Some?
    ensures |ResultsOf(players, channel, queue, rounds, judge, k)| == k
    decreases k
  {
    if k > 0 {
      ResultsCount(players, channel, queue, rounds, judge, k - 1);
      assert Played(players, channel, queue, rounds, judge, k - 1).Some?;
    }
  }

  /**
   * When each question up to `i` settles, the `i`-th call of
   * `processResult` is question `i`, played on its own events.
   */
  lemma {:induction false} ResultsOfAt(players: set<UserId>, channel: ChannelId, queue: seq<Entry>, rounds: seq<seq<RoundEvent>>,
                                       judge: (Question, seq<string>) -> bool, k: nat, i: nat)
    requires k <= |queue| && k <= |rounds| && i < k
    requires forall j :: 0 <= j <= i ==> Played(players, channel, queue, rounds, judge, j).Some?
    ensures |ResultsOf(players, channel, queue, rounds, judge, k)| > i
    ensures ResultsOf(players, channel, queue, rounds, judge, k)[i] ==
      (queue[i], Played(players, channel, queue, rounds, judge, i).value)
    decreases k
  {
    if i < k - 1 {
      ResultsOfAt(players, channel, queue, rounds, judge, k - 1, i);
    } else {
      ResultsCount(players, channel, queue, rounds, judge, i);
    }
  }

  /** The question numbers among `1 .. k` at which a later batch is launched. */
  function LaunchPoints(k: nat): (r: seq<nat>)
    ensures forall i :: 0 <= i < |r| ==> 1 <= r[i] <= k && r[i] % 10 == 5
  {
    if k == 0 then [] else LaunchPoints(k - 1) + (if k % 10 == 5 then [k] else [])
  }

  /** `endtrivia` arrived in the start channel during question `i`. */
  predicate EndRequested(startChannel: ChannelId, rounds: seq<seq<RoundEvent>>, i: nat)
    requires i < |rounds|
  {
    CommandsIn(startChannel, rounds[i]).1
  }

  /**
   * What `processResult` has received after `k` questions, and whether the
   * loop waits on the last of them.
   */
  ghost predicate SettledSoFar(players: set<UserId>, channel: ChannelId, all: seq<Entry>, rounds: seq<seq<RoundEvent>>,
                               judge: (Question, seq<string>) -> bool, k: nat, stalled: bool, results: seq<(Entry, RoundResult)>)
    requires k <= |all| && k <= |rounds|
  {
    && results == ResultsOf(players, channel, all, rounds, judge, k)
    && (forall i :: 0 <= i < k ==> (Played(players, channel, all, rounds, judge, i).None? <==> stalled && i == k - 1))
    && (stalled ==> k > 0)
  }

  /** Playing question `k` after `k` settled questions. */
  lemma SettledStep(players: set<UserId>, channel: ChannelId, all: seq<Entry>, rounds: seq<seq<RoundEvent>>,
                    judge: (Question, seq<string>) -> bool, k: nat, before: seq<(Entry, RoundResult)>,
                    stalled: bool, after: seq<(Entry, RoundResult)>)
    requires k < |all| && k < |rounds|
    requires SettledSoFar(players, channel, all, rounds, judge, k, false, before)
    requires var p := Played(players, channel, all, rounds, judge, k);
      stalled == p.None? && after == before + (if p.Some? then [(all[k], p.value)] else [])
    ensures SettledSoFar(players, channel, all, rounds, judge, k + 1, stalled, after)
  {
  }

  /**
   * What the command collector has done after `k` questions, with
   * `pre` the leaderboards it sent and whether it ended the game before
   * the first question.
   */
  ghost predicate HeardSoFar(startChannel: ChannelId, pre: (seq<Board>, bool), rounds: seq<seq<RoundEvent>>,
                             k: nat, ended: bool, boards: seq<Board>)
    requires k <= |rounds|
  {
    && (forall i :: 0 <= i < k ==> (EndRequested(startChannel, rounds, i) <==> ended && i == k - 1))
    && (ended ==> k > 0 || pre.1)
    && (pre.1 ==> k == 0 && ended)
    && boards == BoardsSent(startChannel, pre.0, rounds, k)
  }

  /** The command collector over the events of question `k`. */
  lemma HeardStep(startChannel: ChannelId, pre: (seq<Board>, bool), rounds: seq<seq<RoundEvent>>,
                  k: nat, before: seq<Board>, ended: bool, after: seq<Board>)
    requires k < |rounds|
    requires HeardSoFar(startChannel, pre, rounds, k, false, before)
    requires ended == EndRequested(startChannel, rounds, k)
    requires after == before + CommandsIn(startChannel, rounds[k]).0
    ensures HeardSoFar(startChannel, pre, rounds, k + 1, ended, after)
  {
  }

  /** The later batches started and the synthesis jobs after `k` questions. */
  ghost predicate BatchesSoFar(all: seq<Entry>, cached: bool, k: nat, launched: seq<nat>, jobs: seq<Job>)
    requires k <= |all|
  {
    && launched == (if cached then [] else LaunchPoints(k))
    && jobs == (if cached then [] else BatchJobs(all, 1) + LaterJobs(all, k))
  }

  /** Question `k + 1` starts the batch of the remaining queue when its number ends in 5. */
  lemma BatchesStep(all: seq<Entry>, cached: bool, k: nat, launched: seq<nat>, jobs: seq<Job>,
                    launched': seq<nat>, jobs': seq<Job>)
    requires k < |all|
    requires BatchesSoFar(all, cached, k, launched, jobs)
    requires launched' == launched + (if !cached && (k + 1) % 10 == 5 then [k + 1] else [])
    requires jobs' == jobs + (if !cached && (k + 1) % 10 == 5 then BatchJobs(all[k..], k + 1) else [])
    ensures BatchesSoFar(all, cached, k + 1, launched', jobs')
  {
    if !cached {
      var b := BatchJobs(all, 1);
      var l := LaterJobs(all, k);
      assert all[k + 1 - 1..] == all[k..];
      if (k + 1) % 10 == 5 {
        var x := BatchJobs(all[k..], k + 1);
        assert LaterJobs(all, k + 1) == l + x;
        assert (b + l) + x == b + (l + x);
      } else {
        assert LaterJobs(all, k + 1) == l + [];
        assert l + [] == l;
      }
    }
  }

  /** The state `playVoiceGame` updates while it asks the questions. */
  class VoiceGame {
    const players: set<UserId>
    /** The channel the questions are asked in, and the one the game was started from. */
    const channel: ChannelId
    const startChannel: ChannelId
    const cached: bool
    var questions: seq<Entry>
    var questionNumber: nat
    var ended: bool
    /** The loop waits forever on a question whose answer collector never settles. */
    var stalled: bool
    var collectorOpen: bool
    var endGameCalls: nat
    /** Every call of `processResult`, in order. */
    var results: seq<(Entry, RoundResult)>
    /** The leaderboards sent in reply to commands. */
    var boards: seq<Board>
    /** The synthesis jobs started. */
    var jobs: seq<Job>
    /** The question numbers at which a later batch was started. */
    var launched: seq<nat>

    predicate Fresh()
      reads this
    {
      && questionNumber == 1 && !ended && !stalled && collectorOpen && endGameCalls == 0
      && results == [] && boards == [] && jobs == [] && launched == []
    }

    constructor (players: set<UserId>, channel: ChannelId, startChannel: ChannelId, questions: seq<Entry>, cached: bool)
      ensures this.players == players && this.channel == channel && this.startChannel == startChannel
      ensures this.questions == questions && this.cached == cached
      ensures Fresh()
    {
      this.players := players;
      this.channel := channel;
      this.startChannel := startChannel;
      this.questions := questions;
      this.cached := cached;
      questionNumber := 1;
      ended := false;
      stalled := false;
      collectorOpen := true;
      endGameCalls := 0;
      results := [];
      boards := [];
      jobs := [];
      launched := [];
    }

    /** `endGame`: sets `ended` and stops the command collector. */
    method EndGame()
      modifies this
      ensures ended && !collectorOpen && endGameCalls == old(endGameCalls) + 1
      ensures stalled == old(stalled)
      ensures questions == old(questions) && questionNumber == old(questionNumber)
      ensures results == old(results) && boards == old(boards)
      ensures jobs == old(jobs) && launched == old(launched)
    {
      ended := true;
      collectorOpen := false;
      endGameCalls := endGameCalls + 1;
    }

    /** The command collector on the start channel over one question's events. */
    method Commands(es: seq<RoundEvent>)
      requires collectorOpen && !ended
      modifies this
      ensures boards == old(boards) + CommandsIn(startChannel, es).0
      ensures ended == CommandsIn(startChannel, es).1 && collectorOpen == !ended
      ensures endGameCalls == old(endGameCalls) + (if ended then 1 else 0)
      ensures stalled == old(stalled)
      ensures questions == old(questions) && questionNumber == old(questionNumber)
      ensures results == old(results) && jobs == old(jobs) && launched == old(launched)
    {
      var (sent, end) := CommandsIn(startChannel, es);
      boards := boards + sent;
      if end {
        EndGame();
      }
    }

    /**
     * One iteration of the question loop: start the next batch at question
     * numbers ending in 5, take the front question off the queue, play it,
     * hand the result on and move to the next number, while the command
     * collector runs over the question's events. A question that never
     * settles leaves the loop waiting on it, with no result.
     */
    method AskNext(round: seq<RoundEvent>, judge: (Question, seq<string>) -> bool)
      requires |questions| > 0 && !ended && !stalled && collectorOpen
      modifies this
      ensures var p := PlayRound(players, channel, old(questions)[0].q.multi, round, old(questions)[0].q, judge);
        && stalled == p.None?
        && results == old(results) + (if p.Some? then [(old(questions)[0], p.value)] else [])
      ensures questions == old(questions)[1..]
      ensures questionNumber == old(questionNumber) + (if stalled then 0 else 1)
      ensures boards == old(boards) + CommandsIn(startChannel, round).0
      ensures ended == CommandsIn(startChannel, round).1 && collectorOpen == !ended
      ensures endGameCalls == old(endGameCalls) + (if ended then 1 else 0)
      ensures launched == old(launched) + (if !cached && old(questionNumber) % 10 == 5 then [old(questionNumber)] else [])
      ensures jobs == old(jobs) + (if !cached && old(questionNumber) % 10 == 5 then BatchJobs(old(questions), old(questionNumber)) else [])
    {
      if !cached && questionNumber % 10 == 5 {
        var batch := PrepareNextQuestions(questions, questionNumber);
        jobs := jobs + batch;
        launched := launched + [questionNumber];
      }
      var entry := questions[0];
      questions := questions[1..];
      var result := PlayRound(players, channel, entry.q.multi, round, entry.q, judge);
      Commands(round);
      if result.Some? {
        results := results + [(entry, result.value)];
        questionNumber := questionNumber + 1;
      } else {
        stalled := true;
      }
    }

    /**
     * The loop state after `k` questions of `all`: what the ensures of
     * `Play` promise, with the game possibly still running.
     */
    ghost predicate Progress(all: seq<Entry>, pre: (seq<Board>, bool), rounds: seq<seq<RoundEvent>>,
                             judge: (Question, seq<string>) -> bool, k: nat)
      reads this
    {
      && k <= |all| <= |rounds|
      && questions == all[k..] && questionNumber == 1 + k - (if stalled then 1 else 0)
      && SettledSoFar(players, channel, all, rounds, judge, k, stalled, results)
      && HeardSoFar(startChannel, pre, rounds, k, ended, boards)
      && collectorOpen == !ended && endGameCalls == (if ended then 1 else 0)
      && BatchesSoFar(all, cached, k, launched, jobs)
    }

    /** One turn of the loop keeps `Progress`, one question further on. */
    method Step(ghost all: seq<Entry>, ghost pre: (seq<Board>, bool), rounds: seq<seq<RoundEvent>>,
                judge: (Question, seq<string>) -> bool, k: nat)
      requires Progress(all, pre, rounds, judge, k) && |questions| > 0 && !ended && !stalled
      modifies this
      ensures Progress(all, pre, rounds, judge, k + 1)
    {
      assert all[k] == questions[0];
      ghost var results0, boards0, launched0, jobs0 := results, boards, launched, jobs;
      AskNext(rounds[k], judge);
      SettledStep(players, channel, all, rounds, judge, k, results0, stalled, results);
      HeardStep(startChannel, pre, rounds, k, boards0, ended, boards);
      BatchesStep(all, cached, k, launched0, jobs0, launched, jobs);
    }

    /**
     * Before the first question, with the first batch started unless cached
     * and the commands of `pre` handled, `Progress` holds at 0.
     */
    lemma Started(all: seq<Entry>, pre: (seq<Board>, bool), rounds: seq<seq<RoundEvent>>, judge: (Question, seq<string>) -> bool)
      requires questions == all && |rounds| >= |all|
      requires questionNumber == 1 && !stalled && results == [] && launched == []
      requires boards == pre.0 && ended == pre.1
      requires collectorOpen == !ended && endGameCalls == (if ended then 1 else 0)
      requires jobs == (if cached then [] else BatchJobs(all, 1))
      ensures Progress(all, pre, rounds, judge, 0)
    {
      assert all[0..] == all;
      assert LaterJobs(all, 0) == [];
      assert BatchJobs(all, 1) + [] == BatchJobs(all, 1);
    }

    /** When the loop stops after `k` questions, it stopped for one of its reasons. */
    lemma Stopped(all: seq<Entry>, pre: (seq<Board>, bool), rounds: seq<seq<RoundEvent>>, judge: (Question, seq<string>) -> bool, k: nat)
      requires Progress(all, pre, rounds, judge, k) && !(|questions| > 0 && !ended && !stalled)
      ensures questions == all[k..] && |all| - |questions| == k
      ensures forall i :: 0 <= i < k - 1 ==>
        !EndRequested(startChannel, rounds, i) && Played(players, channel, all, rounds, judge, i).Some?
      ensures stalled <==> k > 0 && Played(players, channel, all, rounds, judge, k - 1).None?
      ensures k < |all| ==>
        (k == 0 && pre.1) || (k > 0 && (EndRequested(startChannel, rounds, k - 1) || stalled))
      ensures |results| == k - (if stalled then 1 else 0)
    {
      ResultsLength(all, pre, rounds, judge, k);
    }

    /** The results of `k` questions number `k`, less the one that stalled. */
    lemma ResultsLength(all: seq<Entry>, pre: (seq<Board>, bool), rounds: seq<seq<RoundEvent>>, judge: (Question, seq<string>) -> bool, k: nat)
      requires Progress(all, pre, rounds, judge, k)
      ensures |results| == k - (if stalled then 1 else 0)
    {
      if stalled {
        ResultsCount(players, channel, all, rounds, judge, k - 1);
        assert Played(players, channel, all, rounds, judge, k - 1).None?;
      } else {
        ResultsCount(players, channel, all, rounds, judge, k);
      }
    }

    /**
     * The first batch, the question loop, then `endGame` unless `endtrivia`
     * already ran it. `pre` holds the events that reach the command
     * collector while the description and the first batch are synthesised;
     * with a cache nothing is awaited before the loop, so it is empty.
     * `rounds[i]` holds the events of the `i`-th question asked. A question
     * that never settles keeps the loop waiting, so `endGame` is then run
     * only by `endtrivia`.
     */
    method Play(pre: seq<RoundEvent>, rounds: seq<seq<RoundEvent>>, judge: (Question, seq<string>) -> bool)
      requires Fresh() && |rounds| >= |questions|
      requires cached ==> pre == []
      modifies this
      ensures var k := |old(questions)| - |questions|;
        && |questions| <= |old(questions)|
        && questions == old(questions)[k..]
        && questionNumber == 1 + k - (if stalled then 1 else 0)
        && results == ResultsOf(players, channel, old(questions), rounds, judge, k)
        && |results| == k - (if stalled then 1 else 0)
        && (forall i :: 0 <= i < k - 1 ==>
              !EndRequested(startChannel, rounds, i) && Played(players, channel, old(questions), rounds, judge, i).Some?)
        && (stalled <==> k > 0 && Played(players, channel, old(questions), rounds, judge, k - 1).None?)
        && (CommandsIn(startChannel, pre).1 ==> k == 0)
        && (k < |old(questions)| ==>
              (k == 0 && CommandsIn(startChannel, pre).1) || (k > 0 && (EndRequested(startChannel, rounds, k - 1) || stalled)))
        && boards == BoardsSent(startChannel, CommandsIn(startChannel, pre).0, rounds, k)
        && launched == (if cached then [] else LaunchPoints(k))
        && jobs == (if cached then [] else BatchJobs(old(questions), 1) + LaterJobs(old(questions), k))
      ensures !stalled ==> ended && !collectorOpen && endGameCalls == 1
      ensures stalled ==> endGameCalls == (if ended then 1 else 0) && collectorOpen == !ended
    {
      if !cached {
        jobs := PrepareNextQuestions(questions, questionNumber);
        Commands(pre);
      }
      ghost var all := questions;
      ghost var sent := CommandsIn(startChannel, pre);
      Started(all, sent, rounds, judge);
      var k := 0;
      while |questions| > 0 && !ended && !stalled
        invariant Progress(all, sent, rounds, judge, k)
        decreases |questions|
      {
        Step(all, sent, rounds, judge, k);
        k := k + 1;
      }
      Stopped(all, sent, rounds, judge, k);
      if !ended && !stalled {
        EndGame();
      }
    }
  }
}
