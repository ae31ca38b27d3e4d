/**
 * The content of the message embeds of src/helpers/embeds.js that carry
 * game logic: the set list page (`ListEmbed`), the lobby (`StartEmbed`),
 * the buzz notice (`BuzzEmbed`), the question (`QuestionEmbed`) and the
 * result of a question (`ResultEmbed`). Colours, timestamps and authors are
 * left out; an embed is its title, description, fields, image and footer.
 */
module Embeds {
  import opened Types
  import opened JsText
  import opened QuestionSets
  import VoiceRound
  import PreGame

  datatype Field = Field(name: string, value: string)

  datatype Embed = Embed(title: string, description: string, fields: seq<Field>, image: Option<string>, footer: Option<string>)

  // The discord.js text formatters.
  function Bold(s: string): string { "**" + s + "**" }
  function Underscore(s: string): string { "__" + s + "__" }
  function Code(s: string): string { "`" + s + "`" }
  function Mention(id: string): string { "<@" + id + ">" }

  /** A JavaScript string is truthy when it is present and not empty. */
  predicate Truthy(s: Option<string>) {
    s.Some? && s.value != ""
  }

  // ---------------------------------------------------------------------
  // ListEmbed

  /** A set list entry: the title and its owner's id. */
  datatype SetEntry = SetEntry(title: string, owner: string)

  /** `leftIndex`: the first entry of `page`. */
  function LeftIndex(page: nat): int {
    10 * (page - 1)
  }

  /** `rightIndex`: one past the last entry of `page`. */
  function RightIndex(page: nat, n: nat): nat {
    if 10 * page <= n then 10 * page else n
  }

  /** `questionSets.slice(leftIndex, rightIndex)`. */
  function PageSlice(page: nat, sets: seq<SetEntry>): (r: seq<SetEntry>)
    requires page >= 1
    ensures |r| <= 10
    ensures forall k :: 0 <= k < |r| ==> LeftIndex(page) + k < |sets| && r[k] == sets[LeftIndex(page) + k]
    ensures |r| == if LeftIndex(page) < |sets| then RightIndex(page, |sets|) - LeftIndex(page) else 0
  {
    var l := LeftIndex(page);
    var rt := RightIndex(page, |sets|);
    if l <= rt then sets[l..rt] else []
  }

  /** Every entry is on exactly one page, `i / 10 + 1`, at position `i % 10`. */
  lemma PagesPartition(sets: seq<SetEntry>, i: nat)
    requires i < |sets|
    ensures var p := i / 10 + 1;
      i % 10 < |PageSlice(p, sets)| && PageSlice(p, sets)[i % 10] == sets[i]
    ensures forall p: nat :: p >= 1 && LeftIndex(p) <= i < LeftIndex(p) + 10 ==> p == i / 10 + 1
  {
    var p := i / 10 + 1;
    assert LeftIndex(p) + i % 10 == i;
    forall p': nat | p' >= 1 && LeftIndex(p') <= i < LeftIndex(p') + 10 ensures p' == p {
      assert 10 * (p' - 1) <= i < 10 * (p' - 1) + 10;
      assert 10 * (p - 1) <= i < 10 * (p - 1) + 10;
    }
  }

  function ListLine(e: SetEntry): string {
    Code(e.title) + " - <@" + e.owner + ">\n"
  }

  /** The header line shown when a keyword was given. */
  function ListHeader(keyword: Option<string>): string {
    if Truthy(keyword) then Underscore("Matching query " + Bold(keyword.value) + "\n") else ""
  }

  /** The description the loop over the slice accumulates. */
  function ListText(keyword: Option<string>, slice: seq<SetEntry>): string {
    if slice == [] then ListHeader(keyword)
    else ListText(keyword, slice[..|slice| - 1]) + ListLine(slice[|slice| - 1])
  }

  /** The listing keeps the header first and names every set of the slice in order. */
  lemma {:induction false} ListTextShape(keyword: Option<string>, slice: seq<SetEntry>, k: nat)
    requires k <= |slice|
    ensures ListText(keyword, slice) == ListText(keyword, slice[..k]) + ListText(None, slice[k..])
    decreases |slice|
  {
    if k < |slice| {
      var m := |slice| - 1;
      var head, middle, last := ListText(keyword, slice[..k]), ListText(None, slice[k..m]), ListLine(slice[m]);
      assert ListText(keyword, slice) == ListText(keyword, slice[..m]) + last;
      assert ListText(keyword, slice[..m]) == head + middle by {
        ListTextShape(keyword, slice[..m], k);
        assert slice[..m][..k] == slice[..k];
        assert slice[..m][k..] == slice[k..m];
      }
      assert ListText(None, slice[k..]) == middle + last by {
        assert slice[k..][..|slice[k..]| - 1] == slice[k..m];
        assert slice[k..][|slice[k..]| - 1] == slice[m];
      }
      ConcatAssoc(head, middle, last);
    } else {
      assert slice[..k] == slice;
    }
  }

  /** `ListEmbed(page, maxPage, keyword, questionSets)`. */
  method ListEmbed(page: nat, maxPage: nat, keyword: Option<string>, sets: seq<SetEntry>) returns (e: Embed)
    requires page >= 1
    ensures e.title == "Page " + NumberText(page) + " of " + NumberText(maxPage)
    ensures e.description == ListText(keyword, PageSlice(page, sets))
    ensures e.footer == Some("Question Sets " + NumberText(LeftIndex(page) + 1) + " to " + NumberText(RightIndex(page, |sets|)))
    ensures e.fields == [] && e.image == None
  {
    var slice := PageSlice(page, sets);
    var description := ListHeader(keyword);
    for i := 0 to |slice|
      invariant description == ListText(keyword, slice[..i])
    {
      assert slice[..i + 1][..i] == slice[..i];
      description := description + ListLine(slice[i]);
    }
    assert slice[..|slice|] == slice;
    e := Embed("Page " + NumberText(page) + " of " + NumberText(maxPage), description, [], None,
               Some("Question Sets " + NumberText(LeftIndex(page) + 1) + " to " + NumberText(RightIndex(page, |sets|))));
  }

  // ---------------------------------------------------------------------
  // StartEmbed

  /** The field value of one team: one mention per line, or `None` for an empty team. */
  function MentionLines(ids: seq<string>): string {
    if ids == [] then "" else MentionLines(ids[..|ids| - 1]) + Mention(ids[|ids| - 1]) + "\n"
  }

  function TeamValue(ids: seq<string>): string {
    if MentionLines(ids) == "" then "None" else MentionLines(ids)
  }

  /** A team shows `None` exactly when it has no players, and otherwise one line per player. */
  lemma {:induction false} TeamValueLines(ids: seq<string>)
    requires forall i :: 0 <= i < |ids| ==> '\n' !in ids[i]
    ensures TeamValue(ids) == "None" <==> ids == []
    ensures ids != [] ==> Count(TeamValue(ids), '\n') == |ids|
    decreases |ids|
  {
    if ids != [] {
      var m := |ids| - 1;
      TeamValueLines(ids[..m]);
      var last := Mention(ids[m]) + "\n";
      assert MentionLines(ids) == MentionLines(ids[..m]) + last;
      CountAppend(MentionLines(ids[..m]), last, '\n');
      CountAppend(Mention(ids[m]), "\n", '\n');
      assert '\n' !in Mention(ids[m]) by {
        assert Mention(ids[m]) == "<@" + ids[m] + ">";
      }
      CountAbsent(Mention(ids[m]), '\n');
      if m == 0 {
        assert MentionLines(ids[..m]) == "";
      } else {
        assert Count(MentionLines(ids[..m]), '\n') == m by {
          assert MentionLines(ids[..m]) != "" by {
            assert Count(TeamValue(ids[..m]), '\n') == m;
            assert "None"[0] == 'N';
            CountAbsent("None", '\n');
          }
        }
      }
      assert |MentionLines(ids)| >= |last| > 0;
    }
  }

  /**
   * `StartEmbed(set, description, numTeams, teamInfo)`: one field per team
   * `0 .. numTeams - 1`, named after the configured team names. `order[i]`
   * is team `i`'s player set in its insertion order.
   */
  method StartEmbed(setName: string, description: string, numTeams: nat, names: seq<string>,
                    teams: seq<PreGame.Team>, order: seq<seq<string>>) returns (e: Embed)
    requires numTeams <= |names| && numTeams <= |teams| && numTeams <= |order|
    requires forall i :: 0 <= i < numTeams ==> forall u :: u in order[i] <==> u in teams[i].members
    ensures |e.fields| == numTeams
    ensures forall i :: 0 <= i < numTeams ==> e.fields[i] == Field(names[i], TeamValue(order[i]))
    ensures forall i :: 0 <= i < numTeams ==> (order[i] == [] <==> teams[i].members == {})
    ensures e.title == "\U{1F9E0} " + setName + " \U{203B} React to join! \U{1F9E0}"
    ensures e.description == description && e.image == None && e.footer == None
  {
    var fields: seq<Field> := [];
    for i := 0 to numTeams
      invariant |fields| == i
      invariant forall t :: 0 <= t < i ==> fields[t] == Field(names[t], TeamValue(order[t]))
      invariant forall t :: 0 <= t < i ==> (order[t] == [] <==> teams[t].members == {})
    {
      var teamPlayers := "";
      var ids := order[i];
      for k := 0 to |ids|
        invariant teamPlayers == MentionLines(ids[..k])
      {
        assert ids[..k + 1][..k] == ids[..k];
        teamPlayers := teamPlayers + Mention(ids[k]) + "\n";
      }
      assert ids[..|ids|] == ids;
      assert ids != [] ==> ids[0] in teams[i].members;
      assert ids == [] ==> teams[i].members == {};
      fields := fields + [Field(names[i], if teamPlayers == "" then "None" else teamPlayers)];
    }
    e := Embed("\U{1F9E0} " + setName + " \U{203B} React to join! \U{1F9E0}", description, fields, None, None);
  }

  // ---------------------------------------------------------------------
  // BuzzEmbed and QuestionEmbed

  /**
   * `BuzzEmbed(playerName, team, client, numAnswers)`: the fifth argument
   * the voice loop passes (the configured seconds per answer) is not a
   * parameter, so the notice always states ten seconds per answer.
   */
  function BuzzEmbed(playerName: string, emoji: string, numAnswers: nat, numSeconds: nat): (e: Embed)
    ensures e.title == emoji + " " + playerName + " has buzzed in! " + emoji
    ensures e.description == "You have " + NumberText(10 * numAnswers) + " seconds to answer!"
    ensures e.fields == [] && e.image == None
  {
    Embed(emoji + " " + playerName + " has buzzed in! " + emoji,
          "You have " + NumberText(10 * numAnswers) + " seconds to answer!", [], None, None)
  }

  /**
   * The buzz notice states the real answer window, `numSeconds * numAnswers`
   * seconds, only when `numSeconds` is 10 (or nothing is asked).
   */
  lemma BuzzStatesWindowOnlyAtTen(playerName: string, emoji: string, numAnswers: nat, numSeconds: nat)
    ensures BuzzEmbed(playerName, emoji, numAnswers, numSeconds).description ==
        "You have " + NumberText(numSeconds * numAnswers) + " seconds to answer!"
      <==> numAnswers == 0 || numSeconds == 10
  {
    var a := NumberText(10 * numAnswers);
    var b := NumberText(numSeconds * numAnswers);
    if "You have " + a + " seconds to answer!" == "You have " + b + " seconds to answer!" {
      SameInFrame("You have ", a, b, " seconds to answer!");
      NumberTextInjective(10 * numAnswers, numSeconds * numAnswers);
    }
    TimesTen(numAnswers, numSeconds);
  }

  lemma SameInFrame(pre: string, a: string, b: string, post: string)
    requires pre + a + post == pre + b + post
    ensures a == b
  {
    var s := pre + a + post;
    assert |a| == |b|;
    assert a == s[|pre|..|pre| + |a|];
    assert b == (pre + b + post)[|pre|..|pre| + |b|];
  }

  lemma TimesTen(n: nat, s: nat)
    ensures 10 * n == s * n <==> n == 0 || s == 10
  {
    if n > 0 && s != 10 {
      if s < 10 {
        assert s * n < 10 * n;
      } else {
        assert s * n > 10 * n;
      }
    }
  }

  /** `QuestionEmbed(questionSet, num, question)`. */
  function QuestionEmbed(setName: string, num: nat, q: Question): (e: Embed)
    ensures e.title == "\U{2754} " + setName + " \U{203B} Question " + NumberText(num) + " \U{2754}"
    ensures e.image.Some? <==> Truthy(q.img)
    ensures e.image == (if Truthy(q.img) then q.img else None)
  {
    var prefix := if q.multi > 1 then "This is a " + NumberText(q.multi) + " part question. " else "";
    Embed("\U{2754} " + setName + " \U{203B} Question " + NumberText(num) + " \U{2754}",
          prefix + q.question, [], if Truthy(q.img) then q.img else None, None)
  }

  /** Different question numbers give different titles within a set. */
  lemma QuestionTitleDistinct(setName: string, n1: nat, n2: nat, q1: Question, q2: Question)
    requires n1 != n2
    ensures QuestionEmbed(setName, n1, q1).title != QuestionEmbed(setName, n2, q2).title
  {
    var pre := "\U{2754} " + setName + " \U{203B} Question ";
    if pre + NumberText(n1) + " \U{2754}" == pre + NumberText(n2) + " \U{2754}" {
      SameInFrame(pre, NumberText(n1), NumberText(n2), " \U{2754}");
      NumberTextInjective(n1, n2);
    }
  }

  /**
   * The question text closes the description; it is preceded by the part
   * count exactly when the question asks for more than one answer.
   */
  lemma QuestionText(setName: string, num: nat, q: Question)
    ensures var d := QuestionEmbed(setName, num, q).description;
      && |d| >= |q.question|
      && d[|d| - |q.question|..] == q.question
      && (|d| == |q.question| <==> q.multi <= 1)
      && d == (if q.multi > 1 then "This is a " + NumberText(q.multi) + " part question. " else "") + q.question
  {
  }

  // ---------------------------------------------------------------------
  // ResultEmbed

  /** `ResultEmbed(correct, question, losePoints, answerer, response)`. */
  function ResultEmbed(o: VoiceRound.Outcome, q: Question, losePoints: bool, answerer: string,
                       response: Option<seq<string>>): (e: Embed)
    ensures e.image == None && e.footer == None
  {
    var (emoji, message, description) := ResultWords(o, losePoints, answerer);
    var fields := [Field("Question", q.question), Field("Answer", Join(q.answer, ", "))];
    Embed(emoji + " " + message + " " + emoji, description,
          fields + (if response.Some? then [Field("Player Response", Join(response.value, ", "))] else []),
          None, None)
  }

  /** The emoji, the message and the description of each outcome. */
  function ResultWords(o: VoiceRound.Outcome, losePoints: bool, answerer: string): (string, string, string) {
    match o
    case Correct => ("\U{2705}", "Correct!", answerer + " has just scored themselves and their team 1 point!")
    case Incorrect => ("\U{274C}", "Incorrect", LossText(losePoints, answerer))
    case Time => ("\U{23F1}\U{FE0F}", "Time's Up!", LossText(losePoints, answerer))
    case NoBuzz => ("\U{1F62D}", "No takers?", "Cold feet, eh? No change in the standings.")
  }

  /** The title names the outcome, between two copies of its emoji. */
  lemma ResultTitle(o: VoiceRound.Outcome, q: Question, losePoints: bool, answerer: string, response: Option<seq<string>>)
    ensures var t := ResultEmbed(o, q, losePoints, answerer, response).title;
      && (o == VoiceRound.Correct ==> t == "\U{2705}" + " Correct! " + "\U{2705}")
      && (o == VoiceRound.Incorrect ==> t == "\U{274C}" + " Incorrect " + "\U{274C}")
      && (o == VoiceRound.Time ==> t == "\U{23F1}\U{FE0F}" + " Time's Up! " + "\U{23F1}\U{FE0F}")
      && (o == VoiceRound.NoBuzz ==> t == "\U{1F62D}" + " No takers? " + "\U{1F62D}")
  {
    var w := ResultWords(o, losePoints, answerer);
    assert ResultEmbed(o, q, losePoints, answerer, response).title == w.0 + " " + w.1 + " " + w.0;
  }

  /** The description of `incorrect` and `time`. */
  function LossText(losePoints: bool, answerer: string): string {
    if losePoints then answerer + " has just lost their team 1 point!"
    else "Unfortunately, " + answerer + " did not answer correctly!"
  }

  /**
   * The result reports: one point scored for `correct` whatever
   * `losePoints` says; no change for `nobuzz`; a lost point for `incorrect`
   * and `time` exactly when `losePoints` is set.
   */
  lemma ResultReports(o: VoiceRound.Outcome, q: Question, losePoints: bool, answerer: string, response: Option<seq<string>>)
    ensures o == VoiceRound.Correct ==>
      ResultEmbed(o, q, losePoints, answerer, response).description ==
        answerer + " has just scored themselves and their team 1 point!"
    ensures o == VoiceRound.NoBuzz ==>
      ResultEmbed(o, q, losePoints, answerer, response).description == "Cold feet, eh? No change in the standings."
    ensures o in {VoiceRound.Incorrect, VoiceRound.Time} ==>
      (losePoints <==>
       ResultEmbed(o, q, losePoints, answerer, response).description == answerer + " has just lost their team 1 point!")
  {
    var lost := answerer + " has just lost their team 1 point!";
    var missed := "Unfortunately, " + answerer + " did not answer correctly!";
    assert |lost| != |missed|;
  }

  /**
   * The question and its answers always head the fields; the player's
   * response follows exactly when there is one.
   */
  lemma ResultFields(o: VoiceRound.Outcome, q: Question, losePoints: bool, answerer: string, response: Option<seq<string>>)
    ensures var f := ResultEmbed(o, q, losePoints, answerer, response).fields;
      && |f| >= 2 && f[0] == Field("Question", q.question) && f[1] == Field("Answer", Join(q.answer, ", "))
      && (|f| == 3 <==> response.Some?)
      && (response.Some? ==> f[2].value == Join(response.value, ", "))
  {
  }
}
