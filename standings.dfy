/**
 * The standings embeds of src/helpers/embeds.js: `PlayerLeaderboardEmbed`
 * and `TeamLeaderboardEmbed` sort the entries of the `players` or
 * `teamInfo` map by descending score with the stable `Array.prototype.sort`,
 * then append one line per entry to the description.
 *
 * A map's entries are given as a sequence in insertion order.
 */
module Standings {
  import opened JsText
  import PreGame

  /** One standings line: the points shown and the name shown. */
  datatype Line = Line(points: int, name: string)

  predicate NonIncreasing(s: seq<Line>) {
    forall i, j :: 0 <= i < j < |s| ==> s[i].points >= s[j].points
  }

  /** `x` placed after every entry of `s` that scores at least as much. */
  function Insert(x: Line, s: seq<Line>): (r: seq<Line>)
    ensures |r| == |s| + 1
    ensures r[0] == x || (s != [] && r[0] == s[0])
    decreases |s|
  {
    if s == [] || s[0].points < x.points then [x] + s else [s[0]] + Insert(x, s[1..])
  }

  /** `sort((a, b) => b.score - a.score)`: a stable sort by descending score. */
  function SortByScore(s: seq<Line>): (r: seq<Line>)
    ensures |r| == |s|
  {
    if s == [] then [] else Insert(s[|s| - 1], SortByScore(s[..|s| - 1]))
  }

  lemma {:induction false} InsertSorted(x: Line, s: seq<Line>)
    requires NonIncreasing(s)
    ensures NonIncreasing(Insert(x, s))
    decreases |s|
  {
    if s != [] && s[0].points >= x.points {
      InsertSorted(x, s[1..]);
      var r := Insert(x, s);
      assert r == [s[0]] + Insert(x, s[1..]);
      forall i, j | 0 <= i < j < |r| ensures r[i].points >= r[j].points {
        if i == 0 {
          var t := Insert(x, s[1..]);
          assert r[j] == t[j - 1];
          InsertMembers(x, s[1..], j - 1);
        }
      }
    }
  }

  /** Every entry of `Insert(x, s)` is `x` or an entry of `s`. */
  lemma {:induction false} InsertMembers(x: Line, s: seq<Line>, k: nat)
    requires k < |Insert(x, s)|
    ensures Insert(x, s)[k] == x || Insert(x, s)[k] in s
    decreases |s|
  {
    if s != [] && s[0].points >= x.points && k > 0 {
      InsertMembers(x, s[1..], k - 1);
    }
  }

  lemma {:induction false} InsertPermutes(x: Line, s: seq<Line>)
    ensures multiset(Insert(x, s)) == multiset(s) + multiset{x}
    decreases |s|
  {
    if s != [] && s[0].points >= x.points {
      InsertPermutes(x, s[1..]);
      assert s == [s[0]] + s[1..];
    }
  }

  /** The standings are in non-increasing order of score. */
  lemma {:induction false} SortSorted(s: seq<Line>)
    ensures NonIncreasing(SortByScore(s))
    decreases |s|
  {
    if s != [] {
      SortSorted(s[..|s| - 1]);
      InsertSorted(s[|s| - 1], SortByScore(s[..|s| - 1]));
    }
  }

  /** The standings list every entry exactly as often as the map holds it. */
  lemma {:induction false} SortPermutes(s: seq<Line>)
    ensures multiset(SortByScore(s)) == multiset(s)
    decreases |s|
  {
    if s != [] {
      var init, last := s[..|s| - 1], s[|s| - 1];
      assert multiset(s) == multiset(init) + multiset{last} by {
        assert s == init + [last];
      }
      assert multiset(SortByScore(s)) == multiset(SortByScore(init)) + multiset{last} by {
        InsertPermutes(last, SortByScore(init));
      }
      SortPermutes(init);
    }
  }

  /** Entries already in order, ties included, are left exactly as they are. */
  lemma {:induction false} SortKeepsOrdered(s: seq<Line>)
    requires NonIncreasing(s)
    ensures SortByScore(s) == s
    decreases |s|
  {
    if s != [] {
      var p := s[..|s| - 1];
      SortKeepsOrdered(p);
      InsertLast(s[|s| - 1], p);
      assert p + [s[|s| - 1]] == s;
    }
  }

  /** The lines of `s` showing `v` points, in their order in `s`. */
  function WithPoints(s: seq<Line>, v: int): seq<Line>
    decreases |s|
  {
    if s == [] then [] else (if s[0].points == v then [s[0]] else []) + WithPoints(s[1..], v)
  }

  lemma {:induction false} WithPointsAppend(a: seq<Line>, b: seq<Line>, v: int)
    ensures WithPoints(a + b, v) == WithPoints(a, v) + WithPoints(b, v)
    decreases |a|
  {
    if a != [] {
      WithPointsAppend(a[1..], b, v);
      assert (a + b)[1..] == a[1..] + b;
    } else {
      assert a + b == b;
    }
  }

  lemma {:induction false} WithPointsNone(s: seq<Line>, v: int)
    requires forall i :: 0 <= i < |s| ==> s[i].points < v
    ensures WithPoints(s, v) == []
    decreases |s|
  {
    if s != [] {
      WithPointsNone(s[1..], v);
    }
  }

  /** Inserting into sorted standings puts `x` after every line of its score already there. */
  lemma {:induction false} InsertStable(x: Line, s: seq<Line>, v: int)
    requires NonIncreasing(s)
    ensures WithPoints(Insert(x, s), v) == WithPoints(s, v) + (if x.points == v then [x] else [])
    decreases |s|
  {
    if s == [] || s[0].points < x.points {
      assert Insert(x, s) == [x] + s;
      assert ([x] + s)[1..] == s;
      if x.points == v {
        WithPointsNone(s, v);
      }
    } else {
      InsertStable(x, s[1..], v);
      assert Insert(x, s) == [s[0]] + Insert(x, s[1..]);
    }
  }

  /**
   * The sort is stable: for every score, the lines showing it keep their
   * order from the map, for every input.
   */
  lemma {:induction false} SortStable(s: seq<Line>, v: int)
    ensures WithPoints(SortByScore(s), v) == WithPoints(s, v)
    decreases |s|
  {
    if s != [] {
      var init, last := s[..|s| - 1], s[|s| - 1];
      SortSorted(init);
      InsertStable(last, SortByScore(init), v);
      SortStable(init, v);
      assert s == init + [last];
      WithPointsAppend(init, [last], v);
      assert WithPoints([last], v) == (if last.points == v then [last] else []) + WithPoints([], v);
    }
  }

  lemma {:induction false} InsertLast(x: Line, s: seq<Line>)
    requires forall i :: 0 <= i < |s| ==> s[i].points >= x.points
    ensures Insert(x, s) == s + [x]
    decreases |s|
  {
    if s != [] {
      InsertLast(x, s[1..]);
      assert s == [s[0]] + s[1..];
    }
  }

  /** One description line: `` `<points> points` - <name> `` and a line break. */
  function LineText(l: Line): string {
    "`" + NumberText(l.points) + " points` - " + l.name + "\n"
  }

  /** The description the `forEach` loop accumulates. */
  function Description(ls: seq<Line>): string {
    if ls == [] then "" else Description(ls[..|ls| - 1]) + LineText(ls[|ls| - 1])
  }

  /** Each line ends the way it starts a new line: the description has one line break per entry. */
  lemma {:induction false} OneLinePerEntry(ls: seq<Line>)
    requires forall i :: 0 <= i < |ls| ==> '\n' !in ls[i].name
    ensures Count(Description(ls), '\n') == |ls|
    decreases |ls|
  {
    if ls != [] {
      OneLinePerEntry(ls[..|ls| - 1]);
      CountAppend(Description(ls[..|ls| - 1]), LineText(ls[|ls| - 1]), '\n');
      LineHasOneBreak(ls[|ls| - 1]);
    }
  }

  lemma LineHasOneBreak(l: Line)
    requires '\n' !in l.name
    ensures Count(LineText(l), '\n') == 1
  {
    var num := NumberText(l.points);
    var lit := " points` - ";
    var a := "`" + num;
    var b := a + lit;
    var c := b + l.name;
    assert Count(a, '\n') == 0 by {
      forall i | 0 <= i < |num| ensures num[i] != '\n' { }
      CountAppend("`", num, '\n');
      CountAbsent(num, '\n');
    }
    assert Count(b, '\n') == 0 by {
      forall i | 0 <= i < |lit| ensures lit[i] != '\n' { }
      CountAppend(a, lit, '\n');
      CountAbsent(lit, '\n');
    }
    assert Count(c, '\n') == 0 by {
      CountAppend(b, l.name, '\n');
      CountAbsent(l.name, '\n');
    }
    assert Count(c + "\n", '\n') == 1 by {
      CountAppend(c, "\n", '\n');
      assert "\n"[1..] == [];
    }
    assert LineText(l) == c + "\n";
  }

  /** The `forEach` loop of both leaderboard embeds. */
  method Describe(ls: seq<Line>) returns (description: string)
    ensures description == Description(ls)
  {
    description := "";
    for i := 0 to |ls|
      invariant description == Description(ls[..i])
    {
      assert ls[..i + 1][..i] == ls[..i];
      description := description + LineText(ls[i]);
    }
    assert ls[..|ls|] == ls;
  }

  function PlayerLines(players: seq<PreGame.Player>): (ls: seq<Line>)
    ensures |ls| == |players|
    ensures forall i :: 0 <= i < |players| ==> ls[i] == Line(players[i].score, players[i].name)
  {
    if players == [] then []
    else PlayerLines(players[..|players| - 1]) + [Line(players[|players| - 1].score, players[|players| - 1].name)]
  }

  function TeamLines(teams: seq<PreGame.Team>): (ls: seq<Line>)
    ensures |ls| == |teams|
    ensures forall i :: 0 <= i < |teams| ==> ls[i] == Line(teams[i].score, teams[i].name)
  {
    if teams == [] then []
    else TeamLines(teams[..|teams| - 1]) + [Line(teams[|teams| - 1].score, teams[|teams| - 1].name)]
  }

  /**
   * `PlayerLeaderboardEmbed(players)`: one line per player, best first.
   * The function has no `losePoints` parameter; the argument callers pass
   * is dropped.
   */
  method PlayerLeaderboardEmbed(players: seq<PreGame.Player>) returns (title: string, description: string)
    ensures title == "\U{1F3C6} Player Standings \U{1F3C6}"
    ensures description == Description(SortByScore(PlayerLines(players)))
  {
    title := "\U{1F3C6} Player Standings \U{1F3C6}";
    description := Describe(SortByScore(PlayerLines(players)));
  }

  /** `TeamLeaderboardEmbed(teamInfo)`: one line per team, best first. */
  method TeamLeaderboardEmbed(teams: seq<PreGame.Team>) returns (title: string, description: string)
    ensures title == "\U{1F3C6} Team Standings \U{1F3C6}"
    ensures description == Description(SortByScore(TeamLines(teams)))
  {
    title := "\U{1F3C6} Team Standings \U{1F3C6}";
    description := Describe(SortByScore(TeamLines(teams)));
  }
}
