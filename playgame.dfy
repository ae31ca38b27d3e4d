/**
 * `randomize` (src/game/playgame.js, and the copy inside
 * src/commands/startvoicegame.js) and `startGame` (src/game/playgame.js).
 *
 * `Math.random()` is a free choice of the swap partner `j` in `[0, i]`; the
 * method returns the choices it made, so its result is stated exactly as a
 * function of the input array and those choices.
 */
module PlayGame {

  /** `s` with the elements at `i` and `j` exchanged. */
  function Swap<T>(s: seq<T>, i: nat, j: nat): (r: seq<T>)
    requires i < |s| && j < |s|
    ensures |r| == |s| && r[i] == s[j] && r[j] == s[i]
    ensures forall k :: 0 <= k < |s| && k != i && k != j ==> r[k] == s[k]
  {
    s[i := s[j]][j := s[i]]
  }

  /**
   * `cs` can be the first `|cs|` random draws of a shuffle of `n` elements:
   * draw `k` is made for index `n - 1 - k` and lies in `[0, n - 1 - k]`.
   */
  predicate Fits(n: nat, cs: seq<nat>) {
    |cs| <= n && forall k :: 0 <= k < |cs| ==> cs[k] <= n - 1 - k
  }

  /** `cs` is a complete run of draws: one for each `i` from `n - 1` down to 1. */
  predicate Complete(n: nat, cs: seq<nat>) {
    Fits(n, cs) && |cs| == if n == 0 then 0 else n - 1
  }

  /** The array after the swaps for draws `cs`, applied in order. */
  function Shuffled<T>(s: seq<T>, cs: seq<nat>): (r: seq<T>)
    requires Fits(|s|, cs)
    ensures |r| == |s|
    decreases |cs|
  {
    if cs == [] then s
    else
      var m := |cs| - 1;
      assert Fits(|s|, cs[..m]);
      Swap(Shuffled(s, cs[..m]), |s| - 1 - m, cs[m])
  }

  /** Shuffling only rearranges: the result is a permutation of the input. */
  lemma {:induction false} ShuffledPermutes<T>(s: seq<T>, cs: seq<nat>)
    requires Fits(|s|, cs)
    ensures multiset(Shuffled(s, cs)) == multiset(s)
    decreases |cs|
  {
    if cs != [] {
      var m := |cs| - 1;
      assert Fits(|s|, cs[..m]);
      var prev := Shuffled(s, cs[..m]);
      assert Shuffled(s, cs) == Swap(prev, |s| - 1 - m, cs[m]);
      ShuffledPermutes(s, cs[..m]);
      SwapPermutes(prev, |s| - 1 - m, cs[m]);
    }
  }

  lemma SwapPermutes<T>(s: seq<T>, i: nat, j: nat)
    requires i < |s| && j < |s|
    ensures multiset(Swap(s, i, j)) == multiset(s)
  {
    var t := s[i := s[j]];
    assert multiset(t) == multiset(s) - multiset{s[i]} + multiset{s[j]};
    assert multiset(t[j := s[i]]) == multiset(t) - multiset{t[j]} + multiset{s[i]};
  }

  /** Once index `i` has had its swap, later steps (all at smaller indices) leave it alone. */
  lemma {:induction false} ShuffledSettles<T>(s: seq<T>, cs: seq<nat>, k: nat)
    requires Fits(|s|, cs) && k < |cs|
    ensures Fits(|s|, cs[..k + 1])
    ensures Shuffled(s, cs)[|s| - 1 - k] == Shuffled(s, cs[..k + 1])[|s| - 1 - k]
    decreases |cs|
  {
    if k + 1 < |cs| {
      var m := |cs| - 1;
      assert cs[..m][..k + 1] == cs[..k + 1];
      ShuffledSettles(s, cs[..m], k);
    } else {
      assert cs[..k + 1] == cs;
    }
  }

  /** An array of length 0 or 1 makes no draws and is left as it was. */
  lemma ShortUnchanged<T>(s: seq<T>, cs: seq<nat>)
    requires |s| <= 1 && Complete(|s|, cs)
    ensures Shuffled(s, cs) == s
  {
  }

  /**
   * `randomize`: for `i` from `length - 1` down to 1, swap `a[i]` with
   * `a[j]` for a random `j` in `[0, i]`.
   */
  method Randomize<T>(a: array<T>) returns (choices: seq<nat>)
    modifies a
    ensures Complete(a.Length, choices)
    ensures a[..] == Shuffled(old(a[..]), choices)
    ensures multiset(a[..]) == multiset(old(a[..]))
    ensures a.Length <= 1 ==> a[..] == old(a[..])
  {
    choices := [];
    var i := a.Length - 1;
    while i > 0
      invariant a.Length == 0 ==> i == -1
      invariant a.Length > 0 ==> 0 <= i < a.Length && |choices| == a.Length - 1 - i
      invariant Fits(a.Length, choices)
      invariant a[..] == Shuffled(old(a[..]), choices)
    {
      var j :| 0 <= j <= i;
      a[i], a[j] := a[j], a[i];
      var next := choices + [j];
      assert next[..|choices|] == choices;
      choices := next;
      i := i - 1;
    }
    ShuffledPermutes(old(a[..]), choices);
  }

  /** The game object; `startGame` writes only its `active` flag. */
  class Game {
    var active: bool

    constructor ()
      ensures !active
    {
      active := false;
    }
  }

  /** `startGame`: marks the game active; calling it again changes nothing. */
  method StartGame(game: Game)
    modifies game
    ensures game.active
  {
    game.active := true;
  }
}
