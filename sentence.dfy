/**
 * The sentence shape `^(\S+ ?)+$` that commands/addquestion.js and
 * src/commands/adddoc.js demand of a set's title and description.
 */
module Sentence {
  import opened JsText
  import opened Whitespace

  /**
   * `^(\S+ ?)+$`: one or more groups, each a run of non-white-space
   * characters followed by at most one `' '`.
   */
  predicate IsSentence(s: string)
    decreases |s|
  {
    s != [] && !IsSpace(s[0]) && InGroup(s[1..])
  }

  /** What may follow a non-white-space character inside a group. */
  predicate InGroup(t: string)
    decreases |t|
  {
    || t == []
    || (!IsSpace(t[0]) && InGroup(t[1..]))
    || (t[0] == ' ' && (t[1..] == [] || IsSentence(t[1..])))
  }

  /** How SingleSpaced splits at the first character. */
  lemma SingleSpacedCons(c: char, t: string)
    ensures SingleSpaced([c] + t) <==>
      && (IsSpace(c) ==> c == ' ')
      && !(IsSpace(c) && t != [] && IsSpace(t[0]))
      && SingleSpaced(t)
  {
    var r := [c] + t;
    if SingleSpaced(r) {
      SingleSpacedSuffix(r, 1);
      assert r[1..] == t;
      assert r[0] == c;
      if t != [] { assert r[1] == t[0]; }
    }
    if && (IsSpace(c) ==> c == ' ')
       && !(IsSpace(c) && t != [] && IsSpace(t[0]))
       && SingleSpaced(t)
    {
      forall i | 0 <= i < |r| && IsSpace(r[i]) ensures r[i] == ' ' {
        if i > 0 { assert r[i] == t[i - 1]; }
      }
      forall i, j | 0 <= i < |r| && 0 <= j < |r| && j == i + 1
        ensures !(IsSpace(r[i]) && IsSpace(r[j]))
      {
        if i > 0 { assert r[i] == t[i - 1] && r[j] == t[j - 1]; }
        else { assert r[j] == t[0]; }
      }
    }
  }

  /**
   * The regular expression accepts exactly the non-empty strings that start
   * with a non-white-space character and whose only white space is single
   * `' '` characters, each after a non-white-space character.
   */
  lemma {:induction false} SentenceShape(s: string)
    ensures IsSentence(s) <==> s != [] && !IsSpace(s[0]) && SingleSpaced(s)
    decreases |s|, 1
  {
    if s != [] {
      InGroupShape(s[1..]);
      SingleSpacedCons(s[0], s[1..]);
      assert [s[0]] + s[1..] == s;
    }
  }

  /** After a non-white-space character, the rest of a group is single-spaced text. */
  lemma {:induction false} InGroupShape(t: string)
    ensures InGroup(t) <==> SingleSpaced(t)
    decreases |t|, 0
  {
    if t != [] {
      var u := t[1..];
      SingleSpacedCons(t[0], u);
      assert [t[0]] + u == t;
      if !IsSpace(t[0]) {
        InGroupShape(u);
      } else if u != [] {
        SentenceShape(u);
      }
    }
  }

  /** Every non-empty result of `removeWhiteSpace` is a sentence. */
  lemma NormalizedIsSentence(s: string)
    ensures RemoveWhiteSpace(s) != [] ==> IsSentence(RemoveWhiteSpace(s))
  {
    RemoveWhiteSpaceSpec(s);
    SentenceShape(RemoveWhiteSpace(s));
  }

  /** A single-spaced text followed by `' '` stays single-spaced exactly when it did not end in white space. */
  lemma SpaceAfterSingleSpaced(s: string)
    requires s != [] && SingleSpaced(s)
    ensures SingleSpaced(s + " ") <==> !IsSpace(s[|s| - 1])
  {
    var t := s + " ";
    if !IsSpace(s[|s| - 1]) {
      forall i | 0 <= i < |t| && IsSpace(t[i]) ensures t[i] == ' ' {
        if i < |s| { assert t[i] == s[i]; }
      }
      forall i, j | 0 <= i < |t| && 0 <= j < |t| && j == i + 1
        ensures !(IsSpace(t[i]) && IsSpace(t[j]))
      {
        if j < |s| { assert t[i] == s[i] && t[j] == s[j]; }
        else { assert t[i] == s[|s| - 1]; }
      }
    } else {
      assert t[|s| - 1] == s[|s| - 1] && t[|s|] == ' ';
    }
  }

  /**
   * A sentence may end in one space, which `removeWhiteSpace` would drop:
   * a sentence followed by `' '` is one exactly when it did not already end
   * in a space, and no sentence starts with one. The concrete strings show
   * double spaces, tabs and the empty string refused.
   */
  lemma TrailingSpaceAllowed(s: string)
    requires IsSentence(s)
    ensures IsSentence(s + " ") <==> s[|s| - 1] != ' '
    ensures !IsSentence(" " + s)
    ensures IsSentence("ab ")
    ensures !IsSentence("a  b") && !IsSentence(" a") && !IsSentence("a\tb") && !IsSentence("")
  {
    SentenceShape(s);
    SentenceShape(s + " ");
    SpaceAfterSingleSpaced(s);
    assert (s + " ")[0] == s[0];
    assert (" " + s)[0] == ' ';
    SentenceShape("a  b");
    assert "a  b"[1] == ' ' && "a  b"[2] == ' ';
    assert InGroup("b ") by {
      assert InGroup(" ");
      assert "b "[1..] == " ";
    }
    assert "ab "[1..] == "b ";
    SentenceShape("a\tb");
    assert "a\tb"[1] == '\t';
  }
}
