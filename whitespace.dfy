/**
 * `removeWhiteSpace(string)` of src/helpers/helpers.js: `string.trim()`
 * followed by `replaceAll(/\s+/g, ' ')`.
 */
module Whitespace {
  import opened JsText

  /** The non-white-space characters of `s`, in order. */
  function NonSpace(s: string): string {
    if s == [] then [] else (if IsSpace(s[0]) then [] else [s[0]]) + NonSpace(s[1..])
  }

  lemma {:induction false} NonSpaceAppend(a: string, b: string)
    ensures NonSpace(a + b) == NonSpace(a) + NonSpace(b)
  {
    if a == [] {
      assert a + b == b;
    } else {
      assert (a + b)[1..] == a[1..] + b;
      NonSpaceAppend(a[1..], b);
    }
  }

  /** Every character of `w` is white space. */
  predicate AllSpace(w: string) {
    forall i :: 0 <= i < |w| ==> IsSpace(w[i])
  }

  /** White space is only single `' '` characters, none at either end. */
  predicate Normalized(r: string) {
    && (r != [] ==> !IsSpace(r[0]) && !IsSpace(r[|r| - 1]))
    && SingleSpaced(r)
  }

  /** Every white-space character is `' '` and no two of them are adjacent. */
  predicate SingleSpaced(r: string) {
    && (forall i :: 0 <= i < |r| && IsSpace(r[i]) ==> r[i] == ' ')
    && (forall i, j :: 0 <= i < |r| && 0 <= j < |r| && j == i + 1 ==> !(IsSpace(r[i]) && IsSpace(r[j])))
  }

  /** The leading half of `trim()`: drops the white space at the front. */
  function TrimStart(s: string): (r: string)
    ensures r == [] || !IsSpace(r[0])
    ensures |r| <= |s|
    ensures s != [] && IsSpace(s[0]) ==> |r| < |s|
  {
    if s != [] && IsSpace(s[0]) then TrimStart(s[1..]) else s
  }

  /** TrimStart stops at the last character when that one is not white space. */
  lemma {:induction false} TrimStartKeepsLast(s: string)
    requires s != [] && !IsSpace(s[|s| - 1])
    ensures TrimStart(s) != [] && TrimStart(s)[|TrimStart(s)| - 1] == s[|s| - 1]
  {
    if IsSpace(s[0]) {
      TrimStartKeepsLast(s[1..]);
    }
  }

  /** TrimStart returns a suffix of its input. */
  lemma {:induction false} TrimStartSuffix(s: string)
    ensures TrimStart(s) == s[|s| - |TrimStart(s)|..]
  {
    if s != [] && IsSpace(s[0]) {
      TrimStartSuffix(s[1..]);
    }
  }

  /** What TrimStart drops is white space. */
  lemma {:induction false} TrimStartDropsSpace(s: string)
    ensures AllSpace(s[..|s| - |TrimStart(s)|])
  {
    if s != [] && IsSpace(s[0]) {
      TrimStartDropsSpace(s[1..]);
      var k := |s| - |TrimStart(s)|;
      forall i | 0 <= i < k ensures IsSpace(s[i]) {
        if i > 0 { assert s[i] == s[1..][i - 1]; }
      }
    }
  }

  /** The trailing half of `trim()`: drops the white space at the back. */
  function TrimEnd(s: string): (r: string)
    ensures r == [] || !IsSpace(r[|r| - 1])
    ensures |r| <= |s|
  {
    if s != [] && IsSpace(s[|s| - 1]) then TrimEnd(s[..|s| - 1]) else s
  }

  /** TrimEnd stops at the first character when that one is not white space. */
  lemma {:induction false} TrimEndKeepsFirst(s: string)
    requires s != [] && !IsSpace(s[0])
    ensures TrimEnd(s) != [] && TrimEnd(s)[0] == s[0]
  {
    if IsSpace(s[|s| - 1]) {
      TrimEndKeepsFirst(s[..|s| - 1]);
    }
  }

  /** TrimEnd returns a prefix of its input. */
  lemma {:induction false} TrimEndPrefix(s: string)
    ensures TrimEnd(s) == s[..|TrimEnd(s)|]
  {
    if s != [] && IsSpace(s[|s| - 1]) {
      TrimEndPrefix(s[..|s| - 1]);
    }
  }

  /** What TrimEnd drops is white space. */
  lemma {:induction false} TrimEndDropsSpace(s: string)
    ensures AllSpace(s[|TrimEnd(s)|..])
  {
    if s != [] && IsSpace(s[|s| - 1]) {
      var p := s[..|s| - 1];
      TrimEndDropsSpace(p);
      var k := |TrimEnd(s)|;
      forall i | k <= i < |s| ensures IsSpace(s[i]) {
        if i < |s| - 1 { assert s[i] == p[i]; }
      }
    }
  }

  /** `trim()`. */
  function Trim(s: string): (r: string)
    ensures r == [] || (!IsSpace(r[0]) && !IsSpace(r[|r| - 1]))
  {
    var t := TrimStart(s);
    assert t != [] ==> TrimEnd(t) != [] && TrimEnd(t)[0] == t[0] by {
      if t != [] { TrimEndKeepsFirst(t); }
    }
    TrimEnd(t)
  }

  /**
   * `replaceAll(/\s+/g, ' ')`: each maximal run of white space becomes one
   * `' '`, written where the run's last character stood.
   */
  function CollapseRuns(s: string): (r: string)
    ensures |r| <= |s|
  {
    if s == [] then []
    else Collapsed(s) + CollapseRuns(s[1..])
  }

  /** What CollapseRuns writes for the first character of `s`. */
  function Collapsed(s: string): string
    requires s != []
  {
    if !IsSpace(s[0]) then [s[0]]
    else if |s| > 1 && IsSpace(s[1]) then []
    else [' ']
  }

  /** The run collapsing keeps white space at either end exactly where it was. */
  lemma {:induction false} CollapseEnds(s: string)
    ensures var r := CollapseRuns(s);
      && (s != [] ==> r != [] && (IsSpace(s[0]) <==> IsSpace(r[0])))
      && (s != [] && !IsSpace(s[|s| - 1]) ==> !IsSpace(r[|r| - 1]))
  {
    if s != [] {
      CollapseEnds(s[1..]);
    }
  }

  /** `removeWhiteSpace` of src/helpers/helpers.js. */
  function RemoveWhiteSpace(s: string): string {
    CollapseRuns(Trim(s))
  }

  /**
   * The result has white space only as single `' '` characters, none at
   * either end, and keeps every other character of the input, in order.
   */
  lemma RemoveWhiteSpaceSpec(s: string)
    ensures Normalized(RemoveWhiteSpace(s))
    ensures NonSpace(RemoveWhiteSpace(s)) == NonSpace(s)
  {
    var t := Trim(s);
    TrimStartNonSpace(s);
    TrimEndNonSpace(TrimStart(s));
    CollapseSingleSpaced(t);
    CollapseNonSpace(t);
    CollapseEnds(t);
  }

  lemma {:induction false} TrimStartNonSpace(s: string)
    ensures NonSpace(TrimStart(s)) == NonSpace(s)
  {
    if s != [] && IsSpace(s[0]) {
      TrimStartNonSpace(s[1..]);
    }
  }

  lemma {:induction false} TrimEndNonSpace(s: string)
    ensures NonSpace(TrimEnd(s)) == NonSpace(s)
  {
    if s != [] && IsSpace(s[|s| - 1]) {
      var p := s[..|s| - 1];
      TrimEndNonSpace(p);
      assert s == p + [s[|s| - 1]];
      NonSpaceAppend(p, [s[|s| - 1]]);
    }
  }

  /** The run collapsing leaves only single `' '` characters as white space. */
  lemma {:induction false} CollapseSingleSpaced(s: string)
    ensures SingleSpaced(CollapseRuns(s))
  {
    if s != [] {
      var h := Collapsed(s);
      var t := CollapseRuns(s[1..]);
      var r := h + t;
      CollapseSingleSpaced(s[1..]);
      CollapseEnds(s[1..]);
      assert CollapseRuns(s) == r;
      forall i | 0 <= i < |r| && IsSpace(r[i]) ensures r[i] == ' ' {
        if i >= |h| { assert r[i] == t[i - |h|]; }
      }
      forall i, j | 0 <= i < |r| && 0 <= j < |r| && j == i + 1
        ensures !(IsSpace(r[i]) && IsSpace(r[j]))
      {
        if i >= |h| { assert r[i] == t[i - |h|] && r[j] == t[j - |h|]; }
        else { assert r[j] == t[0]; }
      }
    }
  }

  /** The run collapsing keeps every non-white-space character, in order. */
  lemma {:induction false} CollapseNonSpace(s: string)
    ensures NonSpace(CollapseRuns(s)) == NonSpace(s)
  {
    if s != [] {
      CollapseNonSpace(s[1..]);
      NonSpaceAppend(Collapsed(s), CollapseRuns(s[1..]));
    }
  }

  /** A string whose white space is single `' '` characters is left alone. */
  lemma {:induction false} CollapseFixpoint(r: string)
    requires SingleSpaced(r)
    ensures CollapseRuns(r) == r
  {
    if r != [] {
      SingleSpacedSuffix(r, 1);
      CollapseFixpoint(r[1..]);
      assert Collapsed(r) == [r[0]] by {
        if |r| > 1 { assert !(IsSpace(r[0]) && IsSpace(r[1])); }
      }
      assert r == [r[0]] + r[1..];
    }
  }

  lemma SingleSpacedSuffix(r: string, k: nat)
    requires SingleSpaced(r) && k <= |r|
    ensures SingleSpaced(r[k..])
  {
    var t := r[k..];
    forall i, j | 0 <= i < |t| && 0 <= j < |t| && j == i + 1
      ensures !(IsSpace(t[i]) && IsSpace(t[j]))
    {
      assert t[i] == r[k + i] && t[j] == r[k + j];
    }
  }

  /** A normalised string is a fixed point of `removeWhiteSpace`. */
  lemma NormalizedFixpoint(r: string)
    requires Normalized(r)
    ensures RemoveWhiteSpace(r) == r
  {
    assert TrimStart(r) == r;
    assert TrimEnd(r) == r;
    CollapseFixpoint(r);
  }

  /** `removeWhiteSpace` is idempotent. */
  lemma RemoveWhiteSpaceIdempotent(s: string)
    ensures RemoveWhiteSpace(RemoveWhiteSpace(s)) == RemoveWhiteSpace(s)
  {
    RemoveWhiteSpaceSpec(s);
    NormalizedFixpoint(RemoveWhiteSpace(s));
  }

  /** An input made only of white space becomes the empty string. */
  lemma WhiteSpaceOnlyIsEmpty(s: string)
    requires AllSpace(s)
    ensures RemoveWhiteSpace(s) == ""
  {
    TrimStartAllSpace(s);
  }

  lemma {:induction false} TrimStartAllSpace(s: string)
    requires AllSpace(s)
    ensures TrimStart(s) == []
  {
    if s != [] {
      assert AllSpace(s[1..]) by {
        forall i | 0 <= i < |s| - 1 ensures IsSpace(s[1..][i]) {
          assert s[1..][i] == s[i + 1];
        }
      }
      TrimStartAllSpace(s[1..]);
    }
  }

  /** An input without white space is returned unchanged. */
  lemma NoSpaceUnchanged(s: string)
    requires forall i :: 0 <= i < |s| ==> !IsSpace(s[i])
    ensures RemoveWhiteSpace(s) == s
  {
    NormalizedFixpoint(s);
  }


  lemma {:induction false} TrimStartAppend(x: string, y: string)
    requires x != [] && !IsSpace(x[|x| - 1])
    ensures TrimStart(x + y) == TrimStart(x) + y
  {
    if IsSpace(x[0]) {
      assert (x + y)[1..] == x[1..] + y;
      TrimStartAppend(x[1..], y);
    }
  }

  lemma {:induction false} TrimEndAppend(x: string, y: string)
    requires y != [] && !IsSpace(y[0])
    ensures TrimEnd(x + y) == x + TrimEnd(y)
    decreases |y|
  {
    var s := x + y;
    if IsSpace(y[|y| - 1]) {
      assert s[..|s| - 1] == x + y[..|y| - 1];
      TrimEndAppend(x, y[..|y| - 1]);
    }
  }

  /** Runs never straddle a boundary that follows a non-white-space character. */
  lemma {:induction false} CollapseAppend(x: string, y: string)
    requires x == [] || !IsSpace(x[|x| - 1])
    ensures CollapseRuns(x + y) == CollapseRuns(x) + CollapseRuns(y)
  {
    if x == [] {
      assert x + y == y;
    } else {
      var x' := x[1..];
      assert (x + y)[1..] == x' + y;
      assert Collapsed(x + y) == Collapsed(x) by {
        if |x| > 1 { assert (x + y)[1] == x[1]; }
      }
      assert CollapseRuns(x + y) == Collapsed(x) + CollapseRuns(x' + y);
      assert x' != [] ==> x'[|x'| - 1] == x[|x| - 1];
      CollapseAppend(x', y);
      assert CollapseRuns(x) == Collapsed(x) + CollapseRuns(x');
      ConcatAssoc(Collapsed(x), CollapseRuns(x'), CollapseRuns(y));
    }
  }

  /** A run of white space in front of a word becomes one `' '`. */
  lemma {:induction false} CollapseSpaceRun(w: string, b: string)
    requires w != [] && AllSpace(w)
    requires b != [] && !IsSpace(b[0])
    ensures CollapseRuns(w + b) == [' '] + CollapseRuns(b)
  {
    assert (w + b)[1..] == w[1..] + b;
    if |w| == 1 {
      assert w[1..] + b == b;
    } else {
      assert (w + b)[1] == w[1];
      CollapseSpaceRun(w[1..], b);
    }
  }

  /**
   * An inner run of white space, whatever its length and characters, becomes
   * exactly one space between the normalised text on either side of it.
   */
  lemma RunBecomesOneSpace(a: string, w: string, b: string)
    requires a != [] && !IsSpace(a[|a| - 1])
    requires w != [] && AllSpace(w)
    requires b != [] && !IsSpace(b[0])
    ensures RemoveWhiteSpace(a + w + b) == RemoveWhiteSpace(a) + " " + RemoveWhiteSpace(b)
  {
    var a' := TrimStart(a);
    var b' := TrimEnd(b);
    var left := CollapseRuns(a');
    var right := CollapseRuns(b');
    TrimStartKeepsLast(a);
    TrimEndKeepsFirst(b);
    assert RemoveWhiteSpace(a + w + b) == CollapseRuns(a' + (w + b')) by {
      RemoveAroundRun(a, w, b);
      ConcatAssoc(a', w, b');
    }
    assert CollapseRuns(a' + (w + b')) == left + (" " + right) by {
      CollapseAppend(a', w + b');
      CollapseSpaceRun(w, b');
    }
    assert RemoveWhiteSpace(a) == left by { RemoveOfLeft(a); }
    assert RemoveWhiteSpace(b) == right by { RemoveOfRight(b); }
    ConcatAssoc(left, " ", right);
  }

  lemma RemoveAroundRun(a: string, w: string, b: string)
    requires a != [] && !IsSpace(a[|a| - 1])
    requires b != [] && !IsSpace(b[0])
    ensures RemoveWhiteSpace(a + w + b) == CollapseRuns(TrimStart(a) + w + TrimEnd(b))
  {
    TrimAroundRun(a, w, b);
    RemoveIsCollapsedTrim(a + w + b);
  }

  lemma Regroup(w: string, u: string, t: string, v: string)
    ensures w + (u + t) + v == (w + u) + (t + v)
  {
  }

  lemma RemoveIsCollapsedTrim(s: string)
    ensures RemoveWhiteSpace(s) == CollapseRuns(Trim(s))
  {
  }

  lemma RemoveOfLeft(a: string)
    requires a != [] && !IsSpace(a[|a| - 1])
    ensures RemoveWhiteSpace(a) == CollapseRuns(TrimStart(a))
  {
    TrimOfLeft(a);
  }

  /** When the last character is not white space, `trim()` only trims the front. */
  lemma {:induction false} TrimOfLeft(a: string)
    requires a != [] && !IsSpace(a[|a| - 1])
    ensures Trim(a) == TrimStart(a)
  {
    if IsSpace(a[0]) {
      var rest := a[1..];
      assert rest[|rest| - 1] == a[|a| - 1];
      TrimOfLeft(rest);
    } else {
      TrimEndStops(a);
    }
  }

  /** TrimEnd of text that ends in a non-white-space character is that text. */
  lemma TrimEndStops(t: string)
    requires t != [] && !IsSpace(t[|t| - 1])
    ensures TrimEnd(t) == t
  {
  }

  lemma RemoveOfRight(b: string)
    requires b != [] && !IsSpace(b[0])
    ensures RemoveWhiteSpace(b) == CollapseRuns(TrimEnd(b))
  {
    assert TrimStart(b) == b;
  }

  /** `trim()` of text around an inner run touches only the two outer ends. */
  lemma TrimAroundRun(a: string, w: string, b: string)
    requires a != [] && !IsSpace(a[|a| - 1])
    requires b != [] && !IsSpace(b[0])
    ensures Trim(a + w + b) == TrimStart(a) + w + TrimEnd(b)
  {
    TrimStartAround(a, w, b);
    TrimEndAppend(TrimStart(a) + w, b);
  }

  lemma TrimStartAround(a: string, w: string, b: string)
    requires a != [] && !IsSpace(a[|a| - 1])
    ensures TrimStart(a + w + b) == TrimStart(a) + w + b
  {
    assert a + w + b == a + (w + b);
    TrimStartAppend(a, w + b);
    assert TrimStart(a) + (w + b) == TrimStart(a) + w + b;
  }

  lemma {:induction false} TrimStartFromSpace(w: string, b: string)
    requires AllSpace(w)
    requires b != [] && !IsSpace(b[0])
    ensures TrimStart(w + b) == b
  {
    if w == [] {
      assert w + b == b;
    } else {
      assert (w + b)[1..] == w[1..] + b;
      TrimStartFromSpace(w[1..], b);
    }
  }

  /** Leading and trailing white space do not reach the result. */
  lemma OuterSpaceDropped(w: string, s: string, v: string)
    requires AllSpace(w) && AllSpace(v)
    ensures RemoveWhiteSpace(w + s + v) == RemoveWhiteSpace(s)
  {
    var t := TrimStart(s);
    if t == [] {
      assert AllSpace(s) by {
        TrimStartDropsSpace(s);
        assert s == s[..|s|];
      }
      assert AllSpace(w + s + v);
      WhiteSpaceOnlyIsEmpty(w + s + v);
      WhiteSpaceOnlyIsEmpty(s);
    } else {
      TrimStartPastSpace(w, s, v);
      TrimEndPastSpace(t, v);
    }
  }

  lemma TrimStartPastSpace(w: string, s: string, v: string)
    requires AllSpace(w) && TrimStart(s) != []
    ensures TrimStart(w + s + v) == TrimStart(s) + v
  {
    var t := TrimStart(s);
    var k := |s| - |t|;
    var u := s[..k];
    TrimStartSuffix(s);
    TrimStartDropsSpace(s);
    AllSpaceAppend(w, u);
    assert s == u + t;
    Regroup(w, u, t, v);
    assert (t + v)[0] == t[0];
    TrimStartFromSpace(w + u, t + v);
  }

  lemma TrimEndPastSpace(t: string, v: string)
    requires t != [] && !IsSpace(t[0]) && AllSpace(v)
    ensures TrimEnd(t + v) == TrimEnd(t)
  {
    var t' := TrimEnd(t);
    var e := t[|t'|..];
    TrimEndKeepsFirst(t);
    TrimEndPrefix(t);
    TrimEndDropsSpace(t);
    AllSpaceAppend(e, v);
    assert t == t' + e;
    assert t + v == t' + (e + v);
    TrimEndOfSpace(t', e + v);
  }

  lemma AllSpaceAppend(a: string, b: string)
    requires AllSpace(a) && AllSpace(b)
    ensures AllSpace(a + b)
  {
    forall i | 0 <= i < |a + b| ensures IsSpace((a + b)[i]) {
      if i < |a| { assert (a + b)[i] == a[i]; } else { assert (a + b)[i] == b[i - |a|]; }
    }
  }

  lemma {:induction false} TrimEndOfSpace(x: string, v: string)
    requires x != [] && !IsSpace(x[|x| - 1])
    requires AllSpace(v)
    ensures TrimEnd(x + v) == x
    decreases |v|
  {
    if v == [] {
      assert x + v == x;
    } else {
      assert (x + v)[..|x + v| - 1] == x + v[..|v| - 1];
      TrimEndOfSpace(x, v[..|v| - 1]);
    }
  }
}
