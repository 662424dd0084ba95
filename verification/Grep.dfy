/** The regular-expression matcher of user/grep.c.

    A C string is a sequence of characters; its terminator is the end of the
    sequence, and advancing a pointer is taking a suffix. The reference is a
    declarative language: a text piece belongs to a pattern when it can be cut
    into one factor for each item of the pattern. */
module Grep {

  datatype Item = One(c: char) | Star(c: char)

  predicate IsStar(re: seq<char>) {
    |re| >= 2 && re[1] == '*'
  }

  /** The items of a pattern, read in the order the code tests them: a
      following '*' takes precedence over every other reading, and '$' is an
      anchor only as the very last character. */
  function Items(re: seq<char>): seq<Item> {
    if re == [] then []
    else if IsStar(re) then [Star(re[0])] + Items(re[2..])
    else if re == ['$'] then []
    else [One(re[0])] + Items(re[1..])
  }

  predicate EndAnchored(re: seq<char>) {
    if re == [] then false
    else if IsStar(re) then EndAnchored(re[2..])
    else if re == ['$'] then true
    else EndAnchored(re[1..])
  }

  predicate Fits(c: char, x: char) {
    c == '.' || c == x
  }

  predicate AllFit(c: char, w: seq<char>) {
    forall i :: 0 <= i < |w| ==> Fits(c, w[i])
  }

  predicate Factor(item: Item, w: seq<char>) {
    match item
    case One(c) => |w| == 1 && Fits(c, w[0])
    case Star(c) => AllFit(c, w)
  }

  function Concat(ws: seq<seq<char>>): seq<char> {
    if ws == [] then [] else ws[0] + Concat(ws[1..])
  }

  predicate Factors(items: seq<Item>, ws: seq<seq<char>>) {
    |ws| == |items| && forall i :: 0 <= i < |ws| ==> Factor(items[i], ws[i])
  }

  /** w is in the language of items: it is a concatenation of one factor each. */
  ghost predicate InLanguage(items: seq<Item>, w: seq<char>) {
    exists ws: seq<seq<char>> :: Factors(items, ws) && Concat(ws) == w
  }

  ghost predicate MatchesUpTo(re: seq<char>, text: seq<char>, j: int) {
    0 <= j <= |text| && (EndAnchored(re) ==> j == |text|) && InLanguage(Items(re), text[..j])
  }

  /** Some prefix of text, all of it if re is end-anchored, is in re's language. */
  ghost predicate MatchesHere(re: seq<char>, text: seq<char>) {
    exists j :: MatchesUpTo(re, text, j)
  }

  /** Some substring of text matches; it must be a prefix if re starts with '^'. */
  ghost predicate Matches(re: seq<char>, text: seq<char>) {
    if re != [] && re[0] == '^' then MatchesHere(re[1..], text)
    else exists i :: 0 <= i <= |text| && MatchesHere(re, text[i..])
  }

  // ----- the language, one item at a time

  lemma InLanguageNil(w: seq<char>)
    ensures InLanguage([], w) <==> w == []
  {
    assert Factors([], []) && Concat([]) == [];
  }

  lemma InLanguageSplit(item: Item, rest: seq<Item>, w: seq<char>) returns (k: nat)
    requires InLanguage([item] + rest, w)
    ensures k <= |w| && Factor(item, w[..k]) && InLanguage(rest, w[k..])
  {
    var items := [item] + rest;
    var ws :| Factors(items, ws) && Concat(ws) == w;
    k := |ws[0]|;
    assert w[..k] == ws[0] && w[k..] == Concat(ws[1..]);
    forall i | 0 <= i < |ws[1..]| ensures Factor(rest[i], ws[1..][i]) {
      assert rest[i] == items[i + 1];
    }
    assert Factors(rest, ws[1..]);
  }

  lemma InLanguageJoin(item: Item, rest: seq<Item>, w: seq<char>, k: nat)
    requires k <= |w| && Factor(item, w[..k]) && InLanguage(rest, w[k..])
    ensures InLanguage([item] + rest, w)
  {
    var ws :| Factors(rest, ws) && Concat(ws) == w[k..];
    var all := [w[..k]] + ws;
    assert all[1..] == ws && w == w[..k] + w[k..];
    assert Factors([item] + rest, all) && Concat(all) == w;
  }

  // ----- the pattern, one item at a time

  /** The factors of a leading item and the rest of the pattern. */
  ghost predicate MatchesAfter(item: Item, rest: seq<char>, text: seq<char>, k: int) {
    0 <= k <= |text| && Factor(item, text[..k]) && MatchesHere(rest, text[k..])
  }

  lemma MatchesHereItem(re: seq<char>, item: Item, rest: seq<char>, text: seq<char>)
    requires Items(re) == [item] + Items(rest) && EndAnchored(re) == EndAnchored(rest)
    ensures MatchesHere(re, text) <==> exists k :: MatchesAfter(item, rest, text, k)
  {
    if MatchesHere(re, text) {
      var j :| MatchesUpTo(re, text, j);
      var k := InLanguageSplit(item, Items(rest), text[..j]);
      assert text[..j][..k] == text[..k] && text[..j][k..] == text[k..][..j - k];
      assert MatchesUpTo(rest, text[k..], j - k);
      assert MatchesAfter(item, rest, text, k);
    }
    if k :| MatchesAfter(item, rest, text, k) {
      var j :| MatchesUpTo(rest, text[k..], j);
      assert text[..k + j][..k] == text[..k] && text[..k + j][k..] == text[k..][..j];
      InLanguageJoin(item, Items(rest), text[..k + j], k);
      assert MatchesUpTo(re, text, k + j);
    }
  }

  lemma MatchesHereOne(re: seq<char>, text: seq<char>)
    requires re != [] && !IsStar(re) && re != ['$']
    ensures MatchesHere(re, text) <==>
            text != [] && Fits(re[0], text[0]) && MatchesHere(re[1..], text[1..])
  {
    MatchesHereItem(re, One(re[0]), re[1..], text);
    if text != [] && Fits(re[0], text[0]) && MatchesHere(re[1..], text[1..]) {
      assert MatchesAfter(One(re[0]), re[1..], text, 1);
    }
  }

  /** The star: a run of k fitting characters, then the rest of the pattern. */
  ghost predicate MatchesRun(c: char, re: seq<char>, text: seq<char>, k: int) {
    0 <= k <= |text| && AllFit(c, text[..k]) && MatchesHere(re, text[k..])
  }

  lemma MatchesHereStar(re: seq<char>, text: seq<char>)
    requires IsStar(re)
    ensures MatchesHere(re, text) <==> exists k :: MatchesRun(re[0], re[2..], text, k)
  {
    MatchesHereItem(re, Star(re[0]), re[2..], text);
    if k :| MatchesAfter(Star(re[0]), re[2..], text, k) {
      assert MatchesRun(re[0], re[2..], text, k);
    }
    if k :| MatchesRun(re[0], re[2..], text, k) {
      assert MatchesAfter(Star(re[0]), re[2..], text, k);
    }
  }

  lemma MatchesHereEnd(re: seq<char>, text: seq<char>)
    requires re == [] || re == ['$']
    ensures MatchesHere(re, text) <==> (re == ['$'] ==> text == [])
  {
    InLanguageNil(text[..0]);
    InLanguageNil(text);
    if re == [] || text == [] {
      assert MatchesUpTo(re, text, 0);
    } else {
      assert text[..|text|] == text;
    }
  }

  // ----- the code

  /** matchhere and matchstar call each other; the pattern shrinks on every
      trip, and matchstar scans the text at one pattern length. */
  method MatchHere(re: seq<char>, text: seq<char>) returns (r: bool)
    ensures r <==> MatchesHere(re, text)
    decreases |re|, 0
  {
    if re == [] {
      MatchesHereEnd(re, text);
      return true;
    }
    if |re| >= 2 && re[1] == '*' {
      MatchesHereStar(re, text);
      r := MatchStar(re[0], re[2..], text);
      return;
    }
    if re[0] == '$' && |re| == 1 {
      MatchesHereEnd(re, text);
      return text == [];
    }
    MatchesHereOne(re, text);
    if text != [] && (re[0] == '.' || re[0] == text[0]) {
      r := MatchHere(re[1..], text[1..]);
      return;
    }
    return false;
  }

  method MatchStar(c: char, re: seq<char>, text: seq<char>) returns (r: bool)
    ensures r <==> exists k :: MatchesRun(c, re, text, k)
    decreases |re|, 1
  {
    var i := 0;
    while true
      invariant 0 <= i <= |text| && AllFit(c, text[..i])
      invariant forall k :: 0 <= k < i ==> !MatchesRun(c, re, text, k)
      decreases |text| - i
    {
      var here := MatchHere(re, text[i..]);
      if here {
        assert MatchesRun(c, re, text, i);
        return true;
      }
      if i == |text| {
        return false;
      }
      i := i + 1;
      if !(text[i - 1] == c || c == '.') {
        forall k ensures !MatchesRun(c, re, text, k) {
          if i <= k <= |text| {
            assert text[..k][i - 1] == text[i - 1];
          }
        }
        return false;
      }
    }
  }

  method Match(re: seq<char>, text: seq<char>) returns (r: bool)
    ensures r <==> Matches(re, text)
  {
    if re != [] && re[0] == '^' {
      r := MatchHere(re[1..], text);
      return;
    }
    var i := 0;
    while true
      invariant 0 <= i <= |text|
      invariant forall k :: 0 <= k < i ==> !MatchesHere(re, text[k..])
      decreases |text| - i
    {
      var here := MatchHere(re, text[i..]);
      if here {
        return true;
      }
      if i == |text| {
        return false;
      }
      i := i + 1;
    }
  }
}
