/** The matcher of grep.c, and the language that a pattern denotes. */
module Grep {
  datatype Item = One(c: char) | Star(c: char)

  predicate Fits(c: char, x: char) {
    c == '.' || c == x
  }

  ghost predicate AllFit(c: char, w: string) {
    forall i :: 0 <= i < |w| ==> Fits(c, w[i])
  }

  /** The strings an item stands for. */
  ghost predicate InItem(item: Item, w: string) {
    match item
    case One(c) => |w| == 1 && Fits(c, w[0])
    case Star(c) => AllFit(c, w)
  }

  /** Concatenation. */
  ghost predicate InLang(items: seq<Item>, w: string)
    decreases |items|
  {
    if items == [] then w == []
    else exists k :: 0 <= k <= |w| && InItem(items[0], w[..k]) && InLang(items[1..], w[k..])
  }

  /** A pattern without its leading '^': a starred atom, an end mark, or one character at a time. */
  function Items(re: string): seq<Item>
    decreases |re|
  {
    if re == [] || re == "$" then []
    else if |re| >= 2 && re[1] == '*' then [Star(re[0])] + Items(re[2..])
    else [One(re[0])] + Items(re[1..])
  }

  /** The pattern ends in a '$' that is an end mark. */
  predicate AtEnd(re: string)
    decreases |re|
  {
    if re == [] then false
    else if re == "$" then true
    else if |re| >= 2 && re[1] == '*' then AtEnd(re[2..])
    else AtEnd(re[1..])
  }

  ghost predicate HereTo(re: string, text: string, j: nat) {
    j <= |text| && InLang(Items(re), text[..j]) && (AtEnd(re) ==> j == |text|)
  }

  /** Some string of the language begins the text, and ends it when the pattern says so. */
  ghost predicate Here(re: string, text: string) {
    exists j: nat :: HereTo(re, text, j)
  }

  /** What match decides. */
  ghost predicate Denotes(re: string, text: string) {
    if re != [] && re[0] == '^' then Here(re[1..], text)
    else exists i :: 0 <= i <= |text| && Here(re, text[i..])
  }

  // ------------------------------------------------------ the cases of matchhere

  lemma {:induction false} HereEmpty(text: string)
    ensures Here([], text)
  {
    assert HereTo([], text, 0);
  }

  lemma {:induction false} HereEnd(text: string)
    ensures Here("$", text) <==> text == []
  {
    if text == [] {
      assert HereTo("$", text, 0);
    }
  }

  predicate Starred(re: string) {
    |re| >= 2 && re[1] == '*'
  }

  lemma {:induction false} HereOne(re: string, text: string)
    requires re != [] && !Starred(re) && re != "$"
    ensures Here(re, text) <==> text != [] && Fits(re[0], text[0]) && Here(re[1..], text[1..])
  {
    if Here(re, text) {
      var j: nat :| HereTo(re, text, j);
      var w := text[..j];
      var k :| 0 <= k <= |w| && InItem(One(re[0]), w[..k]) && InLang(Items(re[1..]), w[k..]);
      assert w[1..] == text[1..][..j - 1];
      assert HereTo(re[1..], text[1..], j - 1);
    }
    if text != [] && Fits(re[0], text[0]) && Here(re[1..], text[1..]) {
      var j: nat :| HereTo(re[1..], text[1..], j);
      var w := text[..j + 1];
      assert w[..1] == [text[0]] && w[1..] == text[1..][..j];
      assert InItem(One(re[0]), w[..1]) && InLang(Items(re)[1..], w[1..]);
      assert HereTo(re, text, j + 1);
    }
  }

  /** A starred atom: some fitting characters, then the rest of the pattern. */
  lemma {:induction false} HereStar(re: string, text: string)
    requires Starred(re)
    ensures Here(re, text) <==> exists k :: 0 <= k <= |text| && AllFit(re[0], text[..k]) && Here(re[2..], text[k..])
  {
    if Here(re, text) {
      var j: nat :| HereTo(re, text, j);
      var w := text[..j];
      var k :| 0 <= k <= |w| && InItem(Star(re[0]), w[..k]) && InLang(Items(re[2..]), w[k..]);
      assert w[..k] == text[..k] && w[k..] == text[k..][..j - k];
      assert HereTo(re[2..], text[k..], j - k);
    }
    if exists k :: 0 <= k <= |text| && AllFit(re[0], text[..k]) && Here(re[2..], text[k..]) {
      var k :| 0 <= k <= |text| && AllFit(re[0], text[..k]) && Here(re[2..], text[k..]);
      var j: nat :| HereTo(re[2..], text[k..], j);
      var w := text[..k + j];
      assert w[..k] == text[..k] && w[k..] == text[k..][..j];
      assert InItem(Star(re[0]), w[..k]) && InLang(Items(re)[1..], w[k..]);
      assert HereTo(re, text, k + j);
    }
  }

  // ------------------------------------------------------ the program

  /** match: a hit at the start, or anywhere, the end included. */
  method Match(re: string, text: string) returns (r: bool)
    ensures r <==> Denotes(re, text)
  {
    if re != [] && re[0] == '^' {
      r := MatchHere(re[1..], text);
      return;
    }
    var i := 0;
    while true
      invariant 0 <= i <= |text| && forall k :: 0 <= k < i ==> !Here(re, text[k..])
      decreases |text| - i
    {
      r := MatchHere(re, text[i..]);
      if r {
        return true;
      }
      if i == |text| {
        return false;
      }
      i := i + 1;
    }
  }

  method MatchHere(re: string, text: string) returns (r: bool)
    ensures r <==> Here(re, text)
    decreases |re|, 0
  {
    if re == [] {
      HereEmpty(text);
      return true;
    }
    if |re| >= 2 && re[1] == '*' {
      HereStar(re, text);
      r := MatchStar(re[0], re[2..], text);
      return;
    }
    if re[0] == '$' && |re| == 1 {
      assert re == "$";
      HereEnd(text);
      return text == [];
    }
    HereOne(re, text);
    if text != [] && (re[0] == '.' || re[0] == text[0]) {
      r := MatchHere(re[1..], text[1..]);
      return;
    }
    return false;
  }

  method MatchStar(c: char, re: string, text: string) returns (r: bool)
    ensures r <==> exists k :: 0 <= k <= |text| && AllFit(c, text[..k]) && Here(re, text[k..])
    decreases |re|, 1
  {
    var i := 0;
    while true
      invariant 0 <= i <= |text| && AllFit(c, text[..i]) && forall k :: 0 <= k < i ==> !Here(re, text[k..])
      decreases |text| - i
    {
      r := MatchHere(re, text[i..]);
      if r {
        return true;
      }
      if i == |text| || !(text[i] == c || c == '.') {
        assert forall k :: i < k <= |text| ==> !AllFit(c, text[..k]) by {
          assert forall k :: i < k <= |text| ==> text[..k][i] == text[i];
        }
        return false;
      }
      i := i + 1;
    }
  }
}
