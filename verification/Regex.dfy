/** grep's regular expression matcher (user/grep.c match, matchhere and matchstar),
    against what its patterns denote.  C strings are given without their NUL. */
module Regex {

  // ---------- What patterns mean ----------

  /** A pattern is a list of items; End is a `$` at the end of the pattern. */
  datatype Item = One(c: char) | Star(c: char) | End

  function Parse(re: string): seq<Item> {
    if re == "" then []
    else if |re| > 1 && re[1] == '*' then [Star(re[0])] + Parse(re[2..])
    else if re == "$" then [End]
    else [One(re[0])] + Parse(re[1..])
  }

  function Written(item: Item): string {
    match item
    case One(c) => [c]
    case Star(c) => [c, '*']
    case End => "$"
  }

  /** How a list of items is written as a pattern. */
  function Render(items: seq<Item>): string {
    if items == [] then "" else Written(items[0]) + Render(items[1..])
  }

  /** The lists that can be written: End comes last and a last `$` is End, and what
      follows a single character does not begin with `*`. */
  predicate Writable(items: seq<Item>) {
    items == [] ||
    (&& Writable(items[1..])
     && match items[0]
        case One(c) => if |items| == 1 then c != '$' else Written(items[1])[0] != '*'
        case Star(_) => true
        case End => |items| == 1)
  }

  /** The items of a pattern are the one writable list that is written like it. */
  lemma {:induction false} ParseRenders(re: string)
    ensures Render(Parse(re)) == re && Writable(Parse(re))
  {
    if re != "" && re != "$" {
      var k := if |re| > 1 && re[1] == '*' then 2 else 1;
      var item := if k == 2 then Star(re[0]) else One(re[0]);
      ParseRenders(re[k..]);
      assert Parse(re) == [item] + Parse(re[k..]) && re == re[..k] + re[k..];
      FirstWritten(Parse(re[k..]));
    }
  }

  lemma FirstWritten(items: seq<Item>)
    ensures items != [] ==> Render(items) != "" && Render(items)[0] == Written(items[0])[0]
    ensures items == [] <==> Render(items) == ""
  {
  }

  lemma {:induction false} RenderParses(items: seq<Item>)
    requires Writable(items)
    ensures Parse(Render(items)) == items
  {
    if items != [] {
      var rest := items[1..];
      RenderParses(rest);
      FirstWritten(rest);
      var re := Render(items);
      assert items == [items[0]] + rest && re == Written(items[0]) + Render(rest);
      if items[0].Star? {
        assert re[2..] == Render(rest);
      } else {
        assert re[1..] == Render(rest);
      }
    }
  }

  predicate Accepts(c: char, x: char) {
    c == '.' || c == x
  }

  /** The texts that an item stands for. */
  ghost predicate Fits(item: Item, piece: string) {
    match item
    case One(c) => |piece| == 1 && Accepts(c, piece[0])
    case Star(c) => forall i | 0 <= i < |piece| :: Accepts(c, piece[i])
    case End => piece == ""
  }

  ghost function Concat(pieces: seq<string>): string {
    if pieces == [] then "" else pieces[0] + Concat(pieces[1..])
  }

  ghost predicate Splits(items: seq<Item>, s: string, pieces: seq<string>) {
    |pieces| == |items| && Concat(pieces) == s && forall i | 0 <= i < |items| :: Fits(items[i], pieces[i])
  }

  /** The language of the pattern: texts that can be cut into one piece per item. */
  ghost predicate Language(items: seq<Item>, s: string) {
    exists pieces :: Splits(items, s, pieces)
  }

  predicate Anchored(items: seq<Item>) {
    End in items
  }

  /** The pattern matches the text from its beginning. */
  ghost predicate MatchesHere(items: seq<Item>, text: string) {
    exists j: nat :: Prefix(items, text, j)
  }

  ghost predicate Prefix(items: seq<Item>, text: string, j: nat) {
    j <= |text| && Language(items, text[..j]) && (Anchored(items) ==> j == |text|)
  }

  /** The pattern matches somewhere, or at the beginning if it starts with `^`. */
  ghost predicate Matches(re: string, text: string) {
    if re != "" && re[0] == '^' then MatchesHere(Parse(re[1..]), text)
    else exists i: nat :: i <= |text| && MatchesHere(Parse(re), text[i..])
  }

  // ---------- Taking off the first item ----------

  lemma LanguageNil(s: string)
    ensures Language([], s) <==> s == ""
  {
    if s == "" {
      assert Splits([], s, []);
    }
  }

  lemma LanguageCons(item: Item, rest: seq<Item>, s: string, k: nat)
    requires k <= |s| && Fits(item, s[..k]) && Language(rest, s[k..])
    ensures Language([item] + rest, s)
  {
    var pieces :| Splits(rest, s[k..], pieces);
    var all := [s[..k]] + pieces;
    assert all[1..] == pieces && s == s[..k] + s[k..];
    assert Splits([item] + rest, s, all);
  }

  lemma LanguageUncons(item: Item, rest: seq<Item>, s: string) returns (k: nat)
    requires Language([item] + rest, s)
    ensures k <= |s| && Fits(item, s[..k]) && Language(rest, s[k..])
  {
    var pieces :| Splits([item] + rest, s, pieces);
    k := |pieces[0]|;
    assert s == pieces[0] + Concat(pieces[1..]) && s[..k] == pieces[0] && s[k..] == Concat(pieces[1..]);
    forall i | 0 <= i < |rest| ensures Fits(rest[i], pieces[1..][i])
      { assert Fits(([item] + rest)[i + 1], pieces[i + 1]); }
    assert ([item] + rest)[0] == item;
    assert Splits(rest, s[k..], pieces[1..]);
  }

  /** matchhere with nothing left of the pattern. */
  lemma HereNil(text: string)
    ensures MatchesHere([], text)
  {
    LanguageNil(text[..0]);
    assert Prefix([], text, 0);
  }

  lemma HereEnd(text: string)
    ensures MatchesHere([End], text) <==> text == ""
  {
    if text == "" {
      LanguageNil("");
      LanguageCons(End, [], text, 0);
      assert [End] + [] == [End] && text[..0] == text;
      assert Prefix([End], text, 0);
    }
    if MatchesHere([End], text) {
      var j: nat :| Prefix([End], text, j);
      assert [End] + [] == [End] && text[..j] == text;
      var k := LanguageUncons(End, [], text);
      LanguageNil(text[k..]);
    }
  }

  /** A match of `item` then `rest` is a piece for `item` and a match of `rest` behind it. */
  lemma HereStep(item: Item, rest: seq<Item>, text: string, k: nat)
    requires item != End && k <= |text| && Fits(item, text[..k]) && MatchesHere(rest, text[k..])
    ensures MatchesHere([item] + rest, text)
  {
    var j: nat :| Prefix(rest, text[k..], j);
    var s := text[..k + j];
    assert s[..k] == text[..k] && s[k..] == text[k..][..j];
    LanguageCons(item, rest, s, k);
    assert Prefix([item] + rest, text, k + j);
  }

  lemma HereUnstep(item: Item, rest: seq<Item>, text: string) returns (k: nat)
    requires item != End && MatchesHere([item] + rest, text)
    ensures k <= |text| && Fits(item, text[..k]) && MatchesHere(rest, text[k..])
  {
    var j: nat :| Prefix([item] + rest, text, j);
    var s := text[..j];
    k := LanguageUncons(item, rest, s);
    assert s[..k] == text[..k] && s[k..] == text[k..][..j - k];
    assert End in rest ==> End in [item] + rest;
    assert Prefix(rest, text[k..], j - k);
  }

  function Ones(cs: string): seq<Item> {
    if cs == "" then [] else [One(cs[0])] + Ones(cs[1..])
  }

  /** A list of single characters matches the texts that begin with them, `.` being any
      character. */
  lemma {:induction false} OnesMatch(cs: string, text: string)
    ensures MatchesHere(Ones(cs), text) <==>
      |cs| <= |text| && forall i | 0 <= i < |cs| :: cs[i] == '.' || cs[i] == text[i]
    decreases |cs|
  {
    if cs == "" {
      HereNil(text);
    } else {
      var rest := Ones(cs[1..]);
      if MatchesHere(Ones(cs), text) {
        var k := HereUnstep(One(cs[0]), rest, text);
        OnesMatch(cs[1..], text[1..]);
        forall i | 0 <= i < |cs| ensures cs[i] == '.' || cs[i] == text[i] {
          if 0 < i {
            assert cs[i] == cs[1..][i - 1] && text[i] == text[1..][i - 1];
          }
        }
      }
      if |cs| <= |text| && forall i | 0 <= i < |cs| :: cs[i] == '.' || cs[i] == text[i] {
        OnesMatch(cs[1..], text[1..]);
        assert text[..1] == [text[0]];
        HereStep(One(cs[0]), rest, text, 1);
      }
    }
  }

  /** c* matches any number of these characters, before the rest. */
  lemma StarMatches(c: char, rest: seq<Item>, text: string)
    ensures MatchesHere([Star(c)] + rest, text) <==>
      exists k: nat ::
        k <= |text| && (c == '.' || forall i | 0 <= i < k :: text[i] == c) && MatchesHere(rest, text[k..])
  {
    if MatchesHere([Star(c)] + rest, text) {
      var k := HereUnstep(Star(c), rest, text);
      forall i | 0 <= i < k ensures c == '.' || text[i] == c { assert text[..k][i] == text[i]; }
    }
    if k: nat :| k <= |text| && (c == '.' || forall i | 0 <= i < k :: text[i] == c) && MatchesHere(rest, text[k..]) {
      HereStep(Star(c), rest, text, k);
    }
  }

  // ---------- The matcher ----------

  /** matchhere */
  method MatchHere(re: string, text: string) returns (r: bool)
    ensures r <==> MatchesHere(Parse(re), text)
    decreases |re|, 0
  {
    if re == "" {
      HereNil(text);
      return true;
    }
    if |re| > 1 && re[1] == '*' {
      r := MatchStar(re[0], re[2..], text);
      return;
    }
    if re[0] == '$' && |re| == 1 {
      HereEnd(text);
      return text == "";
    }
    ghost var item, rest := One(re[0]), Parse(re[1..]);
    if text != "" && (re[0] == '.' || re[0] == text[0]) {
      r := MatchHere(re[1..], text[1..]);
      if r {
        assert text[..1][0] == text[0];
        HereStep(item, rest, text, 1);
      } else if MatchesHere([item] + rest, text) {
        var k := HereUnstep(item, rest, text);
      }
      return;
    }
    r := false;
    if MatchesHere([item] + rest, text) {
      var k := HereUnstep(item, rest, text);
    }
  }

  /** matchstar: c* and then `re`. */
  method MatchStar(c: char, re: string, text: string) returns (r: bool)
    ensures r <==> MatchesHere([Star(c)] + Parse(re), text)
    decreases |re|, 1
  {
    ghost var rest := Parse(re);
    var i := 0;
    while true
      invariant i <= |text| && Fits(Star(c), text[..i])
      invariant forall k | 0 <= k < i :: !MatchesHere(rest, text[k..])
      decreases |text| - i
    {
      var here := MatchHere(re, text[i..]);
      if here {
        HereStep(Star(c), rest, text, i);
        return true;
      }
      if i < |text| && (text[i] == c || c == '.') {
        i := i + 1;
      } else {
        break;
      }
    }
    r := false;
    if MatchesHere([Star(c)] + rest, text) {
      var k := HereUnstep(Star(c), rest, text);
    }
  }

  /** match is true exactly if the text has a substring in the pattern's language, at
      the beginning for `^` and at the end for `$`. */
  method Match(re: string, text: string) returns (r: bool)
    ensures r <==> Matches(re, text)
  {
    if re != "" && re[0] == '^' {
      r := MatchHere(re[1..], text);
      return;
    }
    var i := 0;
    while true
      invariant i <= |text| && forall k | 0 <= k < i :: !MatchesHere(Parse(re), text[k..])
      decreases |text| - i
    {
      var here := MatchHere(re, text[i..]);
      if here {
        return true;
      }
      if i == |text| {
        return false;
      }
      i := i + 1;
    }
  }
}
