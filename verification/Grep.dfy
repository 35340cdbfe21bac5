/** The regular expression matcher of grep.c, against the language its patterns denote. */
module Grep {

  // One character, any number of one character; `.` stands for every character.
  datatype Item = One(c: char) | Star(c: char)

  // Items to be matched in order, and whether the match must reach the end of the text.
  datatype Pattern = Pattern(items: seq<Item>, dollar: bool)

  predicate Fits(c: char, x: char) { c == '.' || c == x }

  // Reading a pattern: a star binds to the character before it, and $ is special only at the end.
  function Compile(re: string): (p: Pattern)
    decreases |re|
  {
    if re == [] then Pattern([], false)
    else if |re| > 1 && re[1] == '*' then
      var p := Compile(re[2..]); Pattern([Star(re[0])] + p.items, p.dollar)
    else if re == "$" then Pattern([], true)
    else
      var p := Compile(re[1..]); Pattern([One(re[0])] + p.items, p.dollar)
  }

  // ---------------------------------------------------------------- what a pattern denotes

  predicate ItemIn(it: Item, w: string) {
    match it
    case One(c) => |w| == 1 && Fits(c, w[0])
    case Star(c) => forall i :: 0 <= i < |w| ==> Fits(c, w[i])
  }

  // w is a string of the first item followed by one of the others.
  ghost predicate In(items: seq<Item>, w: string) {
    if items == [] then w == []
    else exists k :: 0 <= k <= |w| && ItemIn(items[0], w[..k]) && In(items[1..], w[k..])
  }

  // Some prefix of the text is in the language, all of it if the pattern says so.
  ghost predicate Starts(p: Pattern, text: string) {
    exists n :: 0 <= n <= |text| && In(p.items, text[..n]) && (p.dollar ==> n == |text|)
  }

  // Some substring is, at the start of the text if the pattern is anchored there.
  ghost predicate Occurs(re: string, text: string) {
    if re != [] && re[0] == '^' then Starts(Compile(re[1..]), text)
    else exists m :: 0 <= m <= |text| && Starts(Compile(re), text[m..])
  }

  // ---------------------------------------------------------------- one item at a time

  // The first item matches the first k characters and the rest goes on from there.
  ghost predicate Goes(it: Item, p: Pattern, text: string, k: nat) {
    k <= |text| && ItemIn(it, text[..k]) && Starts(p, text[k..])
  }

  ghost predicate Somewhere(it: Item, p: Pattern, text: string) {
    exists k: nat :: Goes(it, p, text, k)
  }

  lemma StartsFrom(it: Item, p: Pattern, text: string, k: nat)
    requires Goes(it, p, text, k)
    ensures Starts(Pattern([it] + p.items, p.dollar), text)
  {
    var n :| 0 <= n <= |text| - k && In(p.items, text[k..][..n]) && (p.dollar ==> n == |text| - k);
    var w := text[..k + n];
    assert w[..k] == text[..k] && w[k..] == text[k..][..n];
    assert ([it] + p.items)[1..] == p.items;
    assert In([it] + p.items, w);
  }

  lemma StartsThen(it: Item, p: Pattern, text: string) returns (k: nat)
    requires Starts(Pattern([it] + p.items, p.dollar), text)
    ensures Goes(it, p, text, k)
  {
    var items := [it] + p.items;
    var n :| 0 <= n <= |text| && In(items, text[..n]) && (p.dollar ==> n == |text|);
    var w := text[..n];
    assert items[1..] == p.items;
    k :| 0 <= k <= |w| && ItemIn(items[0], w[..k]) && In(items[1..], w[k..]);
    assert w[..k] == text[..k] && w[k..] == text[k..][..n - k];
  }

  lemma StartsIff(it: Item, p: Pattern, text: string)
    ensures Starts(Pattern([it] + p.items, p.dollar), text) <==> Somewhere(it, p, text)
  {
    if Starts(Pattern([it] + p.items, p.dollar), text) {
      var k := StartsThen(it, p, text);
    }
    if k: nat :| Goes(it, p, text, k) {
      StartsFrom(it, p, text, k);
    }
  }

  lemma StartsOne(c: char, p: Pattern, text: string)
    ensures Starts(Pattern([One(c)] + p.items, p.dollar), text) <==> text != [] && Fits(c, text[0]) && Starts(p, text[1..])
  {
    StartsIff(One(c), p, text);
    if text != [] && Fits(c, text[0]) && Starts(p, text[1..]) {
      assert Goes(One(c), p, text, 1);
    }
  }

  lemma StartsNone(text: string)
    ensures Starts(Pattern([], false), text)
    ensures Starts(Pattern([], true), text) <==> text == []
  {
    assert In([], text[..0]);
    if text == [] {
      assert In([], text[..|text|]);
    }
  }

  // ---------------------------------------------------------------- the matcher

  method Matchhere(re: string, text: string) returns (b: bool)
    ensures b <==> Starts(Compile(re), text)
    decreases |re|, 1
  {
    StartsNone(text);
    if re == [] {
      return true;
    }
    if |re| > 1 && re[1] == '*' {
      ghost var p := Compile(re[2..]);
      assert Compile(re) == Pattern([Star(re[0])] + p.items, p.dollar);
      StartsIff(Star(re[0]), p, text);
      b := Matchstar(re[0], re[2..], text);
      return;
    }
    if re == "$" {
      return text == [];
    }
    StartsOne(re[0], Compile(re[1..]), text);
    if text != [] && (re[0] == '.' || re[0] == text[0]) {
      b := Matchhere(re[1..], text[1..]);
      return;
    }
    return false;
  }

  // Shortest first.
  method Matchstar(c: char, re: string, text: string) returns (b: bool)
    ensures b <==> Somewhere(Star(c), Compile(re), text)
    decreases |re|, 2
  {
    ghost var p := Compile(re);
    var k := 0;
    while true
      invariant 0 <= k <= |text| && ItemIn(Star(c), text[..k])
      invariant forall j :: 0 <= j < k ==> !Starts(p, text[j..])
      decreases |text| - k
    {
      b := Matchhere(re, text[k..]);
      if b {
        assert Goes(Star(c), p, text, k);
        return true;
      }
      if !(k < |text| && (text[k] == c || c == '.')) {
        break;
      }
      k := k + 1;
    }
    forall j: nat ensures !Goes(Star(c), p, text, j) {
      if k < j <= |text| {
        assert text[..j][k] == text[k];
      }
    }
    return false;
  }

  /** Whether the pattern occurs in the text. */
  method Match(re: string, text: string) returns (b: bool)
    ensures b <==> Occurs(re, text)
  {
    if re != [] && re[0] == '^' {
      b := Matchhere(re[1..], text);
      return;
    }
    var m := 0;
    while true
      invariant 0 <= m <= |text| && forall j :: 0 <= j < m ==> !Starts(Compile(re), text[j..])
      decreases |text| - m
    {
      b := Matchhere(re, text[m..]);
      if b {
        return true;
      }
      if m == |text| {
        break;
      }
      m := m + 1;
    }
    return false;
  }
}
