/** Which texts have which tokens: any white space between them, and none needed but where two would run together. */
module ShellLayout {
  import opened ShellGrammar
  import opened ShellRoundTrip

  predicate Gap(g: string) { forall i :: 0 <= i < |g| ==> Space(g[i]) }

  predicate Gaps(gaps: seq<string>) { forall i :: 0 <= i < |gaps| ==> Gap(gaps[i]) }

  function Letters(t: Token): (s: string) {
    match t
    case Word(w) => w
    case Sym(c) => [c]
    case Append => ">>"
  }

  predicate Touching(t: Token, u: Token) {
    (t.Word? && u.Word?) || (t == Sym('>') && (u == Sym('>') || u == Append))
  }

  // Two tokens that would run together have a gap between them.
  predicate Apart(ts: seq<Token>, gaps: seq<string>) {
    |gaps| == |ts| + 1 && forall k :: 0 <= k < |ts| - 1 && Touching(ts[k], ts[k + 1]) ==> gaps[k + 1] != []
  }

  // The tokens with these gaps before, between and after them.
  function Laid(ts: seq<Token>, gaps: seq<string>): (s: string)
    requires |gaps| == |ts| + 1
  {
    if ts == [] then gaps[0] else gaps[0] + (Letters(ts[0]) + Laid(ts[1..], gaps[1..]))
  }

  // ---------------------------------------------------------------- every layout has these tokens

  lemma {:induction false} LexGap(g: string, s: string)
    requires Gap(g)
    ensures Lex(g + s) == Lex(s)
  {
    if g == [] {
      assert g + s == s;
    } else {
      LexGap(g[1..], s);
      assert (g + s)[1..] == g[1..] + s && Space(g[0]);
    }
  }

  lemma LexToken(t: Token, s: string)
    requires TokenOk(t)
    requires t.Word? ==> s == [] || Space(s[0]) || Symbol(s[0])
    requires t == Sym('>') ==> s == [] || s[0] != '>'
    ensures Lex(Letters(t) + s) == [t] + Lex(s)
  {
    var u := Letters(t) + s;
    match t
    case Word(w) =>
      WordLenIs(w, s);
      assert u[..|w|] == w && u[|w|..] == s && u[0] == w[0];
    case Sym(c) =>
      assert u[1..] == s && u[0] == c;
    case Append =>
      assert u[2..] == s && u[0] == '>' && u[1] == '>';
  }

  // What a layout begins with.
  lemma LaidFirst(ts: seq<Token>, gaps: seq<string>)
    requires TokensOk(ts) && Gaps(gaps) && |gaps| == |ts| + 1
    ensures var s := Laid(ts, gaps);
      s != [] ==>
        if gaps[0] != [] then Space(s[0])
        else ts != [] && (ts[0].Word? <==> !Space(s[0]) && !Symbol(s[0])) && (s[0] == '>' <==> ts[0] == Sym('>') || ts[0] == Append)
  {
    if gaps[0] != [] {
      assert Gap(gaps[0]);
    } else if ts != [] {
      assert TokenOk(ts[0]);
      assert Laid(ts, gaps) == Letters(ts[0]) + Laid(ts[1..], gaps[1..]);
    }
  }

  lemma {:induction false} LexLaid(ts: seq<Token>, gaps: seq<string>)
    requires TokensOk(ts) && Gaps(gaps) && Apart(ts, gaps)
    ensures Lex(Laid(ts, gaps)) == ts
    decreases |ts|
  {
    assert Gap(gaps[0]);
    if ts == [] {
      LexGap(gaps[0], []);
      assert gaps[0] + [] == gaps[0];
    } else {
      var more, rest := ts[1..], gaps[1..];
      forall k | 0 <= k < |more| - 1 && Touching(more[k], more[k + 1]) ensures rest[k + 1] != [] {
        assert Touching(ts[k + 1], ts[k + 2]);
      }
      LexLaid(more, rest);
      LaidFirst(more, rest);
      LexGap(gaps[0], Letters(ts[0]) + Laid(more, rest));
      if more != [] {
        assert Touching(ts[0], ts[1]) ==> rest[0] != [];
      }
      LexToken(ts[0], Laid(more, rest));
    }
  }

  // ---------------------------------------------------------------- and every text is one

  lemma {:induction false} LaidFrom(s: string) returns (gaps: seq<string>)
    requires '\0' !in s
    ensures Gaps(gaps) && Apart(Lex(s), gaps) && Laid(Lex(s), gaps) == s
    decreases |s|
  {
    if s == [] {
      gaps := [[]];
    } else if Space(s[0]) {
      gaps := LaidFrom(s[1..]);
      gaps := MoreGap(s[0], Lex(s[1..]), gaps);
    } else {
      var n := if s[0] == '>' && |s| > 1 && s[1] == '>' then 2 else if Symbol(s[0]) then 1 else WordLen(s);
      var t := if n == 2 && s[0] == '>' then Append else if Symbol(s[0]) then Sym(s[0]) else Word(s[..n]);
      gaps := LaidFrom(s[n..]);
      gaps := MoreToken(t, s, n, gaps);
    }
  }

  lemma MoreGap(c: char, ts: seq<Token>, gaps: seq<string>) returns (r: seq<string>)
    requires Space(c) && Gaps(gaps) && Apart(ts, gaps)
    ensures Gaps(r) && Apart(ts, r) && Laid(ts, r) == [c] + Laid(ts, gaps)
  {
    r := gaps[0 := [c] + gaps[0]];
    assert Gap(gaps[0]);
    assert r[1..] == gaps[1..];
  }

  lemma MoreToken(t: Token, s: string, n: nat, gaps: seq<string>) returns (r: seq<string>)
    requires '\0' !in s && n <= |s| && Letters(t) == s[..n] && Lex(s) == [t] + Lex(s[n..])
    requires t.Word? ==> n == |s| || Space(s[n]) || Symbol(s[n])
    requires t == Sym('>') ==> n == |s| || s[n] != '>'
    requires Gaps(gaps) && Apart(Lex(s[n..]), gaps) && Laid(Lex(s[n..]), gaps) == s[n..]
    ensures Gaps(r) && Apart(Lex(s), r) && Laid(Lex(s), r) == s
  {
    var more := Lex(s[n..]);
    r := [[]] + gaps;
    LexOk(s[n..]);
    LaidFirst(more, gaps);
    assert r[1..] == gaps && ([t] + more)[1..] == more;
    assert Laid([t] + more, r) == s;
    if more != [] && Touching(t, more[0]) {
      assert s[n..][0] == s[n];
      assert gaps[0] != [];
    }
    forall k | 0 <= k < |more| && Touching(([t] + more)[k], ([t] + more)[k + 1]) ensures r[k + 1] != [] {
      if k > 0 {
        assert Touching(more[k - 1], more[k]);
      }
    }
  }

  // The tokens of a text are those it is a layout of.
  lemma LexIff(s: string, ts: seq<Token>)
    requires '\0' !in s
    ensures Lex(s) == ts <==> TokensOk(ts) && exists gaps :: Gaps(gaps) && Apart(ts, gaps) && Laid(ts, gaps) == s
  {
    LexOk(s);
    var gaps := LaidFrom(s);
    if TokensOk(ts) {
      if g :| Gaps(g) && Apart(ts, g) && Laid(ts, g) == s {
        LexLaid(ts, g);
      }
    }
  }
}
