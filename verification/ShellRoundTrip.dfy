/** Parsing what was printed gives the tree back, and the parser builds no other trees. */
module ShellRoundTrip {
  import opened ShellGrammar

  // ---------------------------------------------------------------- redirections

  predicate ModesOk(rs: seq<Redirection>) { forall i :: 0 <= i < |rs| ==> ModeOk(rs[i].mode, rs[i].fd) }

  // A redirected command, taken apart: what is redirected, and the redirections in order.
  function Base(c: Cmd): (b: Cmd)
    ensures !b.Redir? && (Shaped(c) ==> Shaped(b)) && (b == c || b < c)
  {
    if c.Redir? then Base(c.cmd) else c
  }

  function Around(c: Cmd): (rs: seq<Redirection>)
    ensures Shaped(c) ==> ModesOk(rs)
  {
    if c.Redir? then Around(c.cmd) + [Redirection(c.file, c.mode, c.fd)] else []
  }

  function ShowRedirs(rs: seq<Redirection>): (ts: seq<Token>) {
    if rs == [] then [] else RedirToks(rs[0].file, rs[0].mode) + ShowRedirs(rs[1..])
  }

  lemma {:induction false} ShowMore(rs: seq<Redirection>, r: Redirection)
    ensures ShowRedirs(rs + [r]) == ShowRedirs(rs) + RedirToks(r.file, r.mode)
  {
    if rs == [] {
      assert rs + [r] == [r] && [r][1..] == [];
    } else {
      ShowMore(rs[1..], r);
      assert (rs + [r])[1..] == rs[1..] + [r];
    }
  }

  lemma {:induction false} TakenApart(c: Cmd)
    ensures Wrap(Base(c), Around(c)) == c
    ensures ShowCommand(c) == ShowCommand(Base(c)) + ShowRedirs(Around(c))
  {
    if c.Redir? {
      TakenApart(c.cmd);
      var rs, r := Around(c.cmd), Redirection(c.file, c.mode, c.fd);
      assert (rs + [r])[..|rs + [r]| - 1] == rs;
      ShowMore(rs, r);
    }
  }

  lemma RedirsOne(r: Redirection, ts: seq<Token>)
    requires ModeOk(r.mode, r.fd) && Redirs(ts).Ok?
    ensures Redirs(RedirToks(r.file, r.mode) + ts) == Ok([r] + Redirs(ts).value, Redirs(ts).rest)
  {
    assert (RedirToks(r.file, r.mode) + ts)[2..] == ts;
  }

  lemma {:induction false} RedirsBack(rs: seq<Redirection>, rest: seq<Token>)
    requires ModesOk(rs) && !AtRedir(rest)
    ensures Redirs(ShowRedirs(rs) + rest) == Ok(rs, rest)
  {
    if rs == [] {
      assert ShowRedirs(rs) + rest == rest;
    } else {
      RedirsBack(rs[1..], rest);
      RedirsOne(rs[0], ShowRedirs(rs[1..]) + rest);
      assert ShowRedirs(rs) + rest == RedirToks(rs[0].file, rs[0].mode) + (ShowRedirs(rs[1..]) + rest);
      assert [rs[0]] + rs[1..] == rs;
    }
  }

  // ---------------------------------------------------------------- commands

  lemma ItemsOne(argv: seq<string>, w: string, ts: seq<Token>)
    requires |argv| + 1 < MAXARGS
    ensures Items(argv, [], [Word(w)] + ts) == Items(argv + [w], [], ts)
  {
    assert ([Word(w)] + ts)[1..] == ts;
    var none: seq<Redirection> := [];
    assert none + none == none;
  }

  lemma ItemsEnd(argv: seq<string>, ts: seq<Token>, rs: seq<Redirection>, rest: seq<Token>)
    requires Redirs(ts) == Ok(rs, rest) && Ends(rest)
    ensures Items(argv, [], ts) == Ok(Wrap(Exec(argv), rs), rest)
  {
    assert [] + rs == rs;
  }

  // Arguments `more` and then what `after` is, for a command that has `argv` already.
  lemma {:induction false} ItemsMore(argv: seq<string>, more: seq<string>, after: seq<Token>)
    requires |argv| + |more| < MAXARGS
    ensures Items(argv, [], Words(more) + after) == Items(argv + more, [], after)
    decreases |more|
  {
    if more == [] {
      assert Words(more) + after == after && argv + more == argv;
    } else {
      ItemsOne(argv, more[0], Words(more[1..]) + after);
      assert Words(more) + after == [Word(more[0])] + (Words(more[1..]) + after);
      ItemsMore(argv + [more[0]], more[1..], after);
      assert argv + [more[0]] + more[1..] == argv + more;
    }
  }

  lemma ItemsBack(argv: seq<string>, rs: seq<Redirection>, rest: seq<Token>)
    requires |argv| < MAXARGS && ModesOk(rs) && Ends(rest)
    ensures Items([], [], Words(argv) + (ShowRedirs(rs) + rest)) == Ok(Wrap(Exec(argv), rs), rest)
  {
    RedirsBack(rs, rest);
    ItemsMore([], argv, ShowRedirs(rs) + rest);
    assert [] + argv == argv;
    ItemsEnd(argv, ShowRedirs(rs) + rest, rs, rest);
  }

  // What may stand after a pipeline, and after a line.
  predicate EndsPipes(ts: seq<Token>) { ts == [] || At(ts, ')') || At(ts, '&') || At(ts, ';') }
  predicate EndsLine(ts: seq<Token>) { ts == [] || At(ts, ')') }

  lemma {:induction false} CommandBack(c: Cmd, rest: seq<Token>)
    requires Shaped(c) && Ends(rest)
    ensures Command(ShowCommand(c) + rest) == Ok(c, rest)
    decreases c, 1
  {
    var b, rs := Base(c), Around(c);
    TakenApart(c);
    assert ShowCommand(c) + rest == ShowCommand(b) + (ShowRedirs(rs) + rest);
    if b.Exec? {
      ItemsBack(b.argv, rs, rest);
      NotBlock(b.argv, rs, rest);
    } else {
      InsideBack(b, [Sym(')')] + (ShowRedirs(rs) + rest));
      BlockBack(b, rs, rest);
    }
  }

  // A compound command in parentheses, with its redirections.
  lemma BlockBack(b: Cmd, rs: seq<Redirection>, rest: seq<Token>)
    requires !b.Exec? && !b.Redir? && ModesOk(rs) && Ends(rest)
    requires var after := [Sym(')')] + (ShowRedirs(rs) + rest); Line(Inside(b) + after) == Ok(b, after)
    ensures Command(ShowCommand(b) + (ShowRedirs(rs) + rest)) == Ok(Wrap(b, rs), rest)
  {
    RedirsBack(rs, rest);
    Parenthesised(b, Inside(b), ShowRedirs(rs) + rest);
  }

  lemma BlockIs(ts: seq<Token>, c: Cmd, rest: seq<Token>)
    requires At(ts, '(') && Line(ts[1..]) == Ok(c, rest) && At(rest, ')') && Redirs(rest[1..]).Ok?
    ensures Command(ts) == Ok(Wrap(c, Redirs(rest[1..]).value), Redirs(rest[1..]).rest)
  {
    assert Command(ts) == Block(ts);
  }

  lemma Enclosed<T>(a: T, m: seq<T>, z: T, after: seq<T>)
    ensures ([a] + m + [z] + after)[0] == a && ([a] + m + [z] + after)[1..] == m + ([z] + after)
    ensures ([z] + after)[0] == z && ([z] + after)[1..] == after
  {
  }

  lemma Parenthesised(c: Cmd, inside: seq<Token>, after: seq<Token>)
    requires Line(inside + ([Sym(')')] + after)) == Ok(c, [Sym(')')] + after) && Redirs(after).Ok?
    ensures Command([Sym('(')] + inside + [Sym(')')] + after) == Ok(Wrap(c, Redirs(after).value), Redirs(after).rest)
  {
    Enclosed(Sym('('), inside, Sym(')'), after);
    BlockIs([Sym('(')] + inside + [Sym(')')] + after, c, [Sym(')')] + after);
  }

  lemma NotBlock(argv: seq<string>, rs: seq<Redirection>, rest: seq<Token>)
    requires Ends(rest)
    ensures !At(Words(argv) + (ShowRedirs(rs) + rest), '(')
  {
    if argv == [] {
      assert Words(argv) + (ShowRedirs(rs) + rest) == ShowRedirs(rs) + rest;
      if rs == [] {
        assert ShowRedirs(rs) + rest == rest;
      }
    }
  }

  lemma {:induction false} PipesBack(c: Cmd, rest: seq<Token>)
    requires Shaped(c) && EndsPipes(rest)
    ensures Pipes(ShowPipes(c) + rest) == Ok(c, rest)
    decreases c, 2
  {
    if c.Pipe? {
      PipeBack(c.left, c.right, rest);
    } else {
      CommandBack(c, rest);
    }
  }

  lemma {:induction false} PipeBack(l: Cmd, r: Cmd, rest: seq<Token>)
    requires Shaped(l) && Shaped(r) && EndsPipes(rest)
    ensures Pipes(Inside(Pipe(l, r)) + rest) == Ok(Pipe(l, r), rest)
    decreases Pipe(l, r), 0, 0
  {
    var after := [Sym('|')] + (ShowPipes(r) + rest);
    assert Inside(Pipe(l, r)) + rest == ShowCommand(l) + after;
    CommandBack(l, after);
    PipesBack(r, rest);
    assert after[1..] == ShowPipes(r) + rest;
  }

  lemma {:induction false} BacksBack(c: Cmd, rest: seq<Token>)
    requires Shaped(c) && EndsPipes(rest)
    ensures Line(ShowBacks(c) + rest) == Tail(c, rest)
    decreases c, 3
  {
    if c.Back? {
      BackBack(c.cmd, rest);
    } else {
      PipesBack(c, rest);
    }
  }

  lemma {:induction false} BackBack(d: Cmd, rest: seq<Token>)
    requires Shaped(d) && EndsPipes(rest)
    ensures Line(Inside(Back(d)) + rest) == Tail(Back(d), rest)
    decreases Back(d), 0, 0
  {
    var after := [Sym('&')] + rest;
    assert Inside(Back(d)) + rest == ShowBacks(d) + after;
    BacksBack(d, after);
    assert after[1..] == rest;
  }

  // A compound command, with nothing but a closing parenthesis after it.
  lemma {:induction false} InsideBack(c: Cmd, rest: seq<Token>)
    requires Shaped(c) && EndsLine(rest) && !c.Exec? && !c.Redir?
    ensures Line(Inside(c) + rest) == Ok(c, rest)
    decreases c, 0, 1
  {
    match c
    case Pipe(l, r) =>
      PipeBack(l, r, rest);
    case Back(d) =>
      BackBack(d, rest);
    case List(l, r) =>
      var after := [Sym(';')] + (ShowLine(r) + rest);
      assert Inside(c) + rest == ShowBacks(l) + after;
      BacksBack(l, after);
      LineBack(r, rest);
      assert after[1..] == ShowLine(r) + rest;
  }

  lemma {:induction false} LineBack(c: Cmd, rest: seq<Token>)
    requires Shaped(c) && EndsLine(rest)
    ensures Line(ShowLine(c) + rest) == Ok(c, rest)
    decreases c, 4
  {
    if c.List? {
      InsideBack(c, rest);
    } else {
      BacksBack(c, rest);
    }
  }

  // ---------------------------------------------------------------- text

  lemma {:induction false} InsideOk(c: Cmd)
    requires Spelled(c)
    ensures TokensOk(Inside(c))
    decreases c, 0
  {
    match c
    case List(l, r) => ShowOk(l); ShowOk(r);
    case Back(d) => ShowOk(d);
    case Pipe(l, r) => ShowOk(l); ShowOk(r);
    case _ =>
  }

  lemma {:induction false} ShowOk(c: Cmd)
    requires Spelled(c)
    ensures TokensOk(ShowCommand(c)) && TokensOk(ShowPipes(c)) && TokensOk(ShowBacks(c)) && TokensOk(ShowLine(c))
    decreases c, 1
  {
    InsideOk(c);
    assert TokensOk(ShowCommand(c)) by {
      if c.Redir? {
        ShowOk(c.cmd);
      }
    }
  }

  lemma {:induction false} TextPlain(ts: seq<Token>)
    requires TokensOk(ts)
    ensures '\0' !in Text(ts)
  {
    if ts != [] {
      TextPlain(ts[1..]);
    }
  }

  // Print a tree and parse the text: the same tree.
  lemma RoundTrip(c: Cmd)
    requires Legal(c)
    ensures '\0' !in Print(c) && Whole(Lex(Print(c))) == Ok(c, [])
  {
    ShowOk(c);
    TextPlain(ShowLine(c));
    LexText(ShowLine(c));
    LineBack(c, []);
    assert ShowLine(c) + [] == ShowLine(c);
  }

  // ---------------------------------------------------------------- no other trees

  lemma {:induction false} LexOk(s: string)
    requires '\0' !in s
    ensures TokensOk(Lex(s))
    decreases |s|
  {
    if s != [] {
      if Space(s[0]) {
        LexOk(s[1..]);
      } else if s[0] == '>' && |s| > 1 && s[1] == '>' {
        LexOk(s[2..]);
      } else if Symbol(s[0]) {
        LexOk(s[1..]);
      } else {
        LexOk(s[WordLen(s)..]);
      }
    }
  }

  predicate RedirsOk(rs: seq<Redirection>) { ModesOk(rs) && forall i :: 0 <= i < |rs| ==> WordOk(rs[i].file) }

  lemma {:induction false} WrapLegal(c: Cmd, rs: seq<Redirection>)
    requires Legal(c) && RedirsOk(rs)
    ensures Legal(Wrap(c, rs))
  {
    if rs != [] {
      WrapLegal(c, rs[..|rs| - 1]);
    }
  }

  lemma {:induction false} RedirsLegal(ts: seq<Token>)
    requires TokensOk(ts) && Redirs(ts).Ok?
    ensures RedirsOk(Redirs(ts).value) && TokensOk(Redirs(ts).rest)
    decreases |ts|
  {
    if AtRedir(ts) {
      RedirsLegal(ts[2..]);
      assert TokenOk(ts[1]);
    }
  }

  lemma {:induction false} ItemsLegal(argv: seq<string>, rs: seq<Redirection>, ts: seq<Token>)
    requires Legal(Exec(argv)) && RedirsOk(rs) && TokensOk(ts) && Items(argv, rs, ts).Ok?
    ensures Legal(Items(argv, rs, ts).value) && TokensOk(Items(argv, rs, ts).rest)
    decreases |ts|
  {
    RedirsLegal(ts);
    var more, ts1 := Redirs(ts).value, Redirs(ts).rest;
    if Ends(ts1) {
      WrapLegal(Exec(argv), rs + more);
    } else {
      assert TokenOk(ts1[0]);
      ItemsLegal(argv + [ts1[0].s], rs + more, ts1[1..]);
    }
  }

  lemma {:induction false} LineLegal(ts: seq<Token>)
    requires TokensOk(ts) && Line(ts).Ok?
    ensures Legal(Line(ts).value) && TokensOk(Line(ts).rest)
    decreases |ts|, 3
  {
    PipesLegal(ts);
    TailLegal(Pipes(ts).value, Pipes(ts).rest);
  }

  lemma {:induction false} TailLegal(c: Cmd, ts: seq<Token>)
    requires Legal(c) && TokensOk(ts) && Tail(c, ts).Ok?
    ensures Legal(Tail(c, ts).value) && TokensOk(Tail(c, ts).rest)
    decreases |ts|, 0
  {
    if At(ts, '&') {
      TailLegal(Back(c), ts[1..]);
    } else if At(ts, ';') {
      LineLegal(ts[1..]);
    }
  }

  lemma {:induction false} PipesLegal(ts: seq<Token>)
    requires TokensOk(ts) && Pipes(ts).Ok?
    ensures Legal(Pipes(ts).value) && TokensOk(Pipes(ts).rest)
    decreases |ts|, 2
  {
    CommandLegal(ts);
    var rest := Command(ts).rest;
    if At(rest, '|') {
      PipesLegal(rest[1..]);
    }
  }

  lemma {:induction false} CommandLegal(ts: seq<Token>)
    requires TokensOk(ts) && Command(ts).Ok?
    ensures Legal(Command(ts).value) && TokensOk(Command(ts).rest)
    decreases |ts|, 1
  {
    if At(ts, '(') {
      LineLegal(ts[1..]);
      var c, rest := Line(ts[1..]).value, Line(ts[1..]).rest;
      RedirsLegal(rest[1..]);
      WrapLegal(c, Redirs(rest[1..]).value);
    } else {
      ItemsLegal([], [], ts);
    }
  }

  ghost predicate Parsable(c: Cmd) {
    exists s: string :: '\0' !in s && Whole(Lex(s)) == Ok(c, [])
  }

  // The trees some text parses to are exactly the legal ones.
  lemma ParsableIff(c: Cmd)
    ensures Parsable(c) <==> Legal(c)
  {
    if Legal(c) {
      RoundTrip(c);
    }
    if s: string :| '\0' !in s && Whole(Lex(s)) == Ok(c, []) {
      LexOk(s);
      LineLegal(Lex(s));
    }
  }
}
