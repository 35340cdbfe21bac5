/**
 Which token sequences the shell takes and for which trees, said without the parser: a grammar of
 sentences, each with the tokens it is written with and the tree it stands for.
 */
module ShellSentences {
  import opened ShellGrammar
  import opened ShellRoundTrip

  // ---------------------------------------------------------------- simple commands

  predicate Operator(t: Token) { t == Sym('<') || t == Sym('>') || t == Append }

  // Words and redirections in any order: every operator has its file right after it.
  predicate Simple(ts: seq<Token>) { forall k: nat :: k < |ts| ==> Follows(ts, k) }

  predicate Follows(ts: seq<Token>, k: nat)
    requires k < |ts|
  {
    ts[k].Word? || (Operator(ts[k]) && k + 1 < |ts| && ts[k + 1].Word?)
  }

  // Word n stands after an operator.
  predicate Names(ts: seq<Token>, n: nat)
    requires n < |ts|
  {
    n > 0 && Operator(ts[n - 1])
  }

  // The words that stand after no operator, in order.
  function Args(ts: seq<Token>): (r: seq<string>) {
    if ts == [] then []
    else var n := |ts| - 1; Args(ts[..n]) + if ts[n].Word? && !Names(ts, n) then [ts[n].s] else []
  }

  // The files that stand after an operator, in order: < for reading as standard input, > and >> for
  // writing, and creating, as standard output.
  function Reds(ts: seq<Token>): (r: seq<Redirection>) {
    if ts == [] then []
    else
      var n := |ts| - 1;
      Reds(ts[..n]) +
        if ts[n].Word? && Names(ts, n)
        then [if ts[n - 1] == Sym('<') then Redirection(ts[n].s, 0, 0) else Redirection(ts[n].s, 0x201, 1)]
        else []
  }

  // One token more.
  lemma OneMore(ts: seq<Token>, t: Token, us: seq<Token>)
    requires |us| > 0 && us[|us| - 1] == t && us[..|us| - 1] == ts
    ensures Args(us) == Args(ts) + if t.Word? && !Names(us, |ts|) then [t.s] else []
    ensures Reds(us) == Reds(ts) +
      if t.Word? && Names(us, |ts|) then [if us[|ts| - 1] == Sym('<') then Redirection(t.s, 0, 0) else Redirection(t.s, 0x201, 1)] else []
  {
  }

  lemma {:induction false} WordFirst(w: string, ts: seq<Token>)
    ensures Args([Word(w)] + ts) == [w] + Args(ts) && Reds([Word(w)] + ts) == Reds(ts)
  {
    hide Args, Reds;
    var us := [Word(w)] + ts;
    if ts == [] {
      Nothing();
      OneMore([], Word(w), us);
    } else {
      var n := |ts| - 1;
      WordFirst(w, ts[..n]);
      OneMore(ts[..n], ts[n], ts);
      OneMore([Word(w)] + ts[..n], ts[n], us);
      assert Names(us, n + 1) == Names(ts, n);
    }
  }

  lemma Nothing()
    ensures Args([]) == [] && Reds([]) == []
  {
  }

  lemma RedirAlone(op: Token, f: string)
    requires Operator(op)
    ensures Args([op, Word(f)]) == [] && Reds([op, Word(f)]) == [Redirect(op, f)]
  {
    hide Args, Reds;
    Nothing();
    OneMore([], op, [op]);
    OneMore([op], Word(f), [op, Word(f)]);
    assert Names([op, Word(f)], 1);
  }

  lemma {:induction false} RedirFirst(op: Token, f: string, ts: seq<Token>)
    requires Operator(op)
    ensures Args([op, Word(f)] + ts) == Args(ts)
    ensures Reds([op, Word(f)] + ts) == [Redirect(op, f)] + Reds(ts)
  {
    hide Args, Reds;
    var us := [op, Word(f)] + ts;
    if ts == [] {
      Nothing();
      RedirAlone(op, f);
      assert us == [op, Word(f)];
    } else {
      var n := |ts| - 1;
      RedirFirst(op, f, ts[..n]);
      OneMore(ts[..n], ts[n], ts);
      OneMore([op, Word(f)] + ts[..n], ts[n], us);
      assert Names(us, n + 2) == Names(ts, n);
    }
  }

  lemma SimpleWord(w: string, ts: seq<Token>)
    ensures Simple([Word(w)] + ts) <==> Simple(ts)
  {
    var us := [Word(w)] + ts;
    forall k: nat | k < |ts| ensures Follows(us, k + 1) == Follows(ts, k) {
    }
    assert Simple(us) ==> Simple(ts);
    assert Simple(ts) ==> Simple(us) by {
      assert forall k: nat :: 0 < k < |us| ==> Follows(us, k) == Follows(ts, k - 1);
    }
  }

  lemma SimpleRedir(op: Token, f: string, ts: seq<Token>)
    requires Operator(op)
    ensures Simple([op, Word(f)] + ts) <==> Simple(ts)
  {
    var us, vs := [op, Word(f)] + ts, [Word(f)] + ts;
    SimpleWord(f, ts);
    forall k: nat | k < |vs| ensures Follows(us, k + 1) == Follows(vs, k) {
    }
    assert Simple(us) ==> Simple(vs);
    assert Simple(vs) ==> Simple(us) by {
      assert forall k: nat :: 0 < k < |us| ==> Follows(us, k) == Follows(vs, k - 1);
      assert Follows(us, 0);
    }
  }

  // A simple command begins with a word, or an operator and a word.
  lemma SimpleFront(ts: seq<Token>)
    requires Simple(ts) && ts != []
    ensures ts[0].Word? ==> ts == [Word(ts[0].s)] + ts[1..] && Simple(ts[1..])
    ensures !ts[0].Word? ==> Operator(ts[0]) && |ts| > 1 && ts[1].Word? && ts == [ts[0], Word(ts[1].s)] + ts[2..] && Simple(ts[2..])
  {
    assert Follows(ts, 0);
    if ts[0].Word? {
      assert ts == [Word(ts[0].s)] + ts[1..];
      SimpleWord(ts[0].s, ts[1..]);
    } else {
      assert ts == [ts[0], Word(ts[1].s)] + ts[2..];
      SimpleRedir(ts[0], ts[1].s, ts[2..]);
    }
  }

  // Nothing more of a simple command follows.
  predicate Stops(rest: seq<Token>) {
    rest == [] || (!rest[0].Word? && (Operator(rest[0]) ==> |rest| == 1 || !rest[1].Word?))
  }

  // What comes of a simple command with these arguments and redirections.
  function Outcome(args: seq<string>, rs: seq<Redirection>, rest: seq<Token>): (r: Parse<Cmd>) {
    if |args| >= MAXARGS then Fail(TooManyArgs)
    else if Ends(rest) then Ok(Wrap(Exec(args), rs), rest)
    else if AtRedir(rest) then Fail(MissingFile)
    else Fail(Syntax)
  }

  lemma ItemsWord(argv: seq<string>, rs: seq<Redirection>, w: string, ts: seq<Token>)
    ensures Items(argv, rs, [Word(w)] + ts) == if |argv| + 1 >= MAXARGS then Fail(TooManyArgs) else Items(argv + [w], rs, ts)
  {
    assert ([Word(w)] + ts)[1..] == ts;
    assert rs + [] == rs;
  }

  lemma ItemsRedir(argv: seq<string>, rs: seq<Redirection>, op: Token, f: string, ts: seq<Token>)
    requires Operator(op)
    ensures Items(argv, rs, [op, Word(f)] + ts) == Items(argv, rs + [Redirect(op, f)], ts)
  {
    var r := Redirect(op, f);
    assert ([op, Word(f)] + ts)[2..] == ts;
    if Redirs(ts).Ok? {
      assert rs + ([r] + Redirs(ts).value) == rs + [r] + Redirs(ts).value;
    }
  }

  lemma ItemsNone(argv: seq<string>, rs: seq<Redirection>, rest: seq<Token>)
    requires |argv| < MAXARGS && Stops(rest)
    ensures Items(argv, rs, rest) == Outcome(argv, rs, rest)
  {
    assert rs + [] == rs;
  }

  lemma {:induction false} ItemsAre(argv: seq<string>, rs: seq<Redirection>, body: seq<Token>, rest: seq<Token>)
    requires |argv| < MAXARGS && Simple(body) && Stops(rest)
    ensures Items(argv, rs, body + rest) == Outcome(argv + Args(body), rs + Reds(body), rest)
    decreases |body|
  {
    hide Items, Simple, Stops, Wrap;
    if body == [] {
      assert body + rest == rest && argv + [] == argv && rs + [] == rs;
      ItemsNone(argv, rs, rest);
    } else {
      SimpleFront(body);
      hide Args, Reds;
      if body[0].Word? {
        var w, more := body[0].s, body[1..];
        assert body + rest == [Word(w)] + (more + rest);
        WordFirst(w, more);
        ItemsWord(argv, rs, w, more + rest);
        assert argv + ([w] + Args(more)) == argv + [w] + Args(more);
        if |argv| + 1 < MAXARGS {
          ItemsAre(argv + [w], rs, more, rest);
        }
      } else {
        var op, f, more := body[0], body[1].s, body[2..];
        assert body + rest == [op, Word(f)] + (more + rest);
        RedirFirst(op, f, more);
        ItemsRedir(argv, rs, op, f, more + rest);
        ItemsAre(argv, rs + [Redirect(op, f)], more, rest);
        assert rs + ([Redirect(op, f)] + Reds(more)) == rs + [Redirect(op, f)] + Reds(more);
      }
    }
  }

  /**
   A simple command, arguments and redirections mixed in any order: the arguments in order, with the
   redirections around them in order.  Ten arguments are too many, an operator needs a file, and
   only | ) & ; or the end may follow.
   */
  lemma CommandIs(body: seq<Token>, rest: seq<Token>)
    requires Simple(body) && Stops(rest) && !At(body + rest, '(')
    ensures Command(body + rest) == Outcome(Args(body), Reds(body), rest)
  {
    ItemsAre([], [], body, rest);
    assert [] + Args(body) == Args(body) && [] + Reds(body) == Reds(body);
  }

  // Every token sequence is a simple command as far as it goes.
  lemma {:induction false} Split(ts: seq<Token>) returns (body: seq<Token>, rest: seq<Token>)
    ensures ts == body + rest && Simple(body) && Stops(rest)
    decreases |ts|
  {
    if Stops(ts) {
      body, rest := [], ts;
    } else if ts[0].Word? {
      body, rest := Split(ts[1..]);
      SimpleWord(ts[0].s, body);
      body := [Word(ts[0].s)] + body;
    } else {
      body, rest := Split(ts[2..]);
      SimpleRedir(ts[0], ts[1].s, body);
      body := [ts[0], Word(ts[1].s)] + body;
    }
  }

  // Redirections only, as after a closing parenthesis.
  lemma {:induction false} RedirsAre(body: seq<Token>, rest: seq<Token>)
    requires Simple(body) && Args(body) == [] && (Stops(rest) || !AtRedir(rest))
    ensures Redirs(body + rest) == if AtRedir(rest) then Fail(MissingFile) else Ok(Reds(body), rest)
    decreases |body|
  {
    if body == [] {
      assert body + rest == rest;
    } else {
      SimpleFront(body);
      hide Simple, Args, Reds;
      if body[0].Word? {
        WordFirst(body[0].s, body[1..]);
        assert false;
      } else {
        var op, f, more := body[0], body[1].s, body[2..];
        assert (body + rest)[2..] == more + rest;
        RedirFirst(op, f, more);
        RedirsAre(more, rest);
      }
    }
  }

  lemma {:induction false} RedirsSplit(ts: seq<Token>) returns (body: seq<Token>)
    requires Redirs(ts).Ok?
    ensures Simple(body) && Args(body) == [] && ts == body + Redirs(ts).rest && Redirs(ts).value == Reds(body)
    decreases |ts|
  {
    hide Simple, Args, Reds;
    body := [];
    if AtRedir(ts) {
      var op, f := ts[0], ts[1].s;
      var more := RedirsSplit(ts[2..]);
      body := [op, Word(f)] + more;
      RedirFirst(op, f, more);
      SimpleRedir(op, f, more);
      TwoFirst(ts, more, Redirs(ts[2..]).rest);
    } else {
      Nothing();
      SimpleNone();
    }
  }

  lemma SimpleNone()
    ensures Simple([])
  {
  }

  lemma TwoFirst<T>(ts: seq<T>, more: seq<T>, rest: seq<T>)
    requires |ts| >= 2 && ts[2..] == more + rest
    ensures ts == [ts[0], ts[1]] + more + rest
  {
  }

  // ---------------------------------------------------------------- sentences

  // A pipeline, any number of & after it, and perhaps ; and another line.
  datatype LineT = LineT(first: PipeT, amps: nat, more: MoreT)
  datatype MoreT = Done | Then(line: LineT)
  datatype PipeT = Single(cmd: CommandT) | Into(cmd: CommandT, rest: PipeT)
  datatype CommandT = Plain(ts: seq<Token>) | Paren(line: LineT, reds: seq<Token>)

  predicate LineFits(l: LineT) { PipeFits(l.first) && MoreFits(l.more) }

  predicate MoreFits(m: MoreT) { m.Then? ==> LineFits(m.line) }

  predicate PipeFits(p: PipeT) { CommandFits(p.cmd) && (p.Into? ==> PipeFits(p.rest)) }

  predicate CommandFits(c: CommandT) {
    match c
    case Plain(ts) => Simple(ts) && |Args(ts)| < MAXARGS
    case Paren(line, reds) => LineFits(line) && Simple(reds) && Args(reds) == []
  }

  // The tokens.
  function LineToks(l: LineT): (ts: seq<Token>) { PipeToks(l.first) + (Amps(l.amps) + MoreToks(l.more)) }

  function Amps(n: nat): (ts: seq<Token>)
    ensures |ts| == n && forall k :: 0 <= k < n ==> ts[k] == Sym('&')
  {
    if n == 0 then [] else [Sym('&')] + Amps(n - 1)
  }

  function MoreToks(m: MoreT): (ts: seq<Token>) { if m.Done? then [] else [Sym(';')] + LineToks(m.line) }

  function PipeToks(p: PipeT): (ts: seq<Token>) {
    if p.Single? then CommandToks(p.cmd) else CommandToks(p.cmd) + ([Sym('|')] + PipeToks(p.rest))
  }

  function CommandToks(c: CommandT): (ts: seq<Token>) {
    match c
    case Plain(ts) => ts
    case Paren(line, reds) => [Sym('(')] + LineToks(line) + [Sym(')')] + reds
  }

  // The trees.
  function LineTree(l: LineT): (c: Cmd) {
    var c := Backs(PipeTree(l.first), l.amps);
    if l.more.Done? then c else List(c, LineTree(l.more.line))
  }

  function Backs(c: Cmd, n: nat): (d: Cmd)
    decreases n
  {
    if n == 0 then c else Back(Backs(c, n - 1))
  }

  function PipeTree(p: PipeT): (c: Cmd) {
    if p.Single? then CommandTree(p.cmd) else Pipe(CommandTree(p.cmd), PipeTree(p.rest))
  }

  function CommandTree(c: CommandT): (d: Cmd) {
    match c
    case Plain(ts) => Wrap(Exec(Args(ts)), Reds(ts))
    case Paren(line, reds) => Wrap(LineTree(line), Reds(reds))
  }

  // ---------------------------------------------------------------- every sentence parses

  lemma {:induction false} LineParses(l: LineT, rest: seq<Token>)
    requires LineFits(l) && EndsLine(rest)
    ensures Line(LineToks(l) + rest) == Ok(LineTree(l), rest)
    decreases l, 1
  {
    hide Line, Tail, Pipes, PipeToks, PipeTree, PipeFits;
    var c, m := PipeTree(l.first), MoreToks(l.more) + rest;
    var after := Amps(l.amps) + m;
    assert LineToks(l) + rest == PipeToks(l.first) + after;
    PipeParses(l.first, after);
    LineGoesOn(PipeToks(l.first) + after, c, after);
    AmpsParse(c, l.amps, m);
    if l.more.Done? {
      assert m == rest;
      TailDone(Backs(c, l.amps), rest);
    } else {
      LineParses(l.more.line, rest);
      TailThen(Backs(c, l.amps), LineToks(l.more.line) + rest);
      assert m == [Sym(';')] + (LineToks(l.more.line) + rest);
    }
  }

  lemma LineGoesOn(ts: seq<Token>, c: Cmd, rest: seq<Token>)
    requires Pipes(ts) == Ok(c, rest)
    ensures Line(ts) == Tail(c, rest)
  {
  }

  lemma TailDone(c: Cmd, rest: seq<Token>)
    requires EndsLine(rest)
    ensures Tail(c, rest) == Ok(c, rest)
  {
  }

  lemma TailThen(c: Cmd, ts: seq<Token>)
    requires Line(ts).Ok?
    ensures Tail(c, [Sym(';')] + ts) == Ok(List(c, Line(ts).value), Line(ts).rest)
  {
    assert ([Sym(';')] + ts)[1..] == ts;
  }

  lemma {:induction false} AmpsParse(c: Cmd, n: nat, ts: seq<Token>)
    ensures Tail(c, Amps(n) + ts) == Tail(Backs(c, n), ts)
    decreases n
  {
    var us := Amps(n) + ts;
    if n == 0 {
      assert us == ts;
    } else {
      assert us == [Sym('&')] + (Amps(n - 1) + ts) && us[1..] == Amps(n - 1) + ts;
      AmpsParse(Back(c), n - 1, ts);
      BacksIn(c, n - 1);
    }
  }

  lemma {:induction false} BacksIn(c: Cmd, n: nat)
    ensures Backs(Back(c), n) == Back(Backs(c, n))
  {
    if n > 0 {
      BacksIn(c, n - 1);
    }
  }

  lemma {:induction false} PipeParses(p: PipeT, rest: seq<Token>)
    requires PipeFits(p) && EndsPipes(rest)
    ensures Pipes(PipeToks(p) + rest) == Ok(PipeTree(p), rest)
    decreases p, 1
  {
    if p.Single? {
      CommandParses(p.cmd, rest);
    } else {
      var after := [Sym('|')] + (PipeToks(p.rest) + rest);
      assert PipeToks(p) + rest == CommandToks(p.cmd) + after;
      CommandParses(p.cmd, after);
      PipeParses(p.rest, rest);
      assert after[1..] == PipeToks(p.rest) + rest;
    }
  }

  lemma PlainParses(ts: seq<Token>, rest: seq<Token>)
    requires Simple(ts) && |Args(ts)| < MAXARGS && Ends(rest)
    ensures Command(ts + rest) == Ok(Wrap(Exec(Args(ts)), Reds(ts)), rest)
  {
    if ts == [] {
      assert ts + rest == rest;
    } else {
      assert Follows(ts, 0) && (ts + rest)[0] == ts[0];
    }
    hide Args, Reds, Simple, Command, Wrap;
    CommandIs(ts, rest);
  }

  lemma ParenParses(inside: seq<Token>, tree: Cmd, reds: seq<Token>, rs: seq<Redirection>, rest: seq<Token>)
    requires Line(inside + ([Sym(')')] + (reds + rest))) == Ok(tree, [Sym(')')] + (reds + rest)) && Redirs(reds + rest) == Ok(rs, rest)
    ensures Command([Sym('(')] + inside + [Sym(')')] + reds + rest) == Ok(Wrap(tree, rs), rest)
  {
    hide *;
    Parenthesised(tree, inside, reds + rest);
    assert [Sym('(')] + inside + [Sym(')')] + reds + rest == [Sym('(')] + inside + [Sym(')')] + (reds + rest);
  }

  lemma {:induction false} CommandParses(c: CommandT, rest: seq<Token>)
    requires CommandFits(c) && Ends(rest)
    ensures Command(CommandToks(c) + rest) == Ok(CommandTree(c), rest)
    decreases c, 1
  {
    match c
    case Plain(ts) =>
      PlainParses(ts, rest);
    case Paren(line, reds) =>
      LineParses(line, [Sym(')')] + (reds + rest));
      RedirsAre(reds, rest);
      hide Line, LineToks, LineTree, LineFits, Simple, Args, Reds, Redirs, Command;
      ParenParses(LineToks(line), LineTree(line), reds, Reds(reds), rest);
  }

  // ---------------------------------------------------------------- nothing else does

  lemma {:induction false} LineFrom(ts: seq<Token>) returns (l: LineT)
    requires Line(ts).Ok?
    ensures LineFits(l) && ts == LineToks(l) + Line(ts).rest && Line(ts).value == LineTree(l)
    decreases |ts|, 3
  {
    var p := PipeFrom(ts);
    var c, after := Pipes(ts).value, Pipes(ts).rest;
    var n, m := TailFrom(c, after);
    l := LineT(p, n, m);
    assert PipeToks(p) + (Amps(n) + (MoreToks(m) + Line(ts).rest)) == LineToks(l) + Line(ts).rest;
  }

  lemma {:induction false} TailFrom(c: Cmd, ts: seq<Token>) returns (n: nat, m: MoreT)
    requires Tail(c, ts).Ok?
    ensures MoreFits(m) && ts == Amps(n) + (MoreToks(m) + Tail(c, ts).rest)
    ensures Tail(c, ts).value == if m.Done? then Backs(c, n) else List(Backs(c, n), LineTree(m.line))
    decreases |ts|, 0
  {
    n, m := 0, Done;
    if At(ts, '&') {
      n, m := TailFrom(Back(c), ts[1..]);
      BacksIn(c, n);
      n := n + 1;
      AmpMore(ts, n, MoreToks(m) + Tail(c, ts).rest);
    } else if At(ts, ';') {
      var l := LineFrom(ts[1..]);
      m := Then(l);
      hide LineToks, LineTree, LineFits, Line;
      assert ts == [] + (([Sym(';')] + LineToks(l)) + Line(ts[1..]).rest);
    }
  }

  lemma AmpMore(ts: seq<Token>, n: nat, rest: seq<Token>)
    requires At(ts, '&') && n > 0 && ts[1..] == Amps(n - 1) + rest
    ensures ts == Amps(n) + rest
  {
    assert ts == [Sym('&')] + (Amps(n - 1) + rest);
  }

  lemma {:induction false} PipeFrom(ts: seq<Token>) returns (p: PipeT)
    requires Pipes(ts).Ok?
    ensures PipeFits(p) && ts == PipeToks(p) + Pipes(ts).rest && Pipes(ts).value == PipeTree(p)
    decreases |ts|, 2
  {
    var c := CommandFrom(ts);
    var after := Command(ts).rest;
    p := Single(c);
    if At(after, '|') {
      var q := PipeFrom(after[1..]);
      p := Into(c, q);
      assert after == [Sym('|')] + (PipeToks(q) + Pipes(ts).rest);
    }
  }

  lemma {:induction false} CommandFrom(ts: seq<Token>) returns (c: CommandT)
    requires Command(ts).Ok?
    ensures CommandFits(c) && ts == CommandToks(c) + Command(ts).rest && Command(ts).value == CommandTree(c)
    decreases |ts|, 1
  {
    if At(ts, '(') {
      var l := LineFrom(ts[1..]);
      var after := Line(ts[1..]).rest;
      hide LineToks, LineTree, LineFits, Line, Simple, Args, Reds;
      var reds := RedirsSplit(after[1..]);
      c := Paren(l, reds);
      BlockIs(ts, LineTree(l), after);
      BlockToks(ts, l, after, reds, Redirs(after[1..]).rest);
    } else {
      c := PlainFrom(ts);
    }
  }

  lemma BlockToks(ts: seq<Token>, l: LineT, after: seq<Token>, reds: seq<Token>, rest: seq<Token>)
    requires At(ts, '(') && ts[1..] == LineToks(l) + after && At(after, ')') && after[1..] == reds + rest
    ensures ts == CommandToks(Paren(l, reds)) + rest
  {
    hide LineToks;
    assert ts == [Sym('(')] + (LineToks(l) + ([Sym(')')] + (reds + rest)));
  }

  lemma PlainFrom(ts: seq<Token>) returns (c: CommandT)
    requires Command(ts).Ok? && !At(ts, '(')
    ensures CommandFits(c) && ts == CommandToks(c) + Command(ts).rest && Command(ts).value == CommandTree(c)
  {
    hide Command, Simple, Args, Reds, Wrap;
    var body, rest := Split(ts);
    CommandIs(body, rest);
    c := Plain(body);
  }

  ghost predicate Sentence(ts: seq<Token>, c: Cmd) {
    exists l :: LineFits(l) && LineToks(l) == ts && LineTree(l) == c
  }

  // The parser takes exactly the sentences, and gives each its tree.
  lemma WholeIff(ts: seq<Token>, c: Cmd)
    ensures Whole(ts) == Ok(c, []) <==> Sentence(ts, c)
  {
    if l :| LineFits(l) && LineToks(l) == ts && LineTree(l) == c {
      LineParses(l, []);
      assert ts + [] == ts;
    }
    if Whole(ts) == Ok(c, []) {
      var l := LineFrom(ts);
      assert LineToks(l) + [] == LineToks(l);
    }
  }

  // No token sequence stands for two trees.
  lemma Unambiguous(ts: seq<Token>, c: Cmd, d: Cmd)
    requires Sentence(ts, c) && Sentence(ts, d)
    ensures c == d
  {
    WholeIff(ts, c);
    WholeIff(ts, d);
  }
}
