/**
 The parser of sh.c: a cursor that moves over the text, and one method for each of its
 functions.  Each is proved to do on text what the grammar says on tokens.
 */
module ShellParser {
  import opened ShellGrammar
  import ShellRoundTrip

  // What a parsing function comes back with; a panic ends the shell.
  datatype Outcome = Got(cmd: Cmd) | Panicked(why: Panic)

  ghost predicate Agrees(r: Outcome, p: Parse<Cmd>, left: seq<Token>) {
    match p
    case Fail(why) => r == Panicked(why)
    case Ok(c, rest) => r == Got(c) && left == rest
  }

  // What gettoken returns for a token.
  function Kind(t: Token): (k: char) {
    match t
    case Word(_) => 'a'
    case Sym(c) => c
    case Append => '+'
  }

  // The first character of a token.
  function First(t: Token): (c: char)
    requires TokenOk(t)
  {
    match t
    case Word(w) => w[0]
    case Sym(c) => c
    case Append => '>'
  }

  // With the blanks gone, the next character is that of the next token.
  lemma Head(s: string)
    requires '\0' !in s && (s == [] || !Space(s[0]))
    ensures s == [] <==> Lex(s) == []
    ensures s != [] ==> TokenOk(Lex(s)[0]) && First(Lex(s)[0]) == s[0]
  {
    ShellRoundTrip.LexOk(s);
  }

  // What the parser learns from peek.
  lemma Peeked(ts: seq<Token>)
    requires ts != [] && TokenOk(ts[0])
    ensures First(ts[0]) in "&" <==> At(ts, '&')
    ensures First(ts[0]) in ";" <==> At(ts, ';')
    ensures First(ts[0]) in "|" <==> At(ts, '|')
    ensures First(ts[0]) in "(" <==> At(ts, '(')
    ensures First(ts[0]) in ")" <==> At(ts, ')')
    ensures First(ts[0]) in "<>" <==> AtRedir(ts)
    ensures First(ts[0]) in "|)&;" <==> Ends(ts)
  {
  }

  lemma {:induction false} WrapMore(cmd: Cmd, r: Redirection, rs: seq<Redirection>)
    ensures Wrap(cmd, [r] + rs) == Wrap(Redir(cmd, r.file, r.mode, r.fd), rs)
  {
    if rs == [] {
      assert [r] + rs == [r] && [r][..0] == [];
    } else {
      WrapMore(cmd, r, rs[..|rs| - 1]);
      assert ([r] + rs)[..|[r] + rs| - 1] == [r] + rs[..|rs| - 1];
    }
  }

  // cmd and the redirections that follow.
  function Redirected(cmd: Cmd, ts: seq<Token>): (r: Parse<Cmd>) {
    match Redirs(ts)
    case Fail(why) => Fail(why)
    case Ok(rs, rest) => Ok(Wrap(cmd, rs), rest)
  }

  lemma RedirectedStep(cmd: Cmd, ts: seq<Token>)
    requires AtRedir(ts)
    ensures |ts| < 2 || !ts[1].Word? ==> Redirected(cmd, ts) == Fail(MissingFile)
    ensures |ts| >= 2 && ts[1].Word? ==>
      var r := Redirect(ts[0], ts[1].s); Redirected(cmd, ts) == Redirected(Redir(cmd, r.file, r.mode, r.fd), ts[2..])
  {
    if |ts| >= 2 && ts[1].Word? && Redirs(ts[2..]).Ok? {
      WrapMore(cmd, Redirect(ts[0], ts[1].s), Redirs(ts[2..]).value);
    }
  }

  // The exec node inside a redirected command is filled in while it is being wrapped.
  function WithArgs(c: Cmd, argv: seq<string>): (d: Cmd) {
    match c
    case Exec(_) => Exec(argv)
    case Redir(e, file, mode, fd) => Redir(WithArgs(e, argv), file, mode, fd)
    case _ => c
  }

  lemma {:induction false} WithArgsWrap(was: seq<string>, rs: seq<Redirection>, argv: seq<string>)
    ensures WithArgs(Wrap(Exec(was), rs), argv) == Wrap(Exec(argv), rs)
  {
    if rs != [] {
      WithArgsWrap(was, rs[..|rs| - 1], argv);
    }
  }

  lemma {:induction false} WrapTwice(c: Cmd, rs: seq<Redirection>, more: seq<Redirection>)
    ensures Wrap(Wrap(c, rs), more) == Wrap(c, rs + more)
  {
    if more == [] {
      assert rs + more == rs;
    } else {
      WrapTwice(c, rs, more[..|more| - 1]);
      assert (rs + more)[..|rs + more| - 1] == rs + more[..|more| - 1];
    }
  }

  // Redirections after a command, taken together with those before.
  lemma ItemsAre(argv: seq<string>, rs: seq<Redirection>, ts: seq<Token>)
    ensures match Redirected(Wrap(Exec(argv), rs), ts)
            case Fail(why) => Items(argv, rs, ts) == Fail(why)
            case Ok(c, rest) =>
              && Redirs(ts).Ok? && c == Wrap(Exec(argv), rs + Redirs(ts).value)
              && Items(argv, rs, ts) == Argument(argv, rs + Redirs(ts).value, rest)
  {
    if Redirs(ts).Ok? {
      WrapTwice(Exec(argv), rs, Redirs(ts).value);
    }
  }

  lemma SkipOne(text: string, k: nat)
    requires k < |text| && Space(text[k])
    ensures Lex(text[k..]) == Lex(text[k + 1..])
  {
    assert text[k..][1..] == text[k + 1..];
  }

  class Parser {
    const text: string
    var pos: nat

    ghost predicate Valid()
      reads this
    {
      pos <= |text| && '\0' !in text
    }

    // The tokens still to come.
    ghost function Left(): (ts: seq<Token>)
      reads this
      requires Valid()
    {
      Lex(text[pos..])
    }

    constructor (s: string)
      requires '\0' !in s
      ensures Valid() && text == s && pos == 0
    {
      text, pos := s, 0;
    }

    method SkipBlanks(from: nat) returns (s: nat)
      requires Valid() && from <= |text|
      ensures from <= s <= |text| && Lex(text[s..]) == Lex(text[from..]) && (s < |text| ==> !Space(text[s]))
    {
      s := from;
      while s < |text| && Space(text[s])
        invariant from <= s <= |text| && Lex(text[s..]) == Lex(text[from..])
      {
        SkipOne(text, s);
        s := s + 1;
      }
    }

    // The end of the word that starts at q.
    method WordEnd(q: nat) returns (s: nat)
      requires Valid() && q < |text| && !Space(text[q]) && !Symbol(text[q])
      ensures q < s <= |text| && Lex(text[q..]) == [Word(text[q..s])] + Lex(text[s..])
    {
      s := q;
      while s < |text| && !Space(text[s]) && !Symbol(text[s])
        invariant q <= s <= |text| && WordLen(text[q..]) == s - q + WordLen(text[s..])
      {
        assert text[s..][1..] == text[s + 1..];
        s := s + 1;
      }
      assert text[q..][..s - q] == text[q..s] && text[q..][s - q..] == text[s..];
    }

    /**
     The next token and, for a word, its text; 0 at the end.
     */
    method Gettoken() returns (tok: char, word: string)
      requires Valid()
      modifies this`pos
      ensures Valid()
      ensures old(Left()) == [] ==> tok == '\0' && Left() == []
      ensures old(Left()) != [] ==>
        tok == Kind(old(Left())[0]) && tok != '\0' && Left() == old(Left())[1..] && (tok == 'a' ==> old(Left())[0] == Word(word))
    {
      var q := SkipBlanks(pos);
      var s := q;
      Head(text[q..]);
      word := "";
      if q == |text| {
        tok := '\0';
      } else {
        tok := text[q];
        assert text[q..][0] == tok && tok in text;
        if tok == '>' {
          s := s + 1;
          assert text[q..][1..] == text[s..];
          if s < |text| && text[s] == '>' {
            tok := '+';
            s := s + 1;
            assert text[q..][2..] == text[s..];
          }
        } else if Symbol(tok) {
          s := s + 1;
          assert text[q..][1..] == text[s..];
        } else {
          tok := 'a';
          s := WordEnd(q);
          word := text[q..s];
        }
      }
      pos := SkipBlanks(s);
    }

    // Whether the next token starts with one of these characters.
    method Peek(toks: string) returns (b: bool)
      requires Valid()
      modifies this`pos
      ensures Valid() && Left() == old(Left()) && (Left() != [] ==> TokenOk(Left()[0]))
      ensures b <==> Left() != [] && First(Left()[0]) in toks
      ensures pos < |text| ==> !Space(text[pos])
    {
      pos := SkipBlanks(pos);
      Head(text[pos..]);
      b := pos < |text| && text[pos] in toks;
    }

    method Parseredirs(cmd: Cmd) returns (r: Outcome)
      requires Valid()
      modifies this`pos
      ensures Valid() && Agrees(r, Redirected(cmd, old(Left())), Left())
    {
      var c := cmd;
      var more := Peek("<>");
      while more
        invariant Valid() && (Left() != [] ==> TokenOk(Left()[0])) && (more <==> Left() != [] && First(Left()[0]) in "<>")
        invariant Redirected(cmd, old(Left())) == Redirected(c, Left())
        decreases |Left()|
      {
        Peeked(Left());
        RedirectedStep(c, Left());
        var tok, _ := Gettoken();
        var kind, file := Gettoken();
        if kind != 'a' {
          return Panicked(MissingFile);
        }
        if tok == '<' {
          c := Redir(c, file, O_RDONLY, 0);
        } else {
          c := Redir(c, file, O_WRONLY_CREATE, 1);
        }
        more := Peek("<>");
      }
      if Left() != [] {
        Peeked(Left());
      }
      return Got(c);
    }

    // Redirections after what has been read of a command.
    method MoreRedirs(ret: Cmd, argv: seq<string>, ghost rs: seq<Redirection>) returns (r: Outcome, ghost all: seq<Redirection>)
      requires Valid() && ret == Wrap(Exec(argv), rs)
      modifies this`pos
      ensures Valid()
      ensures r.Panicked? ==> Items(argv, rs, old(Left())) == Fail(r.why)
      ensures r.Got? ==> r.cmd == Wrap(Exec(argv), all) && |Left()| <= |old(Left())|
      ensures r.Got? ==> Items(argv, rs, old(Left())) == Argument(argv, all, Left())
    {
      ItemsAre(argv, rs, Left());
      all := if Redirs(Left()).Ok? then rs + Redirs(Left()).value else [];
      r := Parseredirs(ret);
    }

    method Parsewords() returns (r: Outcome)
      requires Valid()
      modifies this`pos
      ensures Valid() && Agrees(r, Items([], [], old(Left())), Left()) && (r.Got? ==> |Left()| <= |old(Left())|)
    {
      var argv: seq<string> := [];
      ghost var rs;
      r, rs := MoreRedirs(Exec([]), argv, []);
      if r.Panicked? {
        return;
      }
      var ret := r.cmd;
      while true
        invariant Valid() && |argv| < MAXARGS && ret == Wrap(Exec(argv), rs) && |Left()| <= |old(Left())|
        invariant Items([], [], old(Left())) == Argument(argv, rs, Left())
        decreases |Left()|
      {
        var stop := Peek("|)&;");
        if Left() != [] {
          Peeked(Left());
        }
        if stop {
          return Got(ret);
        }
        var tok, word := Gettoken();
        if tok == '\0' {
          return Got(ret);
        }
        if tok != 'a' {
          return Panicked(Syntax);
        }
        WithArgsWrap(argv, rs, argv + [word]);
        argv := argv + [word];
        ret := WithArgs(ret, argv);
        if |argv| >= MAXARGS {
          return Panicked(TooManyArgs);
        }
        r, rs := MoreRedirs(ret, argv, rs);
        if r.Panicked? {
          return;
        }
        ret := r.cmd;
      }
    }

    method Parseexec() returns (r: Outcome)
      requires Valid()
      modifies this`pos
      ensures Valid() && Agrees(r, Command(old(Left())), Left())
      decreases |Left()|, 1
    {
      var open := Peek("(");
      if Left() != [] {
        Peeked(Left());
      }
      if open {
        r := Parseblock();
      } else {
        r := Parsewords();
      }
    }

    method Parseblock() returns (r: Outcome)
      requires Valid() && At(Left(), '(')
      modifies this`pos
      ensures Valid() && Agrees(r, Block(old(Left())), Left())
      decreases |Left()|, 0
    {
      var _, _ := Gettoken();
      r := Parseline();
      if r.Panicked? {
        return;
      }
      var close := Peek(")");
      if Left() != [] {
        Peeked(Left());
      }
      if !close {
        return Panicked(MissingParen);
      }
      var _, _ := Gettoken();
      r := Parseredirs(r.cmd);
    }

    method Parsepipe() returns (r: Outcome)
      requires Valid()
      modifies this`pos
      ensures Valid() && Agrees(r, Pipes(old(Left())), Left())
      decreases |Left()|, 2
    {
      r := Parseexec();
      if r.Panicked? {
        return;
      }
      var bar := Peek("|");
      if Left() != [] {
        Peeked(Left());
      }
      if bar {
        var left := r.cmd;
        var _, _ := Gettoken();
        r := Parsepipe();
        if r.Got? {
          r := Got(Pipe(left, r.cmd));
        }
      }
    }

    method Parseline() returns (r: Outcome)
      requires Valid()
      modifies this`pos
      ensures Valid() && Agrees(r, Line(old(Left())), Left())
      decreases |Left()|, 3
    {
      r := Parsepipe();
      if r.Panicked? {
        return;
      }
      var cmd := r.cmd;
      var more := Peek("&");
      while more
        invariant Valid() && (Left() != [] ==> TokenOk(Left()[0])) && (more <==> Left() != [] && First(Left()[0]) in "&")
        invariant Line(old(Left())) == Tail(cmd, Left()) && |Left()| <= |old(Left())|
        decreases |Left()|
      {
        Peeked(Left());
        var _, _ := Gettoken();
        cmd := Back(cmd);
        more := Peek("&");
      }
      var semi := Peek(";");
      if Left() != [] {
        Peeked(Left());
      }
      if !semi {
        return Got(cmd);
      }
      var _, _ := Gettoken();
      r := Parseline();
      if r.Got? {
        r := Got(List(cmd, r.cmd));
      }
    }

    /**
     The tree of the whole text, or the panic that ends the shell: what the grammar says of its
     tokens.
     */
    method Parsecmd() returns (r: Outcome)
      requires Valid() && pos == 0
      modifies this`pos
      ensures Valid()
      ensures match Whole(Lex(text))
              case Fail(why) => r == Panicked(why)
              case Ok(c, _) => r == Got(c)
    {
      assert text[0..] == text;
      r := Parseline();
      if r.Got? {
        var _ := Peek("");
        Head(text[pos..]);
        if pos != |text| {
          r := Panicked(Leftovers);
        }
      }
    }
  }

  // The parser undoes the printer on every legal tree.
  method PrintThenParse(c: Cmd) returns (r: Outcome)
    requires Legal(c)
    ensures r == Got(c)
  {
    ShellRoundTrip.RoundTrip(c);
    var p := new Parser(Print(c));
    r := p.Parsecmd();
  }
}
