/**
 The shell's command language: tokens, the grammar on tokens, and a printer.  That parsing what was
 printed gives the tree back is in ShellRoundTrip, and the parser that works on text in ShellParser.
 */
module ShellGrammar {

  const MAXARGS: nat := 10
  const O_RDONLY: int := 0
  const O_WRONLY_CREATE: int := 0x201

  datatype Cmd =
    | Exec(argv: seq<string>)
    | Redir(cmd: Cmd, file: string, mode: int, fd: int)
    | Pipe(left: Cmd, right: Cmd)
    | List(left: Cmd, right: Cmd)
    | Back(cmd: Cmd)

  // ---------------------------------------------------------------- tokens

  datatype Token = Word(s: string) | Sym(c: char) | Append   // Append is >>

  predicate Space(c: char) { c == ' ' || c == '\t' || c == '\r' || c == '\n' || c == 11 as char }
  predicate Symbol(c: char) { c == '<' || c == '|' || c == '>' || c == '&' || c == ';' || c == '(' || c == ')' }

  // The longest prefix that is one word.
  function WordLen(s: string): (n: nat)
    ensures n <= |s| && (forall i :: 0 <= i < n ==> !Space(s[i]) && !Symbol(s[i]))
    ensures n < |s| ==> Space(s[n]) || Symbol(s[n])
  {
    if s == [] || Space(s[0]) || Symbol(s[0]) then 0 else 1 + WordLen(s[1..])
  }

  function Lex(s: string): (ts: seq<Token>)
    decreases |s|
  {
    if s == [] then []
    else if Space(s[0]) then Lex(s[1..])
    else if s[0] == '>' && |s| > 1 && s[1] == '>' then [Append] + Lex(s[2..])
    else if Symbol(s[0]) then [Sym(s[0])] + Lex(s[1..])
    else [Word(s[..WordLen(s)])] + Lex(s[WordLen(s)..])
  }

  // ---------------------------------------------------------------- grammar

  datatype Panic = Leftovers | MissingFile | MissingParen | TooManyArgs | Syntax
  datatype Parse<T> = Ok(value: T, rest: seq<Token>) | Fail(why: Panic)

  datatype Redirection = Redirection(file: string, mode: int, fd: int)

  predicate At(ts: seq<Token>, c: char) { |ts| > 0 && ts[0] == Sym(c) }
  predicate AtRedir(ts: seq<Token>) { |ts| > 0 && (ts[0] == Sym('<') || ts[0] == Sym('>') || ts[0] == Append) }

  // Where the arguments of a command end.
  predicate Ends(ts: seq<Token>) { ts == [] || At(ts, '|') || At(ts, ')') || At(ts, '&') || At(ts, ';') }

  function Redirect(op: Token, file: string): (r: Redirection) {
    if op == Sym('<') then Redirection(file, O_RDONLY, 0) else Redirection(file, O_WRONLY_CREATE, 1)
  }

  // cmd with these redirections around it, the first innermost.
  function Wrap(cmd: Cmd, rs: seq<Redirection>): (c: Cmd) {
    if rs == [] then cmd
    else var r := rs[|rs| - 1]; Redir(Wrap(cmd, rs[..|rs| - 1]), r.file, r.mode, r.fd)
  }

  function Redirs(ts: seq<Token>): (r: Parse<seq<Redirection>>)
    ensures r.Ok? ==> |r.rest| <= |ts| && !AtRedir(r.rest)
    decreases |ts|
  {
    if !AtRedir(ts) then Ok([], ts)
    else if |ts| < 2 || !ts[1].Word? then Fail(MissingFile)
    else
      match Redirs(ts[2..])
      case Fail(why) => Fail(why)
      case Ok(rs, rest) => Ok([Redirect(ts[0], ts[1].s)] + rs, rest)
  }

  // Arguments and redirections in any order, after those already seen.
  function Items(argv: seq<string>, rs: seq<Redirection>, ts: seq<Token>): (r: Parse<Cmd>)
    ensures r.Ok? ==> |r.rest| <= |ts|
    decreases |ts|, 1
  {
    match Redirs(ts)
    case Fail(why) => Fail(why)
    case Ok(more, rest) => Argument(argv, rs + more, rest)
  }

  function Argument(argv: seq<string>, rs: seq<Redirection>, ts: seq<Token>): (r: Parse<Cmd>)
    ensures r.Ok? ==> |r.rest| <= |ts|
    decreases |ts|, 0
  {
    if Ends(ts) then Ok(Wrap(Exec(argv), rs), ts)
    else if !ts[0].Word? then Fail(Syntax)
    else if |argv| + 1 >= MAXARGS then Fail(TooManyArgs)
    else Items(argv + [ts[0].s], rs, ts[1..])
  }

  function Line(ts: seq<Token>): (r: Parse<Cmd>)
    ensures r.Ok? ==> |r.rest| <= |ts|
    decreases |ts|, 3
  {
    match Pipes(ts)
    case Fail(why) => Fail(why)
    case Ok(c, rest) => Tail(c, rest)
  }

  // What may follow a pipeline: any number of &, then ; and another line.
  function Tail(cmd: Cmd, ts: seq<Token>): (r: Parse<Cmd>)
    ensures r.Ok? ==> |r.rest| <= |ts|
    decreases |ts|, 0
  {
    if At(ts, '&') then Tail(Back(cmd), ts[1..])
    else if At(ts, ';') then
      match Line(ts[1..])
      case Fail(why) => Fail(why)
      case Ok(c, rest) => Ok(List(cmd, c), rest)
    else Ok(cmd, ts)
  }

  function Pipes(ts: seq<Token>): (r: Parse<Cmd>)
    ensures r.Ok? ==> |r.rest| <= |ts|
    decreases |ts|, 2
  {
    match Command(ts)
    case Fail(why) => Fail(why)
    case Ok(c, rest) =>
      if At(rest, '|') then
        match Pipes(rest[1..])
        case Fail(why) => Fail(why)
        case Ok(d, rest2) => Ok(Pipe(c, d), rest2)
      else Ok(c, rest)
  }

  function Command(ts: seq<Token>): (r: Parse<Cmd>)
    ensures r.Ok? ==> |r.rest| <= |ts|
    decreases |ts|, 1
  {
    if At(ts, '(') then Block(ts) else Items([], [], ts)
  }

  function Block(ts: seq<Token>): (r: Parse<Cmd>)
    requires At(ts, '(')
    ensures r.Ok? ==> |r.rest| <= |ts|
    decreases |ts|, 0
  {
    match Line(ts[1..])
    case Fail(why) => Fail(why)
    case Ok(c, rest) =>
      if !At(rest, ')') then Fail(MissingParen)
      else
        match Redirs(rest[1..])
        case Fail(why) => Fail(why)
        case Ok(rs, rest2) => Ok(Wrap(c, rs), rest2)
  }

  function Whole(ts: seq<Token>): (r: Parse<Cmd>) {
    match Line(ts)
    case Fail(why) => Fail(why)
    case Ok(c, rest) => if rest == [] then Ok(c, []) else Fail(Leftovers)
  }

  // ---------------------------------------------------------------- trees and how to print them

  predicate WordOk(s: string) {
    s != [] && forall i :: 0 <= i < |s| ==> !Space(s[i]) && !Symbol(s[i]) && s[i] != '\0'
  }

  predicate ModeOk(mode: int, fd: int) { (mode == O_RDONLY && fd == 0) || (mode == O_WRONLY_CREATE && fd == 1) }

  // Argument counts and redirection modes.
  predicate Shaped(c: Cmd) {
    match c
    case Exec(argv) => |argv| < MAXARGS
    case Redir(d, _, mode, fd) => Shaped(d) && ModeOk(mode, fd)
    case Pipe(l, r) => Shaped(l) && Shaped(r)
    case List(l, r) => Shaped(l) && Shaped(r)
    case Back(d) => Shaped(d)
  }

  // The words in it.
  predicate Spelled(c: Cmd) {
    match c
    case Exec(argv) => forall i :: 0 <= i < |argv| ==> WordOk(argv[i])
    case Redir(d, file, _, _) => Spelled(d) && WordOk(file)
    case Pipe(l, r) => Spelled(l) && Spelled(r)
    case List(l, r) => Spelled(l) && Spelled(r)
    case Back(d) => Spelled(d)
  }

  predicate Legal(c: Cmd) { Shaped(c) && Spelled(c) }

  function Words(argv: seq<string>): (ts: seq<Token>)
    ensures |ts| == |argv| && forall i :: 0 <= i < |ts| ==> ts[i] == Word(argv[i])
  {
    seq(|argv|, i requires 0 <= i < |argv| => Word(argv[i]))
  }

  function RedirToks(file: string, mode: int): (ts: seq<Token>) {
    [Sym(if mode == O_RDONLY then '<' else '>'), Word(file)]
  }

  // A compound command without parentheses round it.
  function Inside(c: Cmd): (ts: seq<Token>)
    decreases c, 0
  {
    match c
    case List(l, r) => ShowBacks(l) + [Sym(';')] + ShowLine(r)
    case Back(d) => ShowBacks(d) + [Sym('&')]
    case Pipe(l, r) => ShowCommand(l) + [Sym('|')] + ShowPipes(r)
    case _ => []
  }

  function ShowLine(c: Cmd): (ts: seq<Token>)
    decreases c, 4
  {
    if c.List? then Inside(c) else ShowBacks(c)
  }

  function ShowBacks(c: Cmd): (ts: seq<Token>)
    decreases c, 3
  {
    if c.Back? then Inside(c) else ShowPipes(c)
  }

  function ShowPipes(c: Cmd): (ts: seq<Token>)
    decreases c, 2
  {
    if c.Pipe? then Inside(c) else ShowCommand(c)
  }

  function ShowCommand(c: Cmd): (ts: seq<Token>)
    decreases c, 1
  {
    match c
    case Exec(argv) => Words(argv)
    case Redir(d, file, mode, fd) => ShowCommand(d) + RedirToks(file, mode)
    case _ => [Sym('(')] + Inside(c) + [Sym(')')]
  }

  // Each token and a space after it.
  function Spell(t: Token): (s: string) {
    match t
    case Word(w) => w + " "
    case Sym(c) => [c] + " "
    case Append => ">> "
  }

  function Text(ts: seq<Token>): (s: string) {
    if ts == [] then [] else Spell(ts[0]) + Text(ts[1..])
  }

  function Print(c: Cmd): (s: string) { Text(ShowLine(c)) }

  // ---------------------------------------------------------------- printed text is read back as its tokens

  predicate TokenOk(t: Token) {
    match t
    case Word(w) => WordOk(w)
    case Sym(c) => Symbol(c)
    case Append => true
  }

  predicate TokensOk(ts: seq<Token>) { forall i :: 0 <= i < |ts| ==> TokenOk(ts[i]) }

  lemma {:induction false} WordLenIs(w: string, s: string)
    requires WordOk(w) || w == []
    requires s == [] || Space(s[0]) || Symbol(s[0])
    ensures WordLen(w + s) == |w|
  {
    if w == [] {
      assert w + s == s;
    } else {
      assert (w + s)[1..] == w[1..] + s;
      WordLenIs(w[1..], s);
    }
  }

  lemma LexSpace(s: string)
    ensures Lex(" " + s) == Lex(s)
  {
    assert (" " + s)[1..] == s;
  }

  lemma LexWord(w: string, s: string)
    requires WordOk(w)
    ensures Lex(w + (" " + s)) == [Word(w)] + Lex(s)
  {
    var u := w + (" " + s);
    WordLenIs(w, " " + s);
    assert u[..|w|] == w && u[|w|..] == " " + s;
    LexSpace(s);
  }

  lemma LexSymbol(c: char, s: string)
    requires Symbol(c)
    ensures Lex([c] + (" " + s)) == [Sym(c)] + Lex(s)
  {
    assert ([c] + (" " + s))[1..] == " " + s;
    LexSpace(s);
  }

  lemma LexAppend(s: string)
    ensures Lex(">>" + (" " + s)) == [Append] + Lex(s)
  {
    assert (">>" + (" " + s))[2..] == " " + s;
    LexSpace(s);
  }

  lemma LexOne(t: Token, s: string)
    requires TokenOk(t)
    ensures Lex(Spell(t) + s) == [t] + Lex(s)
  {
    match t
    case Word(w) =>
      LexWord(w, s);
      assert Spell(t) + s == w + (" " + s);
    case Sym(c) =>
      LexSymbol(c, s);
      assert Spell(t) + s == [c] + (" " + s);
    case Append =>
      LexAppend(s);
      assert Spell(t) + s == ">>" + (" " + s);
  }

  lemma {:induction false} LexText(ts: seq<Token>)
    requires TokensOk(ts)
    ensures Lex(Text(ts)) == ts
  {
    if ts != [] {
      LexText(ts[1..]);
      LexOne(ts[0], Text(ts[1..]));
    }
  }
}
