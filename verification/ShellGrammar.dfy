/** The command language of user/sh.c: its tokens, and the recursive descent of
    parseline, parsepipe, parseexec, parseblock and parseredirs as functions from
    a position in the line to a command and the position reached. A line holds
    no NUL; one follows it, as in the buffer. */
module ShellGrammar {
  const NUL: char := '\0'
  const WHITESPACE := " \t\r\n\U{0B}"
  const SYMBOLS := "<|>&;()"
  const MAX_ARGS := 256

  /** A word of the line, from q up to eq. */
  datatype Word = Word(q: nat, eq: nat)

  datatype Mode = Read | Write | Append

  datatype Redirection = Redirection(file: Word, mode: Mode)

  datatype Cmd =
    | Exec(args: seq<Word>)
    | Redir(cmd: Cmd, r: Redirection)
    | Pipe(left: Cmd, right: Cmd)
    | List(left: Cmd, right: Cmd)
    | Back(cmd: Cmd)

  /** A panic ends the shell's child; nothing is parsed then. */
  datatype Result<T> = Ok(value: T, next: nat) | Panic

  predicate IsLine(t: string) {
    NUL !in t
  }

  predicate White(c: char) {
    c in WHITESPACE
  }

  predicate Symbol(c: char) {
    c in SYMBOLS
  }

  predicate Plain(c: char) {
    c != NUL && !White(c) && !Symbol(c)
  }

  function CharAt(t: string, i: nat): char {
    if i < |t| then t[i] else NUL
  }

  function Skip(t: string, i: nat): (j: nat)
    requires i <= |t|
    ensures i <= j <= |t| && (j < |t| ==> !White(t[j]))
    ensures i < |t| && !White(t[i]) ==> j == i
    decreases |t| - i
  {
    if i < |t| && White(t[i]) then Skip(t, i + 1) else i
  }

  function WordEnd(t: string, i: nat): (j: nat)
    requires i <= |t|
    ensures i <= j <= |t| && (j < |t| ==> !Plain(t[j])) && forall k :: i <= k < j ==> Plain(t[k])
    decreases |t| - i
  {
    if i < |t| && Plain(t[i]) then WordEnd(t, i + 1) else i
  }

  datatype Token = Token(kind: char, q: nat, eq: nat, next: nat)

  /** gettoken: kind is 0 at the end, a symbol itself, '+' for >>, 'a' for a word. */
  function GetToken(t: string, i: nat): (k: Token)
    requires IsLine(t) && i <= |t|
    ensures i <= k.q <= k.eq <= k.next <= |t|
    ensures k.kind != NUL ==> k.q < k.eq
    ensures k.kind == 'a' ==> IsWord(t, Word(k.q, k.eq))
  {
    var s := Skip(t, i);
    var c := CharAt(t, s);
    if c == NUL then Token(c, s, s, Skip(t, s))
    else if c == '>' then
      if CharAt(t, s + 1) == '>' then Token('+', s, s + 2, Skip(t, s + 2)) else Token(c, s, s + 1, Skip(t, s + 1))
    else if Symbol(c) then Token(c, s, s + 1, Skip(t, s + 1))
    else
      var e := WordEnd(t, s);
      Token('a', s, e, Skip(t, e))
  }

  /** A word of the line is a longest run of plain characters from its start. */
  ghost predicate IsWord(t: string, w: Word) {
    w.q < w.eq <= |t| && (forall k :: w.q <= k < w.eq ==> Plain(t[k])) && (w.eq < |t| ==> !Plain(t[w.eq]))
  }

  ghost predicate AreWords(t: string, ws: seq<Word>) {
    forall i :: 0 <= i < |ws| ==> IsWord(t, ws[i])
  }

  ghost predicate AreRedirs(t: string, rs: seq<Redirection>) {
    forall i :: 0 <= i < |rs| ==> IsWord(t, rs[i].file)
  }

  /** All arguments and file names of the command are words of the line. */
  ghost predicate OfWords(t: string, cmd: Cmd) {
    match cmd
    case Exec(args) => AreWords(t, args)
    case Redir(c, r) => OfWords(t, c) && IsWord(t, r.file)
    case Pipe(l, r) => OfWords(t, l) && OfWords(t, r)
    case List(l, r) => OfWords(t, l) && OfWords(t, r)
    case Back(c) => OfWords(t, c)
  }

  function Peek(t: string, i: nat, toks: string): bool
    requires i <= |t|
  {
    var c := CharAt(t, Skip(t, i));
    c != NUL && c in toks
  }

  function ModeOf(kind: char): Mode {
    if kind == '<' then Read else if kind == '>' then Write else Append
  }

  /** parseredirs, with the redirections already seen. */
  function ParseRedirs(t: string, i: nat, rs: seq<Redirection>): (r: Result<seq<Redirection>>)
    requires IsLine(t) && i <= |t|
    ensures r.Ok? ==> i <= r.next <= |t|
    ensures r.Ok? && AreRedirs(t, rs) ==> AreRedirs(t, r.value)
    decreases |t| - i
  {
    var s := Skip(t, i);
    if !Peek(t, i, "<>") then Ok(rs, s)
    else
      var k := GetToken(t, s);
      var w := GetToken(t, k.next);
      if w.kind != 'a' then Panic
      else ParseRedirs(t, w.next, rs + [Redirection(Word(w.q, w.eq), ModeOf(k.kind))])
  }

  /** redircmd around cmd, the last one outermost. */
  function Wrap(cmd: Cmd, rs: seq<Redirection>): (r: Cmd)
    ensures forall t :: OfWords(t, cmd) && AreRedirs(t, rs) ==> OfWords(t, r)
  {
    if rs == [] then cmd else Redir(Wrap(cmd, rs[..|rs| - 1]), rs[|rs| - 1])
  }

  /** parseexec's loop, with the arguments and redirections already seen. */
  function ParseArgs(t: string, i: nat, args: seq<Word>, rs: seq<Redirection>): (r: Result<Cmd>)
    requires IsLine(t) && i <= |t|
    ensures r.Ok? ==> i <= r.next <= |t|
    ensures r.Ok? && AreWords(t, args) && AreRedirs(t, rs) ==> OfWords(t, r.value)
    decreases |t| - i
  {
    var s := Skip(t, i);
    if Peek(t, i, "|)&;") then Ok(Wrap(Exec(args), rs), s)
    else
      var k := GetToken(t, s);
      if k.kind == NUL then Ok(Wrap(Exec(args), rs), k.next)
      else if k.kind != 'a' then Panic
      else if |args| + 1 >= MAX_ARGS then Panic
      else
        var x := ParseRedirs(t, k.next, rs);
        if x.Panic? then Panic else ParseArgs(t, x.next, args + [Word(k.q, k.eq)], x.value)
  }

  function ParseExec(t: string, i: nat): (r: Result<Cmd>)
    requires IsLine(t) && i <= |t|
    ensures r.Ok? ==> i <= r.next <= |t| && OfWords(t, r.value)
    decreases |t| - i, 1
  {
    var s := Skip(t, i);
    if Peek(t, i, "(") then ParseBlock(t, s)
    else
      var x := ParseRedirs(t, s, []);
      if x.Panic? then Panic else ParseArgs(t, x.next, [], x.value)
  }

  function ParseBlock(t: string, i: nat): (r: Result<Cmd>)
    requires IsLine(t) && i <= |t|
    ensures r.Ok? ==> i <= r.next <= |t| && OfWords(t, r.value)
    decreases |t| - i, 0
  {
    var s := Skip(t, i);
    if !Peek(t, i, "(") then Panic
    else
      var x := ParseLine(t, GetToken(t, s).next);
      if x.Panic? || !Peek(t, x.next, ")") then Panic
      else
        var y := ParseRedirs(t, GetToken(t, Skip(t, x.next)).next, []);
        if y.Panic? then Panic else Ok(Wrap(x.value, y.value), y.next)
  }

  function ParsePipe(t: string, i: nat): (r: Result<Cmd>)
    requires IsLine(t) && i <= |t|
    ensures r.Ok? ==> i <= r.next <= |t| && OfWords(t, r.value)
    decreases |t| - i, 2
  {
    var x := ParseExec(t, i);
    if x.Panic? then Panic
    else if !Peek(t, x.next, "|") then Ok(x.value, Skip(t, x.next))
    else
      var y := ParsePipe(t, GetToken(t, Skip(t, x.next)).next);
      if y.Panic? then Panic else Ok(Pipe(x.value, y.value), y.next)
  }

  /** The & after a pipeline. */
  function ParseBacks(t: string, i: nat, cmd: Cmd): (r: Result<Cmd>)
    requires IsLine(t) && i <= |t|
    ensures r.Ok? && i <= r.next <= |t|
    ensures OfWords(t, cmd) ==> OfWords(t, r.value)
    decreases |t| - i
  {
    if Peek(t, i, "&") then ParseBacks(t, GetToken(t, Skip(t, i)).next, Back(cmd)) else Ok(cmd, Skip(t, i))
  }

  function ParseLine(t: string, i: nat): (r: Result<Cmd>)
    requires IsLine(t) && i <= |t|
    ensures r.Ok? ==> i <= r.next <= |t| && OfWords(t, r.value)
    decreases |t| - i, 3
  {
    var x := ParsePipe(t, i);
    if x.Panic? then Panic
    else
      var b := ParseBacks(t, x.next, x.value);
      if !Peek(t, b.next, ";") then Ok(b.value, Skip(t, b.next))
      else
        var y := ParseLine(t, GetToken(t, Skip(t, b.next)).next);
        if y.Panic? then Panic else Ok(List(b.value, y.value), y.next)
  }

  /** parsecmd, before nulterminate. */
  function ParseCmd(t: string): (r: Result<Cmd>)
    requires IsLine(t)
    ensures r.Ok? ==> OfWords(t, r.value)
  {
    var x := ParseLine(t, 0);
    if x.Panic? || Skip(t, x.next) != |t| then Panic else Ok(x.value, |t|)
  }
}
