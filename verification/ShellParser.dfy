/** The parser of user/sh.c as it runs: it advances *ps through the buffer, and
    nulterminate then writes a NUL after every word, in place. */
module ShellParser {
  import opened Common
  import opened ShellGrammar
  import opened ShellSyntax

  /** The command names the word w. */
  predicate Names(cmd: Cmd, w: Word) {
    match cmd
    case Exec(args) => w in args
    case Redir(c, r) => Names(c, w) || r.file == w
    case Pipe(l, r) => Names(l, w) || Names(r, w)
    case List(l, r) => Names(l, w) || Names(r, w)
    case Back(c) => Names(c, w)
  }

  /** A C string: the characters up to the first NUL. */
  function CString(b: string, i: nat): string
    decreases |b| - i
  {
    if i >= |b| || b[i] == NUL then "" else [b[i]] + CString(b, i + 1)
  }

  /** b is the buffer t, NUL after each word that the command names. */
  ghost predicate Terminated(t: string, b: string, cmd: Cmd) {
    && |b| == |t| + 1 && (forall w :: Names(cmd, w) && w.eq < |b| ==> b[w.eq] == NUL)
    && (forall i :: 0 <= i < |t| && b[i] != t[i] ==> b[i] == NUL && exists w :: Names(cmd, w) && w.eq == i)
  }

  lemma {:induction false} NamedIsWord(t: string, cmd: Cmd, w: Word)
    requires OfWords(t, cmd) && Names(cmd, w)
    ensures IsWord(t, w)
  {
    match cmd
    case Exec(args) =>
    case Redir(c, r) => if r.file != w { NamedIsWord(t, c, w); }
    case Pipe(l, r) => if Names(l, w) { NamedIsWord(t, l, w); } else { NamedIsWord(t, r, w); }
    case List(l, r) => if Names(l, w) { NamedIsWord(t, l, w); } else { NamedIsWord(t, r, w); }
    case Back(c) => NamedIsWord(t, c, w);
  }

  /** No NUL falls into a word: where one word ends, no other goes on. */
  lemma WordUntouched(t: string, b: string, cmd: Cmd, w: Word, k: nat)
    requires OfWords(t, cmd) && Terminated(t, b, cmd) && IsWord(t, w) && w.q <= k < w.eq
    ensures b[k] == t[k] && b[k] != NUL
  {
    if b[k] != t[k] {
      var v :| Names(cmd, v) && v.eq == k;
      NamedIsWord(t, cmd, v);
    }
  }

  lemma {:induction false} ReadsFrom(t: string, b: string, cmd: Cmd, w: Word, k: nat)
    requires OfWords(t, cmd) && Terminated(t, b, cmd) && Names(cmd, w) && IsWord(t, w) && w.q <= k <= w.eq
    ensures CString(b, k) == t[k..w.eq]
    decreases w.eq - k
  {
    if k < w.eq {
      WordUntouched(t, b, cmd, w, k);
      ReadsFrom(t, b, cmd, w, k + 1);
    }
  }

  /** Every argument and file name, read as a C string, is exactly its word. */
  lemma ReadsWord(t: string, b: string, cmd: Cmd, w: Word)
    requires OfWords(t, cmd) && Terminated(t, b, cmd) && Names(cmd, w)
    ensures CString(b, w.q) == Text(t, w)
  {
    NamedIsWord(t, cmd, w);
    ReadsFrom(t, b, cmd, w, w.q);
  }

  /** The command as runcmd finds it: every word a C string in the buffer. */
  function Found(b: string, cmd: Cmd): Tree {
    match cmd
    case Exec(args) => TExec(CStrings(b, args))
    case Redir(c, r) => TRedir(Found(b, c), CString(b, r.file.q), r.mode)
    case Pipe(l, r) => TPipe(Found(b, l), Found(b, r))
    case List(l, r) => TList(Found(b, l), Found(b, r))
    case Back(c) => TBack(Found(b, c))
  }

  function CStrings(b: string, ws: seq<Word>): (r: seq<string>)
    ensures |r| == |ws| && forall i :: 0 <= i < |ws| ==> r[i] == CString(b, ws[i].q)
  {
    seq(|ws|, i requires 0 <= i < |ws| => CString(b, ws[i].q))
  }

  lemma {:induction false} FoundIs(t: string, b: string, cmd: Cmd)
    requires forall w :: Names(cmd, w) ==> CString(b, w.q) == Text(t, w)
    ensures Found(b, cmd) == Resolve(t, cmd)
    decreases cmd, 1
  {
    hide CString, Text;
    match cmd
    case Exec(args) =>
      forall i | 0 <= i < |args| ensures CString(b, args[i].q) == Text(t, args[i]) {
        assert Names(cmd, args[i]);
      }
      assert CStrings(b, args) == Texts(t, args);
    case Redir(c, r) =>
      assert Names(cmd, r.file);
      forall w | Names(c, w) ensures CString(b, w.q) == Text(t, w) {
        assert Names(cmd, w);
      }
      FoundIs(t, b, c);
    case Pipe(l, r) => BothFound(t, b, cmd, l, r);
    case List(l, r) => BothFound(t, b, cmd, l, r);
    case Back(c) =>
      forall w | Names(c, w) ensures CString(b, w.q) == Text(t, w) {
        assert Names(cmd, w);
      }
      FoundIs(t, b, c);
  }

  lemma {:induction false} BothFound(t: string, b: string, cmd: Cmd, l: Cmd, r: Cmd)
    requires (cmd == Pipe(l, r) || cmd == List(l, r)) && forall w :: Names(cmd, w) ==> CString(b, w.q) == Text(t, w)
    ensures Found(b, l) == Resolve(t, l) && Found(b, r) == Resolve(t, r)
    decreases cmd, 0
  {
    hide CString, Text;
    forall w | Names(l, w) || Names(r, w) ensures CString(b, w.q) == Text(t, w) {
      assert Names(cmd, w);
    }
    FoundIs(t, b, l);
    FoundIs(t, b, r);
  }

  lemma AllSaid(t: string)
    requires IsLine(t)
    ensures forall tree :: Says(t, tree) <==> ParseCmd(t).Ok? && Resolve(t, ParseCmd(t).value) == tree
  {
    hide Says, ParseCmd, Resolve;
    forall tree ensures Says(t, tree) <==> ParseCmd(t).Ok? && Resolve(t, ParseCmd(t).value) == tree {
      Language(t, tree);
    }
  }

  class Parser {
    const buf: array<char>
    var ps: nat

    ghost predicate Valid()
      reads this, buf
    {
      buf.Length > 0 && buf[buf.Length - 1] == NUL && IsLine(Line()) && ps < buf.Length
    }

    /** The line, up to es. */
    ghost function Line(): string
      requires buf.Length > 0
      reads buf
    {
      buf[..buf.Length - 1]
    }

    constructor (b: array<char>)
      requires b.Length > 0 && b[b.Length - 1] == NUL && IsLine(b[..b.Length - 1])
      ensures Valid() && buf == b && ps == 0
    {
      buf, ps := b, 0;
    }

    method SkipWhite(s0: nat) returns (s: nat)
      requires Valid() && s0 < buf.Length
      ensures s == Skip(Line(), s0)
    {
      s := s0;
      while s < buf.Length - 1 && White(buf[s])
        invariant s0 <= s < buf.Length && Skip(Line(), s) == Skip(Line(), s0)
      {
        s := s + 1;
      }
    }

    method NextToken() returns (tok: char, q: nat, eq: nat)
      requires Valid()
      modifies this`ps
      ensures Valid() && GetToken(Line(), old(ps)) == Token(tok, q, eq, ps)
    {
      ghost var t := Line();
      var s := SkipWhite(ps);
      assert buf[s] == CharAt(t, s);
      q := s;
      tok := buf[s];
      if tok == NUL {
      } else if tok == '>' {
        s := s + 1;
        assert buf[s] == CharAt(t, s);
        if buf[s] == '>' {
          tok := '+';
          s := s + 1;
        }
      } else if Symbol(tok) {
        s := s + 1;
      } else {
        tok := 'a';
        while s < buf.Length - 1 && Plain(buf[s])
          invariant q <= s < buf.Length && WordEnd(t, s) == WordEnd(t, q)
        {
          s := s + 1;
        }
      }
      eq := s;
      s := SkipWhite(s);
      ps := s;
    }

    method PeekFor(toks: string) returns (yes: bool)
      requires Valid()
      modifies this`ps
      ensures Valid() && ps == Skip(Line(), old(ps)) && yes == Peek(Line(), old(ps), toks)
    {
      ghost var t := Line();
      ps := SkipWhite(ps);
      assert buf[ps] == CharAt(t, ps);
      yes := buf[ps] != NUL && buf[ps] in toks;
    }

    /** The redirections found, appended to rs; none when the shell panics. */
    method Redirs(rs0: seq<Redirection>) returns (rs: Option<seq<Redirection>>)
      requires Valid()
      modifies this`ps
      ensures Valid() && Agrees(ParseRedirs(Line(), old(ps), rs0), rs, ps)
    {
      ghost var t := Line();
      var out := rs0;
      var more := PeekFor("<>");
      ghost var at := old(ps);
      while more
        invariant Valid() && at <= |t| && ps == Skip(t, at) && more == Peek(t, at, "<>")
        invariant ParseRedirs(t, at, out) == ParseRedirs(t, old(ps), rs0)
        decreases |t| - at
      {
        var tok, _, _ := NextToken();
        var w, q, eq := NextToken();
        if w != 'a' {
          return None;
        }
        out := out + [Redirection(Word(q, eq), ModeOf(tok))];
        at := ps;
        more := PeekFor("<>");
      }
      rs := Some(out);
    }

    /** parseexec's loop; the execcmd is built from what it fills in. */
    method Args(rs0: seq<Redirection>) returns (r: Option<Cmd>)
      requires Valid()
      modifies this`ps
      ensures Valid() && Agrees(ParseArgs(Line(), old(ps), [], rs0), r, ps)
    {
      ghost var t := Line();
      var args: seq<Word>, rs := [], rs0;
      ghost var at := ps;
      var stop := PeekFor("|)&;");
      while !stop
        invariant Valid() && at <= |t| && ps == Skip(t, at) && stop == Peek(t, at, "|)&;") && |args| < MAX_ARGS
        invariant ParseArgs(t, at, args, rs) == ParseArgs(t, old(ps), [], rs0)
        decreases |t| - at
      {
        var tok, q, eq := NextToken();
        if tok == NUL {
          break;
        }
        if tok != 'a' {
          return None;
        }
        if |args| + 1 >= MAX_ARGS {
          return None;
        }
        var x := Redirs(rs);
        if x.None? {
          return None;
        }
        args, rs := args + [Word(q, eq)], x.value;
        at := ps;
        stop := PeekFor("|)&;");
      }
      r := Some(Wrap(Exec(args), rs));
    }

    method ExecCmd() returns (r: Option<Cmd>)
      requires Valid()
      modifies this`ps
      ensures Valid() && Agrees(ParseExec(Line(), old(ps)), r, ps)
      decreases buf.Length - ps, 1
    {
      var paren := PeekFor("(");
      if paren {
        r := BlockCmd();
      } else {
        var rs := Redirs([]);
        if rs.None? {
          return None;
        }
        r := Args(rs.value);
      }
    }

    method BlockCmd() returns (r: Option<Cmd>)
      requires Valid()
      modifies this`ps
      ensures Valid() && Agrees(ParseBlock(Line(), old(ps)), r, ps)
      decreases buf.Length - ps, 0
    {
      var paren := PeekFor("(");
      if !paren {
        return None;
      }
      var _, _, _ := NextToken();
      r := LineCmd();
      if r.None? {
        return;
      }
      paren := PeekFor(")");
      if !paren {
        return None;
      }
      var _, _, _ := NextToken();
      var rs := Redirs([]);
      if rs.None? {
        return None;
      }
      r := Some(Wrap(r.value, rs.value));
    }

    method PipeCmd() returns (r: Option<Cmd>)
      requires Valid()
      modifies this`ps
      ensures Valid() && Agrees(ParsePipe(Line(), old(ps)), r, ps)
      decreases buf.Length - ps, 2
    {
      r := ExecCmd();
      if r.None? {
        return;
      }
      var bar := PeekFor("|");
      if bar {
        var _, _, _ := NextToken();
        var right := PipeCmd();
        r := if right.None? then None else Some(Pipe(r.value, right.value));
      }
    }

    method LineCmd() returns (r: Option<Cmd>)
      requires Valid()
      modifies this`ps
      ensures Valid() && Agrees(ParseLine(Line(), old(ps)), r, ps)
      decreases buf.Length - ps, 3
    {
      ghost var t := Line();
      r := PipeCmd();
      if r.None? {
        return;
      }
      var cmd := r.value;
      ghost var at, first := ps, ps;
      var amp := PeekFor("&");
      while amp
        invariant Valid() && old(ps) <= first <= at <= |t| && ps == Skip(t, at) && amp == Peek(t, at, "&")
        invariant ParseBacks(t, at, cmd) == ParseBacks(t, first, r.value)
        decreases |t| - at
      {
        var _, _, _ := NextToken();
        cmd := Back(cmd);
        at := ps;
        amp := PeekFor("&");
      }
      ghost var b := ps;
      var semi := PeekFor(";");
      if semi {
        var _, _, _ := NextToken();
        var right := LineCmd();
        r := if right.None? then None else Some(List(cmd, right.value));
      } else {
        r := Some(cmd);
      }
    }

    /** nulterminate */
    method NulTerminate(cmd: Cmd)
      requires forall w :: Names(cmd, w) ==> w.eq < buf.Length
      modifies buf
      ensures forall i :: 0 <= i < buf.Length ==> buf[i] == if IsEnd(cmd, i) then NUL else old(buf[i])
      decreases cmd
    {
      match cmd
      case Exec(args) =>
        var i := 0;
        while i < |args|
          invariant 0 <= i <= |args|
          invariant forall k :: 0 <= k < buf.Length ==> buf[k] == if IsEnd(Exec(args[..i]), k) then NUL else old(buf[k])
        {
          EndsGrow(args, i);
          assert Names(cmd, args[i]);
          buf[args[i].eq] := NUL;
          i := i + 1;
        }
        assert args[..i] == args;
      case Redir(c, r) =>
        NulTerminate(c);
        buf[r.file.eq] := NUL;
      case Pipe(l, r) =>
        NulTerminate(l);
        NulTerminate(r);
      case List(l, r) =>
        NulTerminate(l);
        NulTerminate(r);
      case Back(c) =>
        NulTerminate(c);
    }

    /** parsecmd accepts exactly the layouts of sentences, and what runcmd then
        finds in the buffer is the sentence's meaning; a rejected line is left as
        it was. */
    method Parse() returns (r: Option<Cmd>)
      requires Valid() && ps == 0
      modifies this`ps, buf
      ensures var x := ParseCmd(old(Line())); if x.Panic? then r.None? else r == Some(x.value)
      ensures r.None? ==> buf[..] == old(buf[..])
      ensures r.Some? ==> forall w :: Names(r.value, w) ==> CString(buf[..], w.q) == Text(old(Line()), w)
      ensures forall tree :: Says(old(Line()), tree) <==> r.Some? && Found(buf[..], r.value) == tree
    {
      hide Says;
      ghost var t := Line();
      AllSaid(t);
      r := LineCmd();
      if r.None? {
        return;
      }
      var _ := PeekFor("");
      if ps != buf.Length - 1 {
        return None;
      }
      var cmd := r.value;
      forall w | Names(cmd, w) ensures w.eq < buf.Length {
        NamedIsWord(t, cmd, w);
      }
      NulTerminate(cmd);
      EndsTerminate(t, old(buf[..]), buf[..], cmd);
      forall w | Names(cmd, w) ensures CString(buf[..], w.q) == Text(t, w) {
        ReadsWord(t, buf[..], cmd, w);
      }
      FoundIs(t, buf[..], cmd);
    }
  }

  /** A word of the command ends at i. */
  ghost predicate IsEnd(cmd: Cmd, i: nat) {
    exists w :: Names(cmd, w) && w.eq == i
  }

  lemma EndsGrow(args: seq<Word>, i: nat)
    requires i < |args|
    ensures forall k: nat :: IsEnd(Exec(args[..i + 1]), k) <==> IsEnd(Exec(args[..i]), k) || k == args[i].eq
  {
    assert args[..i + 1] == args[..i] + [args[i]];
    forall k: nat ensures IsEnd(Exec(args[..i + 1]), k) <==> IsEnd(Exec(args[..i]), k) || k == args[i].eq {
      if IsEnd(Exec(args[..i]), k) {
        var w :| Names(Exec(args[..i]), w) && w.eq == k;
        assert Names(Exec(args[..i + 1]), w);
      } else if k == args[i].eq {
        assert Names(Exec(args[..i + 1]), args[i]);
      }
    }
  }

  lemma EndsTerminate(t: string, b0: string, b: string, cmd: Cmd)
    requires |b| == |b0| == |t| + 1 && b0[..|t|] == t && b0[|t|] == NUL
    requires forall i :: 0 <= i < |b| ==> b[i] == if IsEnd(cmd, i) then NUL else b0[i]
    ensures Terminated(t, b, cmd)
  {
    forall w | Names(cmd, w) && w.eq < |b| ensures b[w.eq] == NUL {
      assert IsEnd(cmd, w.eq);
    }
    forall i | 0 <= i < |t| && b[i] != t[i] ensures b[i] == NUL && exists w :: Names(cmd, w) && w.eq == i {
      assert b0[i] == t[i];
    }
  }

  /** The result of a method, and where it left *ps, against the grammar. */
  ghost predicate Agrees<T>(x: Result<T>, r: Option<T>, ps: nat) {
    if x.Panic? then r.None? else r == Some(x.value) && ps == x.next
  }
}
