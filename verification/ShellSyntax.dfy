/** The language that user/sh.c accepts, by a grammar: simple commands are words
    and redirections in any order, or a line in parentheses; pipelines nest to
    the right; & applies to the whole pipeline before it; ; separates lines. A
    line of text is any layout of a sentence's tokens. parsecmd accepts exactly
    these, and gives each the meaning that the grammar does. */
module ShellSyntax {
  import opened ShellGrammar

  // ----- what commands mean

  datatype Tree =
    | TExec(args: seq<string>)
    | TRedir(t: Tree, file: string, mode: Mode)
    | TPipe(left: Tree, right: Tree)
    | TList(left: Tree, right: Tree)
    | TBack(t: Tree)

  function Text(t: string, w: Word): string {
    if w.q <= w.eq <= |t| then t[w.q..w.eq] else ""
  }

  function Texts(t: string, ws: seq<Word>): (r: seq<string>)
    ensures |r| == |ws| && forall i :: 0 <= i < |ws| ==> r[i] == Text(t, ws[i])
  {
    seq(|ws|, i requires 0 <= i < |ws| => Text(t, ws[i]))
  }

  /** The tree that a command denotes in its line. */
  function Resolve(t: string, cmd: Cmd): Tree {
    match cmd
    case Exec(args) => TExec(Texts(t, args))
    case Redir(c, r) => TRedir(Resolve(t, c), Text(t, r.file), r.mode)
    case Pipe(l, r) => TPipe(Resolve(t, l), Resolve(t, r))
    case List(l, r) => TList(Resolve(t, l), Resolve(t, r))
    case Back(c) => TBack(Resolve(t, c))
  }

  // ----- tokens and their layout

  /** kind is 'a' for a word, '+' for >>, and the symbol itself otherwise. */
  datatype Tok = Tok(kind: char, text: string)

  predicate PlainWord(w: string) {
    |w| > 0 && forall i :: 0 <= i < |w| ==> Plain(w[i])
  }

  predicate LegalTok(k: Tok) {
    if k.kind == 'a' then PlainWord(k.text)
    else if k.kind == '+' then k.text == ">>"
    else k.kind in "<|>&;()" && k.text == [k.kind]
  }

  predicate Blank(t: string, i: nat, j: nat) {
    i <= j <= |t| && forall k :: i <= k < j ==> t[k] in " \t\r\n\U{0B}"
  }

  /** A word or a > ends where the next character cannot belong to it. */
  predicate Closed(t: string, e: nat, kind: char) {
    e <= |t| && (e < |t| ==> (kind == 'a' ==> !Plain(t[e])) && (kind == '>' ==> t[e] != '>'))
  }

  /** Token k stands at at[k]; behind the last is the end. */
  function From(t: string, at: seq<nat>, k: nat): nat {
    if k < |at| then at[k] else |t|
  }

  function To(toks: seq<Tok>, at: seq<nat>, k: nat): nat
    requires |at| == |toks| && k <= |toks|
  {
    if k == 0 then 0 else at[k - 1] + |toks[k - 1].text|
  }

  predicate StandsAt(t: string, i: nat, k: Tok) {
    LegalTok(k) && i + |k.text| <= |t| && t[i..i + |k.text|] == k.text && Closed(t, i + |k.text|, k.kind)
  }

  /** t is the tokens in order, with white space between them as needed or
      more, also in front and at the end. */
  ghost predicate Laid(t: string, toks: seq<Tok>, at: seq<nat>) {
    && IsLine(t) && |at| == |toks|
    && (forall k :: 0 <= k < |toks| ==> StandsAt(t, at[k], toks[k]))
    && (forall k :: 0 <= k <= |toks| ==> Blank(t, To(toks, at, k), From(t, at, k)))
  }

  function First(toks: seq<Tok>, k: nat): char {
    if k < |toks| && |toks[k].text| > 0 then toks[k].text[0] else NUL
  }

  function KindAt(toks: seq<Tok>, k: nat): char {
    if k < |toks| then toks[k].kind else NUL
  }

  lemma {:induction false} SkipTo(t: string, i: nat, j: nat)
    requires Blank(t, i, j) && (j < |t| ==> !White(t[j]))
    ensures Skip(t, i) == j
    decreases j - i
  {
    if i < j {
      SkipTo(t, i + 1, j);
    }
  }

  lemma EndOf(t: string, i: nat, e: nat)
    requires i <= e <= |t| && (forall k :: i <= k < e ==> Plain(t[k])) && (e < |t| ==> !Plain(t[e]))
    ensures WordEnd(t, i) == e
  {
    hide Plain;
  }

  /** A token's first character. */
  lemma Starts(t: string, i: nat, k: Tok)
    requires StandsAt(t, i, k)
    ensures |k.text| > 0 && i < |t| && t[i] == k.text[0] && !White(t[i]) && t[i] != NUL
    ensures k.kind == 'a' ==> Plain(t[i])
    ensures k.kind != 'a' ==> t[i] == if k.kind == '+' then '>' else k.kind
  {
    assert t[i..i + |k.text|][0] == k.text[0];
  }

  /** What gettoken does with a token that stands where it looks. */
  lemma Lexes(t: string, i: nat, k: Tok)
    requires IsLine(t) && StandsAt(t, i, k)
    ensures var e := i + |k.text|; GetToken(t, i) == Token(k.kind, i, e, Skip(t, e)) && Text(t, Word(i, e)) == k.text
  {
    hide White, IsLine;
    Starts(t, i, k);
    SkipTo(t, i, i);
    var e := i + |k.text|;
    if k.kind == 'a' {
      assert forall x :: i <= x < e ==> t[x] == t[i..e][x - i];
      EndOf(t, i, e);
    } else if k.kind == '+' {
      assert t[i + 1] == t[i..e][1];
    }
  }

  /** All that the parser sees at the k-th token. */
  lemma Sees(t: string, toks: seq<Tok>, at: seq<nat>, k: nat)
    requires Laid(t, toks, at) && k <= |toks|
    ensures IsLine(t) && From(t, at, k) <= |t| && Skip(t, From(t, at, k)) == From(t, at, k)
    ensures CharAt(t, From(t, at, k)) == First(toks, k)
    ensures GetToken(t, From(t, at, k)).kind == KindAt(toks, k)
    ensures k < |toks| ==>
            var g := GetToken(t, at[k]);
            g.q == at[k] && g.next == From(t, at, k + 1) && Text(t, Word(g.q, g.eq)) == toks[k].text
    ensures k == |toks| ==> GetToken(t, |t|).next == |t|
  {
    hide Laid, IsLine, GetToken, Skip, Text;
    IsLaid(t, toks, at);
    if k < |toks| {
      SeesToken(t, toks, at, k);
    } else {
      AtEnd(t);
    }
  }

  lemma IsLaid(t: string, toks: seq<Tok>, at: seq<nat>)
    requires Laid(t, toks, at)
    ensures IsLine(t) && |at| == |toks|
  {
  }

  lemma SeesToken(t: string, toks: seq<Tok>, at: seq<nat>, k: nat)
    requires Laid(t, toks, at) && k < |toks|
    ensures |at| == |toks| && at[k] <= |t| && Skip(t, at[k]) == at[k] && CharAt(t, at[k]) == First(toks, k) && IsLine(t)
    ensures var g := GetToken(t, at[k]);
            && g.kind == toks[k].kind && g.q == at[k] && g.next == From(t, at, k + 1)
            && Text(t, Word(g.q, g.eq)) == toks[k].text
  {
    hide StandsAt, IsLine, GetToken, Skip, White, Plain, Text, LegalTok, Blank;
    Starts(t, at[k], toks[k]);
    NoSkip(t, at[k]);
    Lexes(t, at[k], toks[k]);
    NextSkips(t, toks, at, k + 1);
  }

  lemma NoSkip(t: string, i: nat)
    requires i < |t| && !White(t[i])
    ensures Skip(t, i) == i
  {
  }

  lemma AtEnd(t: string)
    requires IsLine(t)
    ensures GetToken(t, |t|) == Token(NUL, |t|, |t|, |t|) && Skip(t, |t|) == |t|
  {
  }

  lemma NextSkips(t: string, toks: seq<Tok>, at: seq<nat>, k: nat)
    requires Laid(t, toks, at) && k <= |toks|
    ensures To(toks, at, k) <= |t| && Skip(t, To(toks, at, k)) == From(t, at, k)
  {
    hide StandsAt, IsLine;
    if k < |toks| {
      Starts(t, at[k], toks[k]);
    }
    SkipTo(t, To(toks, at, k), From(t, at, k));
  }

  /** The kinds of tokens that the parser tells apart by their first character. */
  lemma Kinds(t: string, toks: seq<Tok>, at: seq<nat>, k: nat)
    requires Laid(t, toks, at) && k <= |toks|
    ensures First(toks, k) in "<>" <==> KindAt(toks, k) in "<>+"
    ensures forall c :: c in "|()&;" ==> (First(toks, k) == c <==> KindAt(toks, k) == c)
    ensures First(toks, k) == NUL <==> k == |toks|
    ensures KindAt(toks, k) == NUL <==> k == |toks|
    ensures KindAt(toks, k) in "a<|>&;()+" || k == |toks|
  {
    hide IsLine;
    if k < |toks| {
      Starts(t, at[k], toks[k]);
    }
  }

  lemma Peeks(t: string, toks: seq<Tok>, at: seq<nat>, k: nat, cs: string)
    requires Laid(t, toks, at) && k <= |toks|
    ensures From(t, at, k) <= |t| && Peek(t, From(t, at, k), cs) == (First(toks, k) != NUL && First(toks, k) in cs)
  {
    hide Laid, Skip, GetToken;
    Sees(t, toks, at, k);
  }

  /** peek for one symbol. */
  lemma PeeksOne(t: string, toks: seq<Tok>, at: seq<nat>, k: nat, c: char)
    requires Laid(t, toks, at) && k <= |toks| && c in "|()&;"
    ensures From(t, at, k) <= |t| && IsLine(t) && Skip(t, From(t, at, k)) == From(t, at, k)
    ensures Peek(t, From(t, at, k), [c]) == (KindAt(toks, k) == c)
    ensures KindAt(toks, k) == c ==>
              k < |toks| && From(t, at, k + 1) <= |t| && GetToken(t, From(t, at, k)).next == From(t, at, k + 1)
  {
    hide Laid, Skip, GetToken, Peek, IsLine;
    Sees(t, toks, at, k);
    Kinds(t, toks, at, k);
    Peeks(t, toks, at, k, [c]);
    if k < |toks| {
      Sees(t, toks, at, k + 1);
    }
  }

  // ----- the grammar

  /** A part of a simple command. */
  datatype Item = Arg(w: string) | Redirect(mode: Mode, file: string)

  datatype Simple = Words(items: seq<Item>) | Block(line: Line, redirects: seq<Item>)
  datatype Pipeline = One(s: Simple) | Piped(s: Simple, rest: Pipeline)
  /** A pipeline with as many & as backs says, and the lines after the ; */
  datatype Line = End(p: Pipeline, backs: nat) | Then(p: Pipeline, backs: nat, rest: Line)

  function Sym(c: char): seq<Tok> {
    [Tok(c, [c])]
  }

  function Operator(m: Mode): Tok {
    match m case Read => Tok('<', "<") case Write => Tok('>', ">") case Append => Tok('+', ">>")
  }

  function ItemToks(x: Item): seq<Tok> {
    match x
    case Arg(w) => [Tok('a', w)]
    case Redirect(m, file) => [Operator(m), Tok('a', file)]
  }

  function ItemsToks(xs: seq<Item>): seq<Tok> {
    if xs == [] then [] else ItemToks(xs[0]) + ItemsToks(xs[1..])
  }

  function Ands(n: nat): seq<Tok> {
    if n == 0 then [] else Sym('&') + Ands(n - 1)
  }

  function SimpleToks(s: Simple): seq<Tok> {
    match s
    case Words(xs) => ItemsToks(xs)
    case Block(l, rs) => Sym('(') + (LineToks(l) + (Sym(')') + ItemsToks(rs)))
  }

  function PipeToks(p: Pipeline): seq<Tok> {
    match p
    case One(s) => SimpleToks(s)
    case Piped(s, rest) => SimpleToks(s) + (Sym('|') + PipeToks(rest))
  }

  function LineToks(l: Line): seq<Tok> {
    match l
    case End(p, n) => PipeToks(p) + Ands(n)
    case Then(p, n, rest) => PipeToks(p) + (Ands(n) + (Sym(';') + LineToks(rest)))
  }

  function ArgsOf(xs: seq<Item>): seq<string> {
    if xs == [] then [] else (if xs[0].Arg? then [xs[0].w] else []) + ArgsOf(xs[1..])
  }

  function RedirsOf(xs: seq<Item>): seq<Item> {
    if xs == [] then [] else (if xs[0].Redirect? then [xs[0]] else []) + RedirsOf(xs[1..])
  }

  /** The redirections, each around what came before it. */
  function Around(t: Tree, xs: seq<Item>): Tree
    decreases |xs|
  {
    if xs == [] then t
    else Around(if xs[0].Redirect? then TRedir(t, xs[0].file, xs[0].mode) else t, xs[1..])
  }

  function Backs(t: Tree, n: nat): Tree
    decreases n
  {
    if n == 0 then t else Backs(TBack(t), n - 1)
  }

  function SimpleMeans(s: Simple): Tree {
    match s
    case Words(xs) => Around(TExec(ArgsOf(xs)), RedirsOf(xs))
    case Block(l, rs) => Around(LineMeans(l), rs)
  }

  function PipeMeans(p: Pipeline): Tree {
    match p
    case One(s) => SimpleMeans(s)
    case Piped(s, rest) => TPipe(SimpleMeans(s), PipeMeans(rest))
  }

  function LineMeans(l: Line): Tree {
    match l
    case End(p, n) => Backs(PipeMeans(p), n)
    case Then(p, n, rest) => TList(Backs(PipeMeans(p), n), LineMeans(rest))
  }

  predicate LegalItem(x: Item) {
    match x case Arg(w) => PlainWord(w) case Redirect(_, file) => PlainWord(file)
  }

  predicate LegalSimple(s: Simple) {
    match s
    case Words(xs) => |ArgsOf(xs)| < MAX_ARGS && forall i :: 0 <= i < |xs| ==> LegalItem(xs[i])
    case Block(l, rs) => LegalLine(l) && forall i :: 0 <= i < |rs| ==> LegalItem(rs[i]) && rs[i].Redirect?
  }

  predicate LegalPipe(p: Pipeline) {
    match p
    case One(s) => LegalSimple(s)
    case Piped(s, rest) => LegalSimple(s) && LegalPipe(rest)
  }

  /** Words are plain, a command has fewer than MAXARGS of them, and only
      redirections follow a parenthesis. */
  predicate LegalLine(l: Line) {
    match l
    case End(p, _) => LegalPipe(p)
    case Then(p, _, rest) => LegalPipe(p) && LegalLine(rest)
  }

  // ----- sentences are accepted, with their meaning

  predicate Stand(toks: seq<Tok>, k: nat, ys: seq<Tok>) {
    k + |ys| <= |toks| && toks[k..k + |ys|] == ys
  }

  lemma StandBoth(toks: seq<Tok>, k: nat, a: seq<Tok>, b: seq<Tok>)
    requires Stand(toks, k, a + b)
    ensures Stand(toks, k, a) && Stand(toks, k + |a|, b)
  {
    assert toks[k..k + |a|] == (a + b)[..|a|];
    assert toks[k + |a|..k + |a| + |b|] == (a + b)[|a|..];
  }

  lemma StandIn(toks: seq<Tok>, k: nat, ys: seq<Tok>)
    requires Stand(toks, k, ys)
    ensures k + |ys| <= |toks|
  {
  }

  lemma StandAt(toks: seq<Tok>, k: nat, ys: seq<Tok>, j: nat)
    requires Stand(toks, k, ys) && j < |ys|
    ensures k + j < |toks| && toks[k + j] == ys[j]
  {
    assert toks[k..k + |ys|][j] == ys[j];
  }

  /** What may follow a simple command, a pipeline and a line. */
  predicate Follows(toks: seq<Tok>, k: nat, cs: string) {
    k == |toks| || (k < |toks| && toks[k].kind in cs)
  }

  ghost predicate RedirsAre(t: string, rs: seq<Redirection>, xs: seq<Item>) {
    |rs| == |xs| && forall i :: 0 <= i < |xs| ==>
      xs[i].Redirect? && Text(t, rs[i].file) == xs[i].file && rs[i].mode == xs[i].mode
  }

  lemma OperatorKind(m: Mode)
    ensures ModeOf(Operator(m).kind) == m && Operator(m).kind in "<>+"
  {
  }

  /** A redirection at the k-th token. */
  lemma OneRedir(t: string, toks: seq<Tok>, at: seq<nat>, k: nat, x: Item, rs: seq<Redirection>)
    returns (r: Redirection)
    requires Laid(t, toks, at) && x.Redirect? && Stand(toks, k, ItemToks(x))
    ensures From(t, at, k) <= |t| && From(t, at, k + 2) <= |t| && IsLine(t)
    ensures ParseRedirs(t, From(t, at, k), rs) == ParseRedirs(t, From(t, at, k + 2), rs + [r])
    ensures Text(t, r.file) == x.file && r.mode == x.mode
  {
    hide Laid, Skip, GetToken, Text, Peek, ModeOf, Operator, Stand, IsLine, CharAt;
    StandAt(toks, k, ItemToks(x), 0);
    StandAt(toks, k, ItemToks(x), 1);
    OperatorKind(x.mode);
    Sees(t, toks, at, k);
    Sees(t, toks, at, k + 1);
    Sees(t, toks, at, k + 2);
    Kinds(t, toks, at, k);
    Peeks(t, toks, at, k, "<>");
    var w := GetToken(t, From(t, at, k + 1));
    r := Redirection(Word(w.q, w.eq), x.mode);
  }

  lemma {:induction false} RedirsParse(t: string, toks: seq<Tok>, at: seq<nat>, k: nat, xs: seq<Item>,
                                       rs: seq<Redirection>)
    returns (more: seq<Redirection>)
    requires Laid(t, toks, at) && Stand(toks, k, ItemsToks(xs)) && forall i :: 0 <= i < |xs| ==> xs[i].Redirect?
    requires KindAt(toks, k + |ItemsToks(xs)|) !in "<>+"
    ensures From(t, at, k) <= |t| && IsLine(t) && RedirsAre(t, more, xs)
    ensures ParseRedirs(t, From(t, at, k), rs) == Ok(rs + more, From(t, at, k + |ItemsToks(xs)|))
    decreases |xs|
  {
    hide Laid, Text, ParseRedirs, IsLine, Stand, RedirsAre, ItemToks;
    StandIn(toks, k, ItemsToks(xs));
    if xs == [] {
      more := [];
      NothingRead(t, toks, k);
      NoRedirs(t, toks, at, k, rs);
      assert rs + [] == rs;
    } else {
      StandBoth(toks, k, ItemToks(xs[0]), ItemsToks(xs[1..]));
      RedirLength(xs[0]);
      var r := OneRedir(t, toks, at, k, xs[0], rs);
      var m := RedirsParse(t, toks, at, k + 2, xs[1..], rs + [r]);
      more := [r] + m;
      assert rs + [r] + m == rs + more;
      RedirsCons(t, r, xs[0], m, xs[1..]);
      assert xs == [xs[0]] + xs[1..];
    }
  }

  lemma RedirLength(x: Item)
    requires x.Redirect?
    ensures |ItemToks(x)| == 2
  {
  }

  lemma NoRedirs(t: string, toks: seq<Tok>, at: seq<nat>, k: nat, rs: seq<Redirection>)
    requires Laid(t, toks, at) && k <= |toks| && KindAt(toks, k) !in "<>+"
    ensures From(t, at, k) <= |t| && IsLine(t) && ParseRedirs(t, From(t, at, k), rs) == Ok(rs, From(t, at, k))
  {
    hide Laid, Skip, GetToken, Peek;
    Sees(t, toks, at, k);
    Kinds(t, toks, at, k);
    Peeks(t, toks, at, k, "<>");
  }

  // ----- simple commands

  lemma {:induction false} AroundOne(t: Tree, xs: seq<Item>, x: Item)
    requires x.Redirect?
    ensures Around(t, xs + [x]) == TRedir(Around(t, xs), x.file, x.mode)
    decreases |xs|
  {
    if xs == [] {
      assert xs + [x] == [x] && [x][1..] == [];
    } else {
      assert (xs + [x])[1..] == xs[1..] + [x];
      AroundOne(if xs[0].Redirect? then TRedir(t, xs[0].file, xs[0].mode) else t, xs[1..], x);
    }
  }

  lemma {:induction false} WrapMeans(t: string, cmd: Cmd, rs: seq<Redirection>, xs: seq<Item>)
    requires RedirsAre(t, rs, xs)
    ensures Resolve(t, Wrap(cmd, rs)) == Around(Resolve(t, cmd), xs)
    decreases |rs|
  {
    hide Text, Around;
    if rs == [] {
      AroundNone(Resolve(t, cmd), xs);
    } else {
      var n := |rs| - 1;
      WrapMeans(t, cmd, rs[..n], xs[..n]);
      AroundOne(Resolve(t, cmd), xs[..n], xs[n]);
      assert xs == xs[..n] + [xs[n]];
    }
  }

  lemma AroundNone(t: Tree, xs: seq<Item>)
    requires xs == []
    ensures Around(t, xs) == t
  {
  }

  lemma PartsPlus(a: seq<Item>, b: seq<Item>)
    ensures ArgsOf(a + b) == ArgsOf(a) + ArgsOf(b) && RedirsOf(a + b) == RedirsOf(a) + RedirsOf(b)
  {
    hide ArgsOf, RedirsOf;
    ArgsPlus(a, b);
    RedirsPlus(a, b);
  }

  lemma {:induction false} ArgsPlus(a: seq<Item>, b: seq<Item>)
    ensures ArgsOf(a + b) == ArgsOf(a) + ArgsOf(b)
  {
    if a == [] {
      assert a + b == b;
    } else {
      ArgsPlus(a[1..], b);
      assert (a + b)[1..] == a[1..] + b && (a + b)[0] == a[0];
      var x := if a[0].Arg? then [a[0].w] else [];
      Assoc(x, ArgsOf(a[1..]), ArgsOf(b));
    }
  }

  lemma {:induction false} RedirsPlus(a: seq<Item>, b: seq<Item>)
    ensures RedirsOf(a + b) == RedirsOf(a) + RedirsOf(b)
  {
    if a == [] {
      assert a + b == b;
    } else {
      RedirsPlus(a[1..], b);
      assert (a + b)[1..] == a[1..] + b && (a + b)[0] == a[0];
      var x := if a[0].Redirect? then [a[0]] else [];
      Assoc(x, RedirsOf(a[1..]), RedirsOf(b));
    }
  }

  lemma {:induction false} ToksPlus(a: seq<Item>, b: seq<Item>)
    ensures ItemsToks(a + b) == ItemsToks(a) + ItemsToks(b)
  {
    hide ItemToks;
    if a == [] {
      assert a + b == b;
    } else {
      ToksPlus(a[1..], b);
      assert (a + b)[1..] == a[1..] + b && (a + b)[0] == a[0];
      Assoc(ItemToks(a[0]), ItemsToks(a[1..]), ItemsToks(b));
    }
  }

  lemma Assoc<T>(x: seq<T>, y: seq<T>, z: seq<T>)
    ensures x + y + z == x + (y + z)
  {
  }

  lemma {:induction false} OnlyRedirs(xs: seq<Item>)
    requires forall i :: 0 <= i < |xs| ==> xs[i].Redirect?
    ensures ArgsOf(xs) == [] && RedirsOf(xs) == xs
  {
    if xs != [] {
      OnlyRedirs(xs[1..]);
    }
  }

  /** How many redirections xs begins with. */
  function Leading(xs: seq<Item>): (n: nat)
    ensures n <= |xs| && (forall i :: 0 <= i < n ==> xs[i].Redirect?) && (n < |xs| ==> xs[n].Arg?)
  {
    if xs != [] && xs[0].Redirect? then 1 + Leading(xs[1..]) else 0
  }

  /** What has been read of a simple command. */
  ghost predicate Read_(t: string, args: seq<Word>, rs: seq<Redirection>, done: seq<Item>) {
    Texts(t, args) == ArgsOf(done) && RedirsAre(t, rs, RedirsOf(done))
  }

  lemma SimpleDone(t: string, args: seq<Word>, rs: seq<Redirection>, done: seq<Item>)
    requires Read_(t, args, rs, done)
    ensures Resolve(t, Wrap(Exec(args), rs)) == SimpleMeans(Words(done))
  {
    hide Texts, RedirsAre, Wrap, Around, ArgsOf, RedirsOf;
    WrapMeans(t, Exec(args), rs, RedirsOf(done));
  }

  lemma ReadMore(t: string, args: seq<Word>, rs: seq<Redirection>, done: seq<Item>, more: seq<Redirection>,
                 xs: seq<Item>)
    requires Read_(t, args, rs, done) && RedirsAre(t, more, xs)
    ensures Read_(t, args, rs + more, done + xs)
  {
    hide Text, RedirsAre, ArgsOf, RedirsOf, Texts;
    PartsPlus(done, xs);
    AreRedirects(t, more, xs);
    OnlyRedirs(xs);
    assert ArgsOf(done) + [] == ArgsOf(done);
    RedirsJoin(t, rs, RedirsOf(done), more, xs);
  }

  lemma AreRedirects(t: string, rs: seq<Redirection>, xs: seq<Item>)
    requires RedirsAre(t, rs, xs)
    ensures forall i :: 0 <= i < |xs| ==> xs[i].Redirect?
  {
  }

  lemma RedirsJoin(t: string, rs: seq<Redirection>, xs: seq<Item>, more: seq<Redirection>, ys: seq<Item>)
    requires RedirsAre(t, rs, xs) && RedirsAre(t, more, ys)
    ensures RedirsAre(t, rs + more, xs + ys)
  {
    hide Text;
  }

  lemma ReadWord(t: string, args: seq<Word>, rs: seq<Redirection>, done: seq<Item>, w: Word)
    requires Read_(t, args, rs, done)
    ensures Read_(t, args + [w], rs, done + [Arg(Text(t, w))])
  {
    hide Text;
    var x := Arg(Text(t, w));
    PartsPlus(done, [x]);
    assert [x][1..] == [] && ArgsOf([x]) == [x.w] && RedirsOf([x]) == [];
    assert RedirsOf(done) + [] == RedirsOf(done);
    assert Texts(t, args + [w]) == Texts(t, args) + [x.w];
  }

  /** The loop of parseexec at a word, up to its next test. */
  lemma ArgStep(t: string, toks: seq<Tok>, at: seq<nat>, k: nat, args: seq<Word>, rs: seq<Redirection>)
    returns (w: Word)
    requires Laid(t, toks, at) && k < |toks| && toks[k].kind == 'a'
    ensures From(t, at, k) <= |t| && From(t, at, k + 1) <= |t| && IsLine(t) && Text(t, w) == toks[k].text
    ensures var x := ParseRedirs(t, From(t, at, k + 1), rs);
            ParseArgs(t, From(t, at, k), args, rs) ==
            if |args| + 1 >= MAX_ARGS || x.Panic? then Panic else ParseArgs(t, x.next, args + [w], x.value)
  {
    hide Laid, Skip, GetToken, Text, Peek, ParseRedirs, Wrap;
    Sees(t, toks, at, k);
    Sees(t, toks, at, k + 1);
    Kinds(t, toks, at, k);
    Peeks(t, toks, at, k, "|)&;");
    var g := GetToken(t, From(t, at, k));
    w := Word(g.q, g.eq);
  }

  lemma ArgsEnd(t: string, toks: seq<Tok>, at: seq<nat>, k: nat, args: seq<Word>, rs: seq<Redirection>)
    requires Laid(t, toks, at) && Follows(toks, k, "|)&;")
    ensures From(t, at, k) <= |t| && IsLine(t)
    ensures ParseArgs(t, From(t, at, k), args, rs) == Ok(Wrap(Exec(args), rs), From(t, at, k))
  {
    hide Laid, Skip, GetToken, Text, Peek, ParseRedirs, Wrap;
    IsLaid(t, toks, at);
    Sees(t, toks, at, k);
    Kinds(t, toks, at, k);
    Peeks(t, toks, at, k, "|)&;");
    if k < |toks| {
      assert toks[k].kind in "|()&;";
    }
  }

  /** The first word, the redirections right after it, and the rest. */
  lemma SplitItems(xs: seq<Item>) returns (tos: seq<Item>, rest: seq<Item>)
    requires xs != [] && xs[0].Arg?
    ensures xs == [xs[0]] + (tos + rest) && (forall i :: 0 <= i < |tos| ==> tos[i].Redirect?)
    ensures rest != [] ==> rest[0].Arg?
    ensures ItemsToks(xs) == [Tok('a', xs[0].w)] + (ItemsToks(tos) + ItemsToks(rest))
    ensures |ArgsOf(xs)| == 1 + |ArgsOf(rest)|
  {
    hide ItemsToks, ArgsOf, RedirsOf;
    var n := Leading(xs[1..]);
    tos, rest := xs[1..][..n], xs[1..][n..];
    assert xs[1..] == tos + rest;
    HeadOf(xs);
    ToksPlus(tos, rest);
    ArgsPlus(tos, rest);
    OnlyRedirs(tos);
  }

  lemma HeadOf(xs: seq<Item>)
    requires xs != [] && xs[0].Arg?
    ensures ItemsToks(xs) == [Tok('a', xs[0].w)] + ItemsToks(xs[1..]) && ArgsOf(xs) == [xs[0].w] + ArgsOf(xs[1..])
  {
  }

  lemma NoItems()
    ensures ItemsToks([]) == [] && ArgsOf([]) == [] && RedirsOf([]) == []
  {
  }

  lemma {:induction false} ItemsParse(t: string, toks: seq<Tok>, at: seq<nat>, k: nat, xs: seq<Item>,
                                      args: seq<Word>, rs: seq<Redirection>, done: seq<Item>)
    returns (cmd: Cmd)
    requires Laid(t, toks, at) && Stand(toks, k, ItemsToks(xs)) && (xs != [] ==> xs[0].Arg?)
    requires Follows(toks, k + |ItemsToks(xs)|, "|)&;") && |args| + |ArgsOf(xs)| < MAX_ARGS
    requires Read_(t, args, rs, done)
    ensures From(t, at, k) <= |t| && IsLine(t)
    ensures ParseArgs(t, From(t, at, k), args, rs) == Ok(cmd, From(t, at, k + |ItemsToks(xs)|))
    ensures Resolve(t, cmd) == SimpleMeans(Words(done + xs))
    decreases |xs|
  {
    hide Laid, Text, ParseArgs, ParseRedirs, Wrap, Resolve, SimpleMeans, Read_, RedirsAre, Texts, Stand, ItemsToks;
    hide ArgsOf;
    NoItems();
    if xs == [] {
      cmd := Wrap(Exec(args), rs);
      ArgsEnd(t, toks, at, k, args, rs);
      SimpleDone(t, args, rs, done);
      assert done + xs == done;
    } else {
      var tos, rest := SplitItems(xs);
      var n := k + 1 + |ItemsToks(tos)|;
      StandBoth(toks, k, [Tok('a', xs[0].w)], ItemsToks(tos) + ItemsToks(rest));
      StandAt(toks, k, [Tok('a', xs[0].w)], 0);
      StandBoth(toks, k + 1, ItemsToks(tos), ItemsToks(rest));
      NotRedir(toks, n, rest);
      var w := ArgStep(t, toks, at, k, args, rs);
      var more := RedirsParse(t, toks, at, k + 1, tos, rs);
      ReadWord(t, args, rs, done, w);
      ReadMore(t, args + [w], rs, done + [xs[0]], more, tos);
      cmd := ItemsParse(t, toks, at, n, rest, args + [w], rs + more, done + [xs[0]] + tos);
      assert done + [xs[0]] + tos + rest == done + xs;
    }
  }

  lemma NotRedir(toks: seq<Tok>, k: nat, rest: seq<Item>)
    requires Stand(toks, k, ItemsToks(rest)) && (rest != [] ==> rest[0].Arg?)
    requires Follows(toks, k + |ItemsToks(rest)|, "|)&;")
    ensures KindAt(toks, k) !in "<>+"
  {
    hide Stand;
    if rest != [] {
      StandBoth(toks, k, ItemToks(rest[0]), ItemsToks(rest[1..]));
      StandAt(toks, k, ItemToks(rest[0]), 0);
    }
  }

  // ----- whole lines

  /** ParseExec where no parenthesis opens. */
  lemma ExecWords(t: string, toks: seq<Tok>, at: seq<nat>, k: nat)
    requires Laid(t, toks, at) && k <= |toks| && KindAt(toks, k) != '('
    ensures From(t, at, k) <= |t| && IsLine(t)
    ensures var x := ParseRedirs(t, From(t, at, k), []);
            ParseExec(t, From(t, at, k)) == if x.Panic? then Panic else ParseArgs(t, x.next, [], x.value)
  {
    hide Laid, Skip, GetToken, Peek, ParseRedirs, ParseArgs, ParseBlock;
    PeeksOne(t, toks, at, k, '(');
    assert "(" == ['('];
  }

  /** ParseExec where one does. */
  lemma ExecBlock(t: string, toks: seq<Tok>, at: seq<nat>, k: nat)
    requires Laid(t, toks, at) && k < |toks| && toks[k].kind == '('
    ensures From(t, at, k) <= |t| && From(t, at, k + 1) <= |t| && IsLine(t)
    ensures var x := ParseLine(t, From(t, at, k + 1));
            ParseExec(t, From(t, at, k)) ==
            if x.Panic? || !Peek(t, x.next, ")") then Panic
            else
              var y := ParseRedirs(t, GetToken(t, Skip(t, x.next)).next, []);
              if y.Panic? then Panic else Ok(Wrap(x.value, y.value), y.next)
  {
    hide Laid, Skip, GetToken, Peek, ParseRedirs, ParseArgs, ParseLine, Wrap;
    PeeksOne(t, toks, at, k, '(');
    assert "(" == ['('];
  }

  lemma WordsStart(toks: seq<Tok>, k: nat, xs: seq<Item>)
    requires Stand(toks, k, ItemsToks(xs)) && Follows(toks, k + |ItemsToks(xs)|, "|)&;")
    ensures k <= |toks| && KindAt(toks, k) != '('
  {
    hide Stand;
    if xs != [] {
      StandBoth(toks, k, ItemToks(xs[0]), ItemsToks(xs[1..]));
      StandAt(toks, k, ItemToks(xs[0]), 0);
    }
  }

  lemma WordsParse(t: string, toks: seq<Tok>, at: seq<nat>, k: nat, xs: seq<Item>) returns (cmd: Cmd)
    requires Laid(t, toks, at) && LegalSimple(Words(xs)) && Stand(toks, k, ItemsToks(xs))
    requires Follows(toks, k + |ItemsToks(xs)|, "|)&;")
    ensures From(t, at, k) <= |t| && IsLine(t) && Resolve(t, cmd) == SimpleMeans(Words(xs))
    ensures ParseExec(t, From(t, at, k)) == Ok(cmd, From(t, at, k + |ItemsToks(xs)|))
  {
    hide Laid, ParseExec, ParseRedirs, ParseArgs, Resolve, SimpleMeans, Stand, ItemsToks, ArgsOf, RedirsOf;
    hide RedirsAre, Read_;
    WordsStart(toks, k, xs);
    ExecWords(t, toks, at, k);
    var n := Leading(xs);
    var tos, rest := xs[..n], xs[n..];
    assert xs == tos + rest;
    ToksPlus(tos, rest);
    ArgsPlus(tos, rest);
    OnlyRedirs(tos);
    StandBoth(toks, k, ItemsToks(tos), ItemsToks(rest));
    NotRedir(toks, k + |ItemsToks(tos)|, rest);
    var more := RedirsParse(t, toks, at, k, tos, []);
    assert [] + more == more;
    ReadNone(t);
    ReadMore(t, [], [], [], more, tos);
    assert [] + tos == tos;
    cmd := ItemsParse(t, toks, at, k + |ItemsToks(tos)|, rest, [], more, tos);
  }

  lemma ReadNone(t: string)
    ensures Read_(t, [], [], [])
  {
  }

  lemma {:induction false} SimpleParse(t: string, toks: seq<Tok>, at: seq<nat>, k: nat, s: Simple) returns (cmd: Cmd)
    requires Laid(t, toks, at) && LegalSimple(s) && Stand(toks, k, SimpleToks(s))
    requires Follows(toks, k + |SimpleToks(s)|, "|)&;")
    ensures From(t, at, k) <= |t| && IsLine(t) && Resolve(t, cmd) == SimpleMeans(s)
    ensures ParseExec(t, From(t, at, k)) == Ok(cmd, From(t, at, k + |SimpleToks(s)|))
    decreases s
  {
    hide Laid, ParseExec, ParseRedirs, ParseLine, Stand, ItemsToks, Skip, GetToken, Peek, LineToks, Resolve, Wrap;
    hide RedirsAre, Around, LineMeans, LegalLine, IsLine, Text, LegalItem;
    match s
    case Words(xs) => cmd := WordsParse(t, toks, at, k, xs);
    case Block(l, rs) =>
      var n := k + 1 + |LineToks(l)|;
      BlockStands(toks, k, l, rs);
      ExecBlock(t, toks, at, k);
      var x := LineParse(t, toks, at, k + 1, l);
      PeeksOne(t, toks, at, n, ')');
      assert ")" == [')'];
      var more := RedirsParse(t, toks, at, n + 1, rs, []);
      assert [] + more == more;
      cmd := Wrap(x, more);
      WrapMeans(t, x, more, rs);
  }

  lemma BlockStands(toks: seq<Tok>, k: nat, l: Line, rs: seq<Item>)
    requires Stand(toks, k, SimpleToks(Block(l, rs)))
    ensures var n := k + 1 + |LineToks(l)|;
            && k < |toks| && toks[k].kind == '(' && Stand(toks, k + 1, LineToks(l)) && n < |toks| && toks[n].kind == ')'
            && Stand(toks, n + 1, ItemsToks(rs)) && n + 1 + |ItemsToks(rs)| == k + |SimpleToks(Block(l, rs))|
  {
    hide Stand, LineToks, ItemsToks;
    var n := k + 1 + |LineToks(l)|;
    StandBoth(toks, k, Sym('('), LineToks(l) + (Sym(')') + ItemsToks(rs)));
    StandAt(toks, k, Sym('('), 0);
    StandBoth(toks, k + 1, LineToks(l), Sym(')') + ItemsToks(rs));
    StandBoth(toks, n, Sym(')'), ItemsToks(rs));
    StandAt(toks, n, Sym(')'), 0);
  }

  /** ParsePipe once its first command is known. */
  lemma PipeStep(t: string, toks: seq<Tok>, at: seq<nat>, i: nat, cmd: Cmd, n: nat)
    requires Laid(t, toks, at) && n <= |toks| && IsLine(t) && i <= |t| && ParseExec(t, i) == Ok(cmd, From(t, at, n))
    ensures From(t, at, n) <= |t|
    ensures KindAt(toks, n) != '|' ==> ParsePipe(t, i) == Ok(cmd, From(t, at, n))
    ensures KindAt(toks, n) == '|' ==>
              && n < |toks| && From(t, at, n + 1) <= |t|
              && var y := ParsePipe(t, From(t, at, n + 1));
                 ParsePipe(t, i) == if y.Panic? then Panic else Ok(Pipe(cmd, y.value), y.next)
  {
    hide Laid, Skip, GetToken, Peek, ParseExec;
    PeeksOne(t, toks, at, n, '|');
    assert "|" == ['|'];
  }

  lemma {:induction false} PipeParse(t: string, toks: seq<Tok>, at: seq<nat>, k: nat, p: Pipeline) returns (cmd: Cmd)
    requires Laid(t, toks, at) && LegalPipe(p) && Stand(toks, k, PipeToks(p))
    requires Follows(toks, k + |PipeToks(p)|, ")&;")
    ensures From(t, at, k) <= |t| && IsLine(t) && Resolve(t, cmd) == PipeMeans(p)
    ensures ParsePipe(t, From(t, at, k)) == Ok(cmd, From(t, at, k + |PipeToks(p)|))
    decreases p
  {
    hide Laid, ParseExec, ParsePipe, Stand, SimpleToks, SimpleMeans, LegalSimple;
    match p
    case One(s) =>
      cmd := SimpleParse(t, toks, at, k, s);
      PipeStep(t, toks, at, From(t, at, k), cmd, k + |SimpleToks(s)|);
    case Piped(s, rest) =>
      var n := k + |SimpleToks(s)|;
      StandBoth(toks, k, SimpleToks(s), Sym('|') + PipeToks(rest));
      StandBoth(toks, n, Sym('|'), PipeToks(rest));
      StandAt(toks, n, Sym('|'), 0);
      var x := SimpleParse(t, toks, at, k, s);
      var y := PipeParse(t, toks, at, n + 1, rest);
      PipeStep(t, toks, at, From(t, at, k), x, n);
      cmd := Pipe(x, y);
  }

  lemma {:induction false} BacksParse(t: string, toks: seq<Tok>, at: seq<nat>, k: nat, n: nat, cmd: Cmd)
    returns (r: Cmd)
    requires Laid(t, toks, at) && Stand(toks, k, Ands(n)) && KindAt(toks, k + |Ands(n)|) != '&'
    ensures From(t, at, k) <= |t| && IsLine(t) && Resolve(t, r) == Backs(Resolve(t, cmd), n)
    ensures ParseBacks(t, From(t, at, k), cmd) == Ok(r, From(t, at, k + |Ands(n)|))
    decreases n
  {
    hide Laid, Skip, GetToken, Peek, Stand;
    StandIn(toks, k, Ands(n));
    PeeksOne(t, toks, at, k, '&');
    assert "&" == ['&'];
    if n == 0 {
      r := cmd;
    } else {
      StandBoth(toks, k, Sym('&'), Ands(n - 1));
      StandAt(toks, k, Sym('&'), 0);
      r := BacksParse(t, toks, at, k + 1, n - 1, Back(cmd));
    }
  }

  /** ParseLine once its pipeline and the & after it are known. */
  lemma LineStep(t: string, toks: seq<Tok>, at: seq<nat>, i: nat, x: Cmd, m: nat, cmd: Cmd, n: nat)
    requires Laid(t, toks, at) && n <= |toks| && IsLine(t) && i <= |t| && m <= |t|
    requires ParsePipe(t, i) == Ok(x, m) && ParseBacks(t, m, x) == Ok(cmd, From(t, at, n))
    ensures From(t, at, n) <= |t|
    ensures KindAt(toks, n) != ';' ==> ParseLine(t, i) == Ok(cmd, From(t, at, n))
    ensures KindAt(toks, n) == ';' ==>
              && n < |toks| && From(t, at, n + 1) <= |t|
              && var y := ParseLine(t, From(t, at, n + 1));
                 ParseLine(t, i) == if y.Panic? then Panic else Ok(List(cmd, y.value), y.next)
  {
    hide Laid, Skip, GetToken, Peek, ParsePipe, ParseBacks;
    PeeksOne(t, toks, at, n, ';');
    assert ";" == [';'];
  }

  lemma {:induction false} LineParse(t: string, toks: seq<Tok>, at: seq<nat>, k: nat, l: Line) returns (cmd: Cmd)
    requires Laid(t, toks, at) && LegalLine(l) && Stand(toks, k, LineToks(l))
    requires Follows(toks, k + |LineToks(l)|, ")")
    ensures From(t, at, k) <= |t| && IsLine(t) && Resolve(t, cmd) == LineMeans(l)
    ensures ParseLine(t, From(t, at, k)) == Ok(cmd, From(t, at, k + |LineToks(l)|))
    decreases l
  {
    hide Laid, ParsePipe, ParseLine, ParseBacks, Stand, PipeToks, PipeMeans, LegalPipe, Ands, Backs, IsLine;
    hide Skip, GetToken, Text;
    var m := k + |PipeToks(l.p)|;
    var n := m + |Ands(l.backs)|;
    LineStands(toks, k, l);
    var x := PipeParse(t, toks, at, k, l.p);
    var b := BacksParse(t, toks, at, m, l.backs, x);
    LineStep(t, toks, at, From(t, at, k), x, From(t, at, m), b, n);
    match l {
      case End(_, _) => cmd := b;
      case Then(_, _, rest) =>
        var y := LineParse(t, toks, at, n + 1, rest);
        cmd := List(b, y);
    }
  }

  /** The parts of a line, one after the other. */
  lemma LineStands(toks: seq<Tok>, k: nat, l: Line)
    requires Stand(toks, k, LineToks(l)) && Follows(toks, k + |LineToks(l)|, ")")
    ensures var m := k + |PipeToks(l.p)|;
            var n := m + |Ands(l.backs)|;
            && Stand(toks, k, PipeToks(l.p)) && Stand(toks, m, Ands(l.backs)) && n <= |toks|
            && Follows(toks, m, ")&;") && KindAt(toks, n) != '&'
            && (if l.End? then n == k + |LineToks(l)| && KindAt(toks, n) != ';'
                else n < |toks| && KindAt(toks, n) == ';' && Stand(toks, n + 1, LineToks(l.rest)) &&
                     n + 1 + |LineToks(l.rest)| == k + |LineToks(l)|)
  {
    hide Stand, PipeToks, Ands;
    var m := k + |PipeToks(l.p)|;
    var n := m + |Ands(l.backs)|;
    StandIn(toks, k, LineToks(l));
    match l {
      case End(p, b) =>
        StandBoth(toks, k, PipeToks(p), Ands(b));
      case Then(p, b, rest) =>
        StandBoth(toks, k, PipeToks(p), Ands(b) + (Sym(';') + LineToks(rest)));
        StandBoth(toks, m, Ands(b), Sym(';') + LineToks(rest));
        StandBoth(toks, n, Sym(';'), LineToks(rest));
        StandAt(toks, n, Sym(';'), 0);
    }
    AndsFollow(toks, m, l.backs);
  }

  lemma AndsFollow(toks: seq<Tok>, m: nat, n: nat)
    requires Stand(toks, m, Ands(n)) && Follows(toks, m + |Ands(n)|, ");")
    ensures Follows(toks, m, ")&;") && KindAt(toks, m + |Ands(n)|) != '&'
  {
    if n > 0 {
      StandAt(toks, m, Ands(n), 0);
    }
  }

  /** Leading white space does not matter. */
  lemma SkipFirst(t: string, i: nat)
    requires IsLine(t) && i <= |t|
    ensures ParseLine(t, i) == ParseLine(t, Skip(t, i))
  {
    hide GetToken, ParseRedirs, ParseArgs, ParseBlock, IsLine;
    SkipTwice(t, i);
    assert ParseExec(t, i) == ParseExec(t, Skip(t, i)) by {
      BlockFirst(t, i);
    }
    hide ParseExec, Skip, Peek;
    assert ParsePipe(t, i) == ParsePipe(t, Skip(t, i));
  }

  lemma SkipTwice(t: string, i: nat)
    requires i <= |t|
    ensures Skip(t, Skip(t, i)) == Skip(t, i)
  {
  }

  lemma BlockFirst(t: string, i: nat)
    requires IsLine(t) && i <= |t|
    ensures Peek(t, i, "(") == Peek(t, Skip(t, i), "(")
    ensures ParseBlock(t, Skip(t, i)) == ParseBlock(t, Skip(t, Skip(t, i)))
  {
    hide GetToken, ParseRedirs, ParseLine, IsLine;
    SkipTwice(t, i);
  }

  /** Every sentence of the grammar, in every layout, is accepted with its meaning. */
  lemma Accepts(t: string, l: Line, at: seq<nat>)
    requires LegalLine(l) && Laid(t, LineToks(l), at)
    ensures IsLine(t) && ParseCmd(t).Ok? && Resolve(t, ParseCmd(t).value) == LineMeans(l)
  {
    hide ParseLine, Skip, LineToks, Resolve, LegalLine;
    var toks := LineToks(l);
    assert toks[0..|toks|] == toks;
    var cmd := LineParse(t, toks, at, 0, l);
    NextSkips(t, toks, at, 0);
    SkipFirst(t, 0);
    Sees(t, toks, at, |toks|);
  }

  // ----- only sentences are accepted

  predicate Part(toks: seq<Tok>, k: nat, n: nat, ys: seq<Tok>) {
    k <= n <= |toks| && toks[k..n] == ys
  }

  lemma PartPlus(toks: seq<Tok>, k: nat, m: nat, n: nat, a: seq<Tok>, b: seq<Tok>)
    requires Part(toks, k, m, a) && Part(toks, m, n, b)
    ensures Part(toks, k, n, a + b)
  {
    assert toks[k..n] == toks[k..m] + toks[m..n];
  }

  lemma PartOne(toks: seq<Tok>, k: nat)
    requires k < |toks|
    ensures Part(toks, k, k + 1, [toks[k]]) && Part(toks, k, k, [])
  {
  }

  lemma TokIs(t: string, toks: seq<Tok>, at: seq<nat>, k: nat)
    requires Laid(t, toks, at) && k < |toks|
    ensures toks[k].kind == 'a' ==> PlainWord(toks[k].text)
    ensures toks[k].kind in "|()&;" ==> [toks[k]] == Sym(toks[k].kind)
    ensures toks[k].kind in "<>+" ==> toks[k] == Operator(ModeOf(toks[k].kind))
  {
    assert StandsAt(t, at[k], toks[k]);
  }

  ghost predicate AllRedirs(xs: seq<Item>) {
    forall i :: 0 <= i < |xs| ==> xs[i].Redirect? && LegalItem(xs[i])
  }

  lemma {:induction false} RedirsSound(t: string, toks: seq<Tok>, at: seq<nat>, k: nat, rs: seq<Redirection>)
    returns (xs: seq<Item>, more: seq<Redirection>, n: nat)
    requires Laid(t, toks, at) && k <= |toks| && IsLine(t) && From(t, at, k) <= |t|
    requires ParseRedirs(t, From(t, at, k), rs).Ok?
    ensures Part(toks, k, n, ItemsToks(xs)) && AllRedirs(xs) && RedirsAre(t, more, xs)
    ensures ParseRedirs(t, From(t, at, k), rs) == Ok(rs + more, From(t, at, n)) && KindAt(toks, n) !in "<>+"
    decreases |toks| - k
  {
    hide Laid, Text, ParseRedirs, IsLine, Part, RedirsAre, PlainWord;
    if KindAt(toks, k) !in "<>+" {
      xs, more, n := [], [], k;
      NoRedirs(t, toks, at, k, rs);
      NothingRead(t, toks, k);
      assert rs + [] == rs;
    } else {
      RedirIs(t, toks, at, k, rs);
      var x := Redirect(ModeOf(toks[k].kind), toks[k + 1].text);
      TwoToks(toks, k, x);
      var r := OneRedir(t, toks, at, k, x, rs);
      var ys, m;
      ys, m, n := RedirsSound(t, toks, at, k + 2, rs + [r]);
      xs, more := [x] + ys, [r] + m;
      assert rs + [r] + m == rs + more && xs[1..] == ys;
      PartPlus(toks, k, k + 2, n, ItemToks(x), ItemsToks(ys));
      RedirsCons(t, r, x, m, ys);
    }
  }

  lemma NothingRead(t: string, toks: seq<Tok>, k: nat)
    requires k <= |toks|
    ensures Part(toks, k, k, ItemsToks([])) && RedirsAre(t, [], [])
  {
  }

  lemma RedirsCons(t: string, r: Redirection, x: Item, rs: seq<Redirection>, xs: seq<Item>)
    requires x.Redirect? && Text(t, r.file) == x.file && r.mode == x.mode && RedirsAre(t, rs, xs)
    ensures RedirsAre(t, [r] + rs, [x] + xs)
  {
    hide Text;
  }

  lemma TwoToks(toks: seq<Tok>, k: nat, x: Item)
    requires x.Redirect? && k + 1 < |toks| && toks[k] == Operator(x.mode) && toks[k + 1] == Tok('a', x.file)
    ensures Stand(toks, k, ItemToks(x)) && Part(toks, k, k + 2, ItemToks(x))
  {
    assert toks[k..k + 2] == [toks[k], toks[k + 1]];
  }

  /** An accepted redirection is an operator and a word. */
  lemma RedirIs(t: string, toks: seq<Tok>, at: seq<nat>, k: nat, rs: seq<Redirection>)
    requires Laid(t, toks, at) && k <= |toks| && IsLine(t) && From(t, at, k) <= |t| && KindAt(toks, k) in "<>+"
    requires ParseRedirs(t, From(t, at, k), rs).Ok?
    ensures k + 1 < |toks| && toks[k] == Operator(ModeOf(toks[k].kind)) && toks[k + 1] == Tok('a', toks[k + 1].text)
    ensures PlainWord(toks[k + 1].text)
  {
    hide Laid, Skip, GetToken, Text, Peek, PlainWord, IsLine;
    IsLaid(t, toks, at);
    Kinds(t, toks, at, k);
    Sees(t, toks, at, k);
    Sees(t, toks, at, k + 1);
    Kinds(t, toks, at, k + 1);
    Peeks(t, toks, at, k, "<>");
    TokIs(t, toks, at, k);
    assert GetToken(t, GetToken(t, From(t, at, k)).next).kind == 'a';
    TokIs(t, toks, at, k + 1);
  }

  lemma {:induction false} ItemsSound(t: string, toks: seq<Tok>, at: seq<nat>, k: nat, args: seq<Word>,
                                      rs: seq<Redirection>, done: seq<Item>)
    returns (xs: seq<Item>, n: nat)
    requires Laid(t, toks, at) && k <= |toks| && IsLine(t) && From(t, at, k) <= |t| && Read_(t, args, rs, done)
    requires ParseArgs(t, From(t, at, k), args, rs).Ok? && |args| < MAX_ARGS
    requires forall i :: 0 <= i < |done| ==> LegalItem(done[i])
    ensures Part(toks, k, n, ItemsToks(xs)) && Follows(toks, n, "|)&;") && LegalSimple(Words(done + xs))
    ensures var r := ParseArgs(t, From(t, at, k), args, rs);
            r.next == From(t, at, n) && Resolve(t, r.value) == SimpleMeans(Words(done + xs))
    decreases |toks| - k
  {
    hide Laid, Text, ParseArgs, ParseRedirs, Wrap, Resolve, SimpleMeans, Read_, RedirsAre, Texts, Part, IsLine;
    hide ItemsToks, LegalItem, ArgsOf, GetToken, Skip;
    if Follows(toks, k, "|)&;") {
      xs, n := [], k;
      ArgsEnd(t, toks, at, k, args, rs);
      SimpleDone(t, args, rs, done);
      NothingRead(t, toks, k);
      ReadCount(t, args, rs, done);
      assert done + [] == done;
    } else {
      ArgIs(t, toks, at, k, args, rs);
      var w := ArgStep(t, toks, at, k, args, rs);
      var tos, more, m := RedirsSound(t, toks, at, k + 1, rs);
      PartIn(toks, k + 1, m, ItemsToks(tos));
      Sees(t, toks, at, m);
      var x := Arg(toks[k].text);
      ReadWord(t, args, rs, done, w);
      ReadMore(t, args + [w], rs, done + [x], more, tos);
      LegalArg(x, tos);
      var rest;
      rest, n := ItemsSound(t, toks, at, m, args + [w], rs + more, done + [x] + tos);
      xs := [x] + tos + rest;
      ArgToks(toks, k, m, n, x, tos, rest);
      assert done + [x] + tos + rest == done + xs;
    }
  }

  lemma LegalArg(x: Item, tos: seq<Item>)
    requires x.Arg? && PlainWord(x.w) && AllRedirs(tos)
    ensures LegalItem(x) && forall i :: 0 <= i < |tos| ==> LegalItem(tos[i])
  {
  }

  lemma ReadCount(t: string, args: seq<Word>, rs: seq<Redirection>, done: seq<Item>)
    requires Read_(t, args, rs, done)
    ensures |ArgsOf(done)| == |args|
  {
  }

  lemma ArgToks(toks: seq<Tok>, k: nat, m: nat, n: nat, x: Item, tos: seq<Item>, rest: seq<Item>)
    requires k < |toks| && x.Arg? && toks[k] == Tok('a', x.w)
    requires Part(toks, k + 1, m, ItemsToks(tos)) && Part(toks, m, n, ItemsToks(rest))
    ensures Part(toks, k, n, ItemsToks([x] + tos + rest))
  {
    hide Part;
    PartOne(toks, k);
    PartPlus(toks, k + 1, m, n, ItemsToks(tos), ItemsToks(rest));
    PartPlus(toks, k, k + 1, n, [toks[k]], ItemsToks(tos) + ItemsToks(rest));
    ToksPlus(tos, rest);
    assert [x] + tos + rest == [x] + (tos + rest);
    assert ([x] + (tos + rest))[1..] == tos + rest;
  }

  /** Where parseexec goes on, there is a word. */
  lemma ArgIs(t: string, toks: seq<Tok>, at: seq<nat>, k: nat, args: seq<Word>, rs: seq<Redirection>)
    requires Laid(t, toks, at) && k <= |toks| && IsLine(t) && From(t, at, k) <= |t| && !Follows(toks, k, "|)&;")
    requires ParseArgs(t, From(t, at, k), args, rs).Ok?
    ensures k < |toks| && toks[k] == Tok('a', toks[k].text) && PlainWord(toks[k].text) && |args| + 1 < MAX_ARGS
    ensures From(t, at, k + 1) <= |t| && ParseRedirs(t, From(t, at, k + 1), rs).Ok?
  {
    hide Laid, Skip, GetToken, Text, Peek, PlainWord, IsLine, ParseRedirs, Wrap;
    IsLaid(t, toks, at);
    Kinds(t, toks, at, k);
    Sees(t, toks, at, k);
    Sees(t, toks, at, k + 1);
    Peeks(t, toks, at, k, "|)&;");
    assert First(toks, k) in "|)&;" ==> First(toks, k) in "|()&;";
    assert toks[k].kind == 'a';
    TokIs(t, toks, at, k);
  }

  lemma {:induction false} SimpleSound(t: string, toks: seq<Tok>, at: seq<nat>, k: nat) returns (s: Simple, n: nat)
    requires Laid(t, toks, at) && k <= |toks| && IsLine(t) && From(t, at, k) <= |t| && ParseExec(t, From(t, at, k)).Ok?
    ensures Part(toks, k, n, SimpleToks(s)) && LegalSimple(s)
    ensures var r := ParseExec(t, From(t, at, k)); r.next == From(t, at, n) && Resolve(t, r.value) == SimpleMeans(s)
    decreases |toks| - k, 0
  {
    hide Laid, ParseExec, ParseArgs, ParseRedirs, ParseLine, Part, Resolve, Wrap, IsLine, Read_, RedirsAre, LineToks;
    hide ItemsToks, Around, LineMeans, LegalLine, ArgsOf, RedirsOf, Skip, GetToken, Peek, LegalItem;
    if KindAt(toks, k) != '(' {
      ExecWords(t, toks, at, k);
      var tos, more, m := RedirsSound(t, toks, at, k, []);
      PartIn(toks, k, m, ItemsToks(tos));
      Sees(t, toks, at, m);
      assert [] + more == more && [] + tos == tos;
      ReadNone(t);
      ReadMore(t, [], [], [], more, tos);
      var xs;
      xs, n := ItemsSound(t, toks, at, m, [], more, tos);
      s := Words(tos + xs);
      ToksPlus(tos, xs);
      PartPlus(toks, k, m, n, ItemsToks(tos), ItemsToks(xs));
    } else {
      ExecBlock(t, toks, at, k);
      var l, m := LineSound(t, toks, at, k + 1);
      PartIn(toks, k + 1, m, LineToks(l));
      Sees(t, toks, at, m);
      CloseIs(t, toks, at, m);
      var tos, more;
      tos, more, n := RedirsSound(t, toks, at, m + 1, []);
      assert [] + more == more;
      s := Block(l, tos);
      WrapMeans(t, ParseLine(t, From(t, at, k + 1)).value, more, tos);
      BlockToks(t, toks, at, k, m, n, l, tos);
    }
  }

  /** The closing parenthesis. */
  lemma CloseIs(t: string, toks: seq<Tok>, at: seq<nat>, m: nat)
    requires Laid(t, toks, at) && m <= |toks| && From(t, at, m) <= |t| && Peek(t, From(t, at, m), ")")
    ensures m < |toks| && toks[m].kind == ')' && IsLine(t) && From(t, at, m + 1) <= |t|
    ensures GetToken(t, Skip(t, From(t, at, m))).next == From(t, at, m + 1)
  {
    hide Laid, Skip, GetToken, Peek, IsLine;
    PeeksOne(t, toks, at, m, ')');
    assert ")" == [')'];
  }

  lemma BlockToks(t: string, toks: seq<Tok>, at: seq<nat>, k: nat, m: nat, n: nat, l: Line, tos: seq<Item>)
    requires Laid(t, toks, at) && k < |toks| && toks[k].kind == '(' && m < |toks| && toks[m].kind == ')'
    requires Part(toks, k + 1, m, LineToks(l)) && Part(toks, m + 1, n, ItemsToks(tos))
    ensures Part(toks, k, n, SimpleToks(Block(l, tos)))
  {
    hide Laid, Part, LineToks, ItemsToks;
    TokIs(t, toks, at, k);
    TokIs(t, toks, at, m);
    PartOne(toks, k);
    PartOne(toks, m);
    PartPlus(toks, m, m + 1, n, Sym(')'), ItemsToks(tos));
    PartPlus(toks, k + 1, m, n, LineToks(l), Sym(')') + ItemsToks(tos));
    PartPlus(toks, k, k + 1, n, Sym('('), LineToks(l) + (Sym(')') + ItemsToks(tos)));
  }

  lemma {:induction false} PipeSound(t: string, toks: seq<Tok>, at: seq<nat>, k: nat) returns (p: Pipeline, n: nat)
    requires Laid(t, toks, at) && k <= |toks| && IsLine(t) && From(t, at, k) <= |t| && ParsePipe(t, From(t, at, k)).Ok?
    ensures Part(toks, k, n, PipeToks(p)) && LegalPipe(p)
    ensures var r := ParsePipe(t, From(t, at, k)); r.next == From(t, at, n) && Resolve(t, r.value) == PipeMeans(p)
    decreases |toks| - k, 1
  {
    hide Laid, ParseExec, ParsePipe, Part, SimpleToks, SimpleMeans, LegalSimple, IsLine;
    PipeNeeds(t, From(t, at, k));
    var s, m := SimpleSound(t, toks, at, k);
    PartIn(toks, k, m, SimpleToks(s));
    PipeStep(t, toks, at, From(t, at, k), ParseExec(t, From(t, at, k)).value, m);
    if KindAt(toks, m) != '|' {
      p, n := One(s), m;
    } else {
      var rest;
      rest, n := PipeSound(t, toks, at, m + 1);
      p := Piped(s, rest);
      TokIs(t, toks, at, m);
      PartOne(toks, m);
      PartPlus(toks, m, m + 1, n, Sym('|'), PipeToks(rest));
      PartPlus(toks, k, m, n, SimpleToks(s), Sym('|') + PipeToks(rest));
    }
  }

  lemma PartIn(toks: seq<Tok>, k: nat, n: nat, ys: seq<Tok>)
    requires Part(toks, k, n, ys)
    ensures k <= n <= |toks|
  {
  }

  lemma PipeNeeds(t: string, i: nat)
    requires IsLine(t) && i <= |t|
    ensures ParsePipe(t, i).Ok? ==> ParseExec(t, i).Ok?
    ensures ParseLine(t, i).Ok? ==> ParsePipe(t, i).Ok?
  {
    hide ParseExec, ParseBacks, Peek, Skip, GetToken;
  }

  lemma {:induction false} BacksSound(t: string, toks: seq<Tok>, at: seq<nat>, k: nat, cmd: Cmd)
    returns (b: nat, n: nat)
    requires Laid(t, toks, at) && k <= |toks| && IsLine(t) && From(t, at, k) <= |t|
    ensures Part(toks, k, n, Ands(b))
    ensures var r := ParseBacks(t, From(t, at, k), cmd);
            r.Ok? && r.next == From(t, at, n) && Resolve(t, r.value) == Backs(Resolve(t, cmd), b)
    decreases |toks| - k
  {
    hide Laid, Skip, GetToken, Peek, Part, IsLine;
    PeeksOne(t, toks, at, k, '&');
    assert "&" == ['&'];
    if KindAt(toks, k) != '&' {
      b, n := 0, k;
      NoAnds(toks, k);
    } else {
      var c;
      c, n := BacksSound(t, toks, at, k + 1, Back(cmd));
      b := c + 1;
      TokIs(t, toks, at, k);
      PartOne(toks, k);
      PartPlus(toks, k, k + 1, n, Sym('&'), Ands(c));
    }
  }

  lemma NoAnds(toks: seq<Tok>, k: nat)
    requires k <= |toks|
    ensures Part(toks, k, k, Ands(0))
  {
  }

  lemma {:induction false} LineSound(t: string, toks: seq<Tok>, at: seq<nat>, k: nat) returns (l: Line, n: nat)
    requires Laid(t, toks, at) && k <= |toks| && IsLine(t) && From(t, at, k) <= |t| && ParseLine(t, From(t, at, k)).Ok?
    ensures Part(toks, k, n, LineToks(l)) && LegalLine(l)
    ensures var r := ParseLine(t, From(t, at, k)); r.next == From(t, at, n) && Resolve(t, r.value) == LineMeans(l)
    decreases |toks| - k, 2
  {
    hide Laid, ParsePipe, ParseLine, ParseBacks, Part, PipeToks, PipeMeans, LegalPipe, Ands, Backs, IsLine;
    hide Skip, GetToken, CharAt, First, Text;
    PipeNeeds(t, From(t, at, k));
    var p, j := PipeSound(t, toks, at, k);
    PartIn(toks, k, j, PipeToks(p));
    Sees(t, toks, at, j);
    var x := ParsePipe(t, From(t, at, k)).value;
    var b, m := BacksSound(t, toks, at, j, x);
    PartIn(toks, j, m, Ands(b));
    LineStep(t, toks, at, From(t, at, k), x, From(t, at, j), ParseBacks(t, From(t, at, j), x).value, m);
    if KindAt(toks, m) != ';' {
      l, n := End(p, b), m;
      PartPlus(toks, k, j, m, PipeToks(p), Ands(b));
    } else {
      var rest;
      rest, n := LineSound(t, toks, at, m + 1);
      l := Then(p, b, rest);
      ThenToks(t, toks, at, k, j, m, n, p, b, rest);
    }
  }

  lemma ThenToks(t: string, toks: seq<Tok>, at: seq<nat>, k: nat, j: nat, m: nat, n: nat, p: Pipeline, b: nat,
                 rest: Line)
    requires Laid(t, toks, at) && m < |toks| && toks[m].kind == ';'
    requires Part(toks, k, j, PipeToks(p)) && Part(toks, j, m, Ands(b)) && Part(toks, m + 1, n, LineToks(rest))
    ensures Part(toks, k, n, LineToks(Then(p, b, rest)))
  {
    hide Laid, Part, PipeToks, Ands;
    TokIs(t, toks, at, m);
    PartOne(toks, m);
    PartPlus(toks, m, m + 1, n, Sym(';'), LineToks(rest));
    PartPlus(toks, j, m, n, Ands(b), Sym(';') + LineToks(rest));
    PartPlus(toks, k, j, n, PipeToks(p), Ands(b) + (Sym(';') + LineToks(rest)));
  }

  // ----- every line is a layout of tokens

  /** The tokens found so far, up to position To(|toks|). */
  ghost predicate LaidSoFar(t: string, toks: seq<Tok>, at: seq<nat>) {
    && IsLine(t) && |at| == |toks| && To(toks, at, |toks|) <= |t|
    && (forall k :: 0 <= k < |toks| ==> StandsAt(t, at[k], toks[k]))
    && (forall k :: 0 <= k < |toks| ==> Blank(t, To(toks, at, k), at[k]))
  }

  lemma {:induction false} SkipIsBlank(t: string, i: nat)
    requires i <= |t|
    ensures Blank(t, i, Skip(t, i))
    decreases |t| - i
  {
    if i < |t| && White(t[i]) {
      SkipIsBlank(t, i + 1);
    }
  }

  /** The token at a character that is not white. */
  lemma TokenAt(t: string, i: nat) returns (k: Tok)
    requires IsLine(t) && i < |t| && !White(t[i])
    ensures StandsAt(t, i, k) && |k.text| > 0
  {
    assert t[i] in t && t[i] != NUL;
    if Plain(t[i]) {
      var e := WordEnd(t, i);
      k := Tok('a', t[i..e]);
    } else if t[i] == '>' && i + 1 < |t| && t[i + 1] == '>' {
      k := Tok('+', ">>");
      assert t[i..i + 2] == ">>";
    } else {
      k := Tok(t[i], [t[i]]);
      assert t[i..i + 1] == [t[i]];
      SymbolIs(t[i]);
    }
  }

  lemma SymbolIs(c: char)
    requires Symbol(c)
    ensures c in "<|>&;()" && c != 'a' && c != '+'
  {
  }

  lemma {:induction false} LexOn(t: string, toks: seq<Tok>, at: seq<nat>) returns (toks': seq<Tok>, at': seq<nat>)
    requires LaidSoFar(t, toks, at)
    ensures Laid(t, toks', at')
    decreases |t| - To(toks, at, |toks|)
  {
    hide StandsAt, Blank, Skip, White, IsLine, Laid, LaidSoFar;
    SoFarFits(t, toks, at);
    var e := To(toks, at, |toks|);
    var a := Skip(t, e);
    SkipIsBlank(t, e);
    if a == |t| {
      toks', at' := toks, at;
      AllLaid(t, toks, at);
    } else {
      var k := TokenAt(t, a);
      OneMoreLaid(t, toks, at, k, a);
      toks', at' := LexOn(t, toks + [k], at + [a]);
    }
  }

  lemma SoFarFits(t: string, toks: seq<Tok>, at: seq<nat>)
    requires LaidSoFar(t, toks, at)
    ensures IsLine(t) && |at| == |toks| && To(toks, at, |toks|) <= |t|
  {
  }

  lemma AllLaid(t: string, toks: seq<Tok>, at: seq<nat>)
    requires LaidSoFar(t, toks, at) && Blank(t, To(toks, at, |toks|), |t|)
    ensures Laid(t, toks, at)
  {
    hide StandsAt, Blank, IsLine;
  }

  lemma OneMoreLaid(t: string, toks: seq<Tok>, at: seq<nat>, k: Tok, a: nat)
    requires LaidSoFar(t, toks, at) && StandsAt(t, a, k) && Blank(t, To(toks, at, |toks|), a)
    ensures LaidSoFar(t, toks + [k], at + [a]) && To(toks + [k], at + [a], |toks| + 1) == a + |k.text|
  {
    hide Blank, IsLine, LegalTok, Closed;
    var ts, as_ := toks + [k], at + [a];
    forall j | 0 <= j < |ts| ensures StandsAt(t, as_[j], ts[j]) && Blank(t, To(ts, as_, j), as_[j]) {
      assert To(ts, as_, j) == To(toks, at, j);
    }
  }

  lemma Tokens(t: string) returns (toks: seq<Tok>, at: seq<nat>)
    requires IsLine(t)
    ensures Laid(t, toks, at)
  {
    toks, at := LexOn(t, [], []);
  }

  // ----- the language

  /** t is a layout of a sentence that means tree. */
  ghost predicate Says(t: string, tree: Tree) {
    exists l, at :: LegalLine(l) && Laid(t, LineToks(l), at) && LineMeans(l) == tree
  }

  /** Every accepted line is a layout of a sentence, and means what that does. */
  lemma AcceptsOnly(t: string)
    requires IsLine(t) && ParseCmd(t).Ok?
    ensures Says(t, Resolve(t, ParseCmd(t).value))
  {
    hide ParseLine, Skip, LineToks, Resolve, LegalLine, LineMeans, Laid, IsLine;
    var toks, at := Tokens(t);
    IsLaid(t, toks, at);
    NextSkips(t, toks, at, 0);
    SkipFirst(t, 0);
    var l, n := LineSound(t, toks, at, 0);
    PartIn(toks, 0, n, LineToks(l));
    Sees(t, toks, at, n);
    AllRead(t, toks, at, n, LineToks(l));
  }

  lemma AllRead(t: string, toks: seq<Tok>, at: seq<nat>, n: nat, ys: seq<Tok>)
    requires Laid(t, toks, at) && Part(toks, 0, n, ys) && From(t, at, n) == |t|
    ensures toks == ys
  {
    if n < |toks| {
      Starts(t, at[n], toks[n]);
    } else {
      assert toks[0..n] == toks;
    }
  }

  /** parsecmd accepts a line with a meaning if and only if the line is a layout of
      a sentence with that meaning. */
  lemma Language(t: string, tree: Tree)
    requires IsLine(t)
    ensures ParseCmd(t).Ok? && Resolve(t, ParseCmd(t).value) == tree <==> Says(t, tree)
  {
    hide ParseCmd, Resolve, LegalLine, LineMeans, Laid, IsLine;
    if Says(t, tree) {
      var l, at :| LegalLine(l) && Laid(t, LineToks(l), at) && LineMeans(l) == tree;
      Accepts(t, l, at);
    }
    if ParseCmd(t).Ok? {
      AcceptsOnly(t);
    }
  }
}
