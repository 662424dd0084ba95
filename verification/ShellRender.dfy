/** Any command tree can be written down: every subcommand in parentheses, a
    space after every token. */
module ShellRender {
  import opened ShellGrammar
  import opened ShellSyntax

  /** Words are nonempty and plain, and there are fewer than MAXARGS of them. */
  predicate Legal(tree: Tree) {
    match tree
    case TExec(args) => |args| < MAX_ARGS && forall i :: 0 <= i < |args| ==> PlainWord(args[i])
    case TRedir(t, file, _) => Legal(t) && PlainWord(file)
    case TPipe(l, r) => Legal(l) && Legal(r)
    case TList(l, r) => Legal(l) && Legal(r)
    case TBack(t) => Legal(t)
  }

  function Args(ws: seq<string>): (xs: seq<Item>)
    ensures |xs| == |ws| && forall i :: 0 <= i < |ws| ==> xs[i] == Arg(ws[i])
  {
    seq(|ws|, i requires 0 <= i < |ws| => Arg(ws[i]))
  }

  function Sentence(tree: Tree): Line {
    match tree
    case TExec(args) => End(One(Words(Args(args))), 0)
    case TRedir(t, file, m) => End(One(Block(Sentence(t), [Redirect(m, file)])), 0)
    case TPipe(l, r) => End(Piped(Block(Sentence(l), []), One(Block(Sentence(r), []))), 0)
    case TList(l, r) => Then(One(Block(Sentence(l), [])), 0, End(One(Block(Sentence(r), [])), 0))
    case TBack(t) => End(One(Block(Sentence(t), [])), 1)
  }

  lemma {:induction false} ArgsMean(ws: seq<string>)
    ensures ArgsOf(Args(ws)) == ws && RedirsOf(Args(ws)) == []
  {
    if ws != [] {
      ArgsMean(ws[1..]);
      assert Args(ws)[1..] == Args(ws[1..]);
      assert ws == [ws[0]] + ws[1..];
    }
  }

  /** A sentence in parentheses means what it means without. */
  lemma Parenthesised(l: Line)
    requires LegalLine(l)
    ensures var s := Block(l, []);
            && LegalSimple(s) && LegalPipe(One(s)) && SimpleMeans(s) == PipeMeans(One(s)) == LineMeans(l)
            && LegalLine(End(One(s), 0)) && LineMeans(End(One(s), 0)) == LineMeans(l)
  {
  }

  lemma {:induction false} SentenceMeans(tree: Tree)
    requires Legal(tree)
    ensures LegalLine(Sentence(tree)) && LineMeans(Sentence(tree)) == tree
  {
    match tree
    case TExec(args) =>
      ArgsMean(args);
      var s := Words(Args(args));
      assert LegalSimple(s) && SimpleMeans(s) == tree;
      assert PipeMeans(One(s)) == tree;
    case TRedir(t, file, m) =>
      SentenceMeans(t);
      RedirMeans(Sentence(t), file, m);
    case TPipe(l, r) =>
      SentenceMeans(l);
      SentenceMeans(r);
      Parenthesised(Sentence(l));
      Parenthesised(Sentence(r));
      var p := Piped(Block(Sentence(l), []), One(Block(Sentence(r), [])));
      assert LegalPipe(p) && PipeMeans(p) == tree;
    case TList(l, r) =>
      SentenceMeans(l);
      SentenceMeans(r);
      Parenthesised(Sentence(l));
      Parenthesised(Sentence(r));
    case TBack(t) =>
      SentenceMeans(t);
      Parenthesised(Sentence(t));
      assert Backs(LineMeans(Sentence(t)), 1) == TBack(t);
  }

  lemma RedirMeans(l: Line, file: string, m: Mode)
    requires LegalLine(l) && PlainWord(file)
    ensures var x := End(One(Block(l, [Redirect(m, file)])), 0);
            LegalLine(x) && LineMeans(x) == TRedir(LineMeans(l), file, m)
  {
    var rs := [Redirect(m, file)];
    assert rs[1..] == [];
    assert Around(LineMeans(l), rs) == TRedir(LineMeans(l), file, m);
    assert SimpleMeans(Block(l, rs)) == TRedir(LineMeans(l), file, m);
    assert LegalSimple(Block(l, rs));
  }

  // ----- spelling

  function Spell(toks: seq<Tok>): string {
    if toks == [] then "" else Spell(toks[..|toks| - 1]) + (toks[|toks| - 1].text + " ")
  }

  /** The place of token k. */
  function PlaceOf(toks: seq<Tok>, k: nat): nat
    requires k <= |toks|
  {
    |Spell(toks[..k])|
  }

  function Places(toks: seq<Tok>): (at: seq<nat>)
    ensures |at| == |toks| && forall k :: 0 <= k < |toks| ==> at[k] == PlaceOf(toks, k)
  {
    seq(|toks|, k requires 0 <= k < |toks| => PlaceOf(toks, k))
  }

  lemma {:induction false} SpellPrefix(toks: seq<Tok>, k: nat)
    requires k <= |toks|
    ensures PlaceOf(toks, k) <= |Spell(toks)| && Spell(toks)[..PlaceOf(toks, k)] == Spell(toks[..k])
    decreases |toks|
  {
    if k == |toks| {
      assert toks[..k] == toks;
    } else {
      var rest := toks[..|toks| - 1];
      SpellPrefix(rest, k);
      assert rest[..k] == toks[..k];
    }
  }

  /** Token k and the space after it. */
  lemma Spelled(toks: seq<Tok>, k: nat)
    requires k < |toks|
    ensures var t, i, e := Spell(toks), PlaceOf(toks, k), PlaceOf(toks, k) + |toks[k].text|;
            PlaceOf(toks, k + 1) == e + 1 <= |t| && t[i..e] == toks[k].text && t[e] == ' '
  {
    var t, i, e := Spell(toks), PlaceOf(toks, k), PlaceOf(toks, k) + |toks[k].text|;
    assert toks[..k + 1][..k] == toks[..k];
    SpellPrefix(toks, k + 1);
    InPrefix(t, Spell(toks[..k]), toks[k].text);
  }

  lemma InPrefix(t: string, a: string, b: string)
    requires |a| + |b| + 1 <= |t| && t[..|a| + |b| + 1] == a + (b + " ")
    ensures t[|a|..|a| + |b|] == b && t[|a| + |b|] == ' '
  {
    var u := a + (b + " ");
    assert t[|a|..|a| + |b|] == u[|a|..|a| + |b|];
    assert t[|a| + |b|] == u[|a| + |b|];
  }

  lemma {:induction false} SpellIsLine(toks: seq<Tok>)
    requires forall k :: 0 <= k < |toks| ==> LegalTok(toks[k])
    ensures IsLine(Spell(toks))
  {
    if toks != [] {
      SpellIsLine(toks[..|toks| - 1]);
    }
  }

  lemma SpellLaid(toks: seq<Tok>)
    requires forall k :: 0 <= k < |toks| ==> LegalTok(toks[k])
    ensures Laid(Spell(toks), toks, Places(toks))
  {
    hide Spell, PlaceOf, LegalTok, IsLine, StandsAt, Blank, Places;
    var t, at := Spell(toks), Places(toks);
    SpellIsLine(toks);
    forall k | 0 <= k < |toks| ensures StandsAt(t, at[k], toks[k]) {
      SpellStands(toks, k);
    }
    forall k | 0 <= k <= |toks| ensures Blank(t, To(toks, at, k), From(t, at, k)) {
      SpellBlank(toks, k);
    }
  }

  lemma SpellStands(toks: seq<Tok>, k: nat)
    requires k < |toks| && LegalTok(toks[k])
    ensures StandsAt(Spell(toks), PlaceOf(toks, k), toks[k])
  {
    hide Spell, PlaceOf, LegalTok, Closed;
    Spelled(toks, k);
    SpaceCloses(Spell(toks), PlaceOf(toks, k) + |toks[k].text|, toks[k].kind);
  }

  lemma SpellBlank(toks: seq<Tok>, k: nat)
    requires k <= |toks|
    ensures Blank(Spell(toks), To(toks, Places(toks), k), From(Spell(toks), Places(toks), k))
  {
    hide Spell, PlaceOf, Blank, Places;
    Ends(toks);
    if k > 0 {
      Spelled(toks, k - 1);
      OneBlank(Spell(toks), PlaceOf(toks, k) - 1);
    } else {
      NoBlank(Spell(toks));
    }
  }

  lemma OneBlank(t: string, i: nat)
    requires i < |t| && t[i] == ' '
    ensures Blank(t, i, i + 1)
  {
  }

  lemma NoBlank(t: string)
    ensures Blank(t, 0, 0)
  {
  }

  lemma Ends(toks: seq<Tok>)
    ensures PlaceOf(toks, |toks|) == |Spell(toks)| && PlaceOf(toks, 0) == 0
  {
    assert toks[..|toks|] == toks && toks[..0] == [];
  }

  lemma SpaceCloses(t: string, e: nat, kind: char)
    requires e < |t| && t[e] == ' '
    ensures Closed(t, e, kind)
  {
  }

  // ----- sentences have legal tokens

  ghost predicate LegalToks(toks: seq<Tok>) {
    forall k :: 0 <= k < |toks| ==> LegalTok(toks[k])
  }

  lemma ToksJoin(a: seq<Tok>, b: seq<Tok>)
    requires LegalToks(a) && LegalToks(b)
    ensures LegalToks(a + b)
  {
    hide LegalTok;
  }

  lemma SymLegal(c: char)
    requires c in "|()&;"
    ensures LegalToks(Sym(c))
  {
  }

  lemma {:induction false} ItemsLegal(xs: seq<Item>)
    requires forall i :: 0 <= i < |xs| ==> LegalItem(xs[i])
    ensures LegalToks(ItemsToks(xs))
  {
    if xs != [] {
      ItemsLegal(xs[1..]);
      ItemLegal(xs[0]);
      ToksJoin(ItemToks(xs[0]), ItemsToks(xs[1..]));
    }
  }

  lemma ItemLegal(x: Item)
    requires LegalItem(x)
    ensures LegalToks(ItemToks(x))
  {
  }

  lemma {:induction false} AndsLegal(n: nat)
    ensures LegalToks(Ands(n))
  {
    if n > 0 {
      AndsLegal(n - 1);
      SymLegal('&');
      ToksJoin(Sym('&'), Ands(n - 1));
    }
  }

  lemma {:induction false} SimpleLegal(s: Simple)
    requires LegalSimple(s)
    ensures LegalToks(SimpleToks(s))
  {
    hide LegalToks, Sym, ItemsToks, LineToks;
    match s
    case Words(xs) => ItemsLegal(xs);
    case Block(l, rs) =>
      LineLegal(l);
      ItemsLegal(rs);
      SymLegal('(');
      SymLegal(')');
      ToksJoin(Sym(')'), ItemsToks(rs));
      ToksJoin(LineToks(l), Sym(')') + ItemsToks(rs));
      ToksJoin(Sym('('), LineToks(l) + (Sym(')') + ItemsToks(rs)));
  }

  lemma {:induction false} PipeLegal(p: Pipeline)
    requires LegalPipe(p)
    ensures LegalToks(PipeToks(p))
  {
    hide LegalToks, Sym, SimpleToks;
    SimpleLegal(p.s);
    if p.Piped? {
      PipeLegal(p.rest);
      SymLegal('|');
      ToksJoin(Sym('|'), PipeToks(p.rest));
      ToksJoin(SimpleToks(p.s), Sym('|') + PipeToks(p.rest));
    }
  }

  lemma {:induction false} LineLegal(l: Line)
    requires LegalLine(l)
    ensures LegalToks(LineToks(l))
  {
    hide LegalToks, Sym, PipeToks, Ands;
    PipeLegal(l.p);
    AndsLegal(l.backs);
    match l
    case End(p, n) => ToksJoin(PipeToks(p), Ands(n));
    case Then(p, n, rest) =>
      LineLegal(rest);
      SymLegal(';');
      ToksJoin(Sym(';'), LineToks(rest));
      ToksJoin(Ands(n), Sym(';') + LineToks(rest));
      ToksJoin(PipeToks(p), Ands(n) + (Sym(';') + LineToks(rest)));
  }

  /** Every sentence, spelled out, is accepted with its meaning. */
  lemma SentenceParses(l: Line)
    requires LegalLine(l)
    ensures IsLine(Spell(LineToks(l)))
    ensures var t := Spell(LineToks(l)); ParseCmd(t).Ok? && Resolve(t, ParseCmd(t).value) == LineMeans(l)
  {
    hide Spell, LineToks, ParseCmd, Resolve, LineMeans, Laid;
    LineLegal(l);
    SpellLaid(LineToks(l));
    Accepts(Spell(LineToks(l)), l, Places(LineToks(l)));
  }

  function Render(tree: Tree): string {
    Spell(LineToks(Sentence(tree)))
  }

  /** parsecmd reads the rendering of any command tree back as that tree. */
  lemma RoundTrip(tree: Tree)
    requires Legal(tree)
    ensures IsLine(Render(tree))
    ensures var r := ParseCmd(Render(tree)); r.Ok? && Resolve(Render(tree), r.value) == tree
  {
    hide Spell, LineToks, ParseCmd, Resolve, LineMeans;
    SentenceMeans(tree);
    SentenceParses(Sentence(tree));
  }
}
