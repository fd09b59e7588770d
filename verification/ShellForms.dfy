/** Lines as people type them: words and redirections in any order, parentheses only
    where wanted, blanks anywhere. The parser accepts exactly these, and makes of each
    the command that it means. */
module ShellForms {
  import opened ShellGrammar
  import opened ShellPrint

  // ------------------------------------------------------------------------ forms

  datatype Into = Into(op: Op, file: string)

  datatype Item = Arg(word: string) | To(into: Into)

  datatype SimpleForm = Plain(items: seq<Item>) | Block(line: LineForm, intos: seq<Into>)

  datatype PipeForm = One(simple: SimpleForm) | More(simple: SimpleForm, rest: PipeForm)

  /** `backs` is the number of "&". */
  datatype LineForm = Last(pipe: PipeForm, backs: nat) | Then(pipe: PipeForm, backs: nat, rest: LineForm)

  function ArgsOf(items: seq<Item>): seq<string> {
    if items == [] then []
    else if items[0].Arg? then [items[0].word] + ArgsOf(items[1..]) else ArgsOf(items[1..])
  }

  function IntosOf(items: seq<Item>): seq<Into> {
    if items == [] then []
    else if items[0].To? then [items[0].into] + IntosOf(items[1..]) else IntosOf(items[1..])
  }

  /** Later redirections go around earlier ones. */
  function Around(t: Tree, xs: seq<Into>): Tree {
    if xs == [] then t else TRedir(Around(t, xs[..|xs| - 1]), xs[|xs| - 1].file, xs[|xs| - 1].op)
  }

  function Backed(t: Tree, n: nat): Tree
    decreases n
  {
    if n == 0 then t else Backed(TBack(t), n - 1)
  }

  /** What a form means. */
  function SimpleTree(f: SimpleForm): Tree {
    match f
    case Plain(items) => Around(TExec(ArgsOf(items)), IntosOf(items))
    case Block(line, xs) => Around(LineTree(line), xs)
  }

  function PipeTree(f: PipeForm): Tree {
    match f
    case One(s) => SimpleTree(s)
    case More(s, rest) => TPipe(SimpleTree(s), PipeTree(rest))
  }

  function LineTree(f: LineForm): Tree {
    match f
    case Last(p, n) => Backed(PipeTree(p), n)
    case Then(p, n, rest) => TList(Backed(PipeTree(p), n), LineTree(rest))
  }

  // ----------------------------------------------------------------------- tokens

  /** A word, or a symbol by its kind. */
  datatype Lex = LWord(text: string) | LSym(kind: char)

  function Kind(op: Op): char {
    match op
    case In => '<'
    case Out => '>'
    case Append => '+'
  }

  function IntoLex(x: Into): seq<Lex> {
    [LSym(Kind(x.op)), LWord(x.file)]
  }

  function IntosLex(xs: seq<Into>): seq<Lex> {
    if xs == [] then [] else IntoLex(xs[0]) + IntosLex(xs[1..])
  }

  function ItemLex(x: Item): seq<Lex> {
    match x
    case Arg(w) => [LWord(w)]
    case To(i) => IntoLex(i)
  }

  function ItemsLex(xs: seq<Item>): seq<Lex> {
    if xs == [] then [] else ItemLex(xs[0]) + ItemsLex(xs[1..])
  }

  function BacksLex(n: nat): seq<Lex> {
    if n == 0 then [] else [LSym('&')] + BacksLex(n - 1)
  }

  function SimpleLex(f: SimpleForm): seq<Lex> {
    match f
    case Plain(items) => ItemsLex(items)
    case Block(line, xs) => [LSym('(')] + (LineLex(line) + ([LSym(')')] + IntosLex(xs)))
  }

  function PipeLex(f: PipeForm): seq<Lex> {
    match f
    case One(s) => SimpleLex(s)
    case More(s, rest) => SimpleLex(s) + ([LSym('|')] + PipeLex(rest))
  }

  function LineLex(f: LineForm): seq<Lex> {
    match f
    case Last(p, n) => PipeLex(p) + BacksLex(n)
    case Then(p, n, rest) => PipeLex(p) + (BacksLex(n) + ([LSym(';')] + LineLex(rest)))
  }

  /** Few enough arguments. */
  predicate Fits(f: LineForm) {
    PipeFits(f.pipe) && (f.Then? ==> Fits(f.rest))
  }

  predicate PipeFits(f: PipeForm) {
    SimpleFits(f.simple) && (f.More? ==> PipeFits(f.rest))
  }

  predicate SimpleFits(f: SimpleForm) {
    match f
    case Plain(items) => |ArgsOf(items)| < MAXARGS
    case Block(line, _) => Fits(line)
  }

  // ----------------------------------------------------- the tokens of a line

  /** Not at a blank. */
  predicate Clean(b: string, p: nat) {
    p <= |b| && !IsSpace(CharAt(b, p))
  }

  predicate Is(b: string, t: Token, x: Lex) {
    match x
    case LWord(w) => t.kind == 'a' && t.start <= t.end <= |b| && b[t.start..t.end] == w
    case LSym(k) => t.kind == k && k in "<|>&;()+"
  }

  /** The tokens from p on are ts, and what follows is at e. */
  predicate Lexes(b: string, p: nat, ts: seq<Lex>, e: nat)
    requires IsLine(b) && Clean(b, p)
    decreases |ts|
  {
    if ts == [] then p == e
    else
      var t := GetToken(b, p);
      Is(b, t, ts[0]) && Clean(b, t.next) && Lexes(b, t.next, ts[1..], e)
  }

  lemma NextClean(b: string, p: nat)
    requires IsLine(b) && Clean(b, p)
    ensures Skip(b, p) == p && Clean(b, GetToken(b, p).next)
  {
  }

  lemma {:induction false} LexesClean(b: string, p: nat, ts: seq<Lex>, e: nat)
    requires IsLine(b) && Clean(b, p) && Lexes(b, p, ts, e)
    ensures p <= e && Clean(b, e)
    decreases |ts|
  {
    if ts != [] {
      LexesClean(b, GetToken(b, p).next, ts[1..], e);
    }
  }

  lemma {:induction false} LexesJoin(b: string, p: nat, xs: seq<Lex>, m: nat, ys: seq<Lex>, e: nat)
    requires IsLine(b) && Clean(b, p) && Lexes(b, p, xs, m) && Clean(b, m) && Lexes(b, m, ys, e)
    ensures Lexes(b, p, xs + ys, e)
    decreases |xs|
  {
    hide GetToken, Is, IsSpace;
    if xs == [] {
      assert xs + ys == ys;
    } else {
      LexesJoin(b, GetToken(b, p).next, xs[1..], m, ys, e);
      assert (xs + ys)[1..] == xs[1..] + ys;
    }
  }

  lemma {:induction false} LexesSplit(b: string, p: nat, xs: seq<Lex>, ys: seq<Lex>, e: nat) returns (m: nat)
    requires IsLine(b) && Clean(b, p) && Lexes(b, p, xs + ys, e)
    ensures p <= m <= e && Clean(b, m) && Clean(b, e) && Lexes(b, p, xs, m) && Lexes(b, m, ys, e)
    decreases |xs|
  {
    hide GetToken, Is, IsSpace;
    if xs == [] {
      assert xs + ys == ys;
      LexesClean(b, p, ys, e);
      m := p;
    } else {
      assert (xs + ys)[1..] == xs[1..] + ys;
      NextAfter(b, p);
      m := LexesSplit(b, GetToken(b, p).next, xs[1..], ys, e);
    }
  }

  lemma NextAfter(b: string, p: nat)
    requires IsLine(b) && p <= |b|
    ensures p <= GetToken(b, p).next <= |b|
  {
  }

  /** The first character of a token. */
  lemma FirstOf(b: string, p: nat, x: Lex)
    requires IsLine(b) && Clean(b, p) && Is(b, GetToken(b, p), x)
    ensures p < |b| && GetToken(b, p).start == p && p < GetToken(b, p).next
    ensures x.LSym? ==> b[p] == if x.kind == '+' then '>' else x.kind
    ensures x.LWord? ==> IsWord(b[p]) && WordAt(b, p, GetToken(b, p).end) && Word(b, Span(p, GetToken(b, p).end)) == x.text
  {
    NextClean(b, p);
  }

  lemma OneLex(b: string, p: nat, x: Lex, ts: seq<Lex>, e: nat) returns (m: nat)
    requires IsLine(b) && Clean(b, p) && Lexes(b, p, [x] + ts, e)
    ensures m == GetToken(b, p).next && p < m <= e && p < |b| && Clean(b, m) && Lexes(b, m, ts, e) && Is(b, GetToken(b, p), x)
    ensures GetToken(b, p).start == p && Skip(b, p) == p
    ensures x.LSym? ==> b[p] == if x.kind == '+' then '>' else x.kind
    ensures x.LWord? ==> IsWord(b[p]) && Word(b, Span(p, GetToken(b, p).end)) == x.text
  {
    hide GetToken, Is, IsSpace, IsWord;
    assert ([x] + ts)[1..] == ts;
    m := GetToken(b, p).next;
    FirstOf(b, p, x);
    NextClean(b, p);
    LexesClean(b, m, ts, e);
  }

  /** The parser peeks at the next character. */
  lemma PeekAt(b: string, p: nat, toks: string)
    requires Clean(b, p)
    ensures Skip(b, p) == p && (Peeks(b, p, toks) <==> CharAt(b, p) != NUL && CharAt(b, p) in toks)
  {
  }

  // ----------------------------------------------------- reading redirections back

  function IntoAt(b: string, r: Redirect): Into {
    Into(r.op, Word(b, r.file))
  }

  function IntosAt(b: string, rs: seq<Redirect>): (xs: seq<Into>)
    ensures |xs| == |rs| && forall i :: 0 <= i < |rs| ==> xs[i] == IntoAt(b, rs[i])
  {
    seq(|rs|, i requires 0 <= i < |rs| => IntoAt(b, rs[i]))
  }

  lemma {:induction false} ReadWrapped(b: string, c: Cmd, rs: seq<Redirect>)
    ensures Read(Wrapped(c, rs), b) == Around(Read(c, b), IntosAt(b, rs))
    decreases |rs|
  {
    if rs != [] {
      var init := rs[..|rs| - 1];
      ReadWrapped(b, c, init);
      assert IntosAt(b, rs)[..|rs| - 1] == IntosAt(b, init);
    }
  }

  lemma OpKind(op: Op)
    ensures OpOf(Kind(op)) == op && Kind(op) in "<>+" && Kind(op) in "<|>&;()+"
  {
  }

  lemma KindOp(k: char)
    requires k in "<>+"
    ensures Kind(OpOf(k)) == k
  {
  }

  /** One redirection is read. */
  lemma IntoRead(b: string, p: nat, x: Into, ts: seq<Lex>, e: nat, acc: seq<Redirect>) returns (m: nat, r: Redirect)
    requires IsLine(b) && Clean(b, p) && Lexes(b, p, IntoLex(x) + ts, e)
    ensures p < m <= e && Clean(b, m) && Lexes(b, m, ts, e) && IntoAt(b, r) == x && Redirs(b, p, acc) == Redirs(b, m, acc + [r])
  {
    hide GetToken, IsSpace, IsWord, OpOf, Kind;
    OpKind(x.op);
    assert IntoLex(x) + ts == [LSym(Kind(x.op))] + ([LWord(x.file)] + ts);
    var k := OneLex(b, p, LSym(Kind(x.op)), [LWord(x.file)] + ts, e);
    m := OneLex(b, k, LWord(x.file), ts, e);
    var f := GetToken(b, k);
    r := Redirect(Span(f.start, f.end), x.op);
    OpChar(b, p, Kind(x.op));
    PeekAt(b, p, "<>");
  }

  lemma OpChar(b: string, p: nat, k: char)
    requires p < |b| && k in "<>+" && b[p] == if k == '+' then '>' else k
    ensures CharAt(b, p) != NUL && CharAt(b, p) in "<>"
  {
  }

  lemma {:induction false} IntosRead(b: string, p: nat, xs: seq<Into>, e: nat, acc: seq<Redirect>) returns (rs: seq<Redirect>)
    requires IsLine(b) && Clean(b, p) && Lexes(b, p, IntosLex(xs), e) && CharAt(b, e) !in "<>"
    ensures Clean(b, e) && Redirs(b, p, acc) == Good(rs, e) && IntosAt(b, rs) == IntosAt(b, acc) + xs
    decreases |xs|
  {
    hide GetToken, IsSpace, IsWord, Redirs, IntoLex, Lexes;
    LexesClean(b, p, IntosLex(xs), e);
    if xs == [] {
      NothingMore(b, p, e, acc);
      rs := acc;
      assert IntosAt(b, acc) + xs == IntosAt(b, acc);
    } else {
      var m, r := IntoRead(b, p, xs[0], IntosLex(xs[1..]), e, acc);
      rs := IntosRead(b, m, xs[1..], e, acc + [r]);
      assert IntosAt(b, acc + [r]) == IntosAt(b, acc) + [xs[0]];
      assert IntosAt(b, acc) + [xs[0]] + xs[1..] == IntosAt(b, acc) + xs;
    }
  }

  lemma NothingMore(b: string, p: nat, e: nat, acc: seq<Redirect>)
    requires IsLine(b) && Clean(b, p) && Lexes(b, p, [], e) && CharAt(b, e) !in "<>"
    ensures p == e && Redirs(b, p, acc) == Good(acc, e)
  {
    PeekAt(b, p, "<>");
  }

  // -------------------------------------------------------------- simple commands

  /** parseexec() after a word, or at its start: redirections, then words. */
  function Items(b: string, p: nat, args: seq<Span>, acc: seq<Redirect>): Result<Cmd>
    requires IsLine(b) && p <= |b|
  {
    match Redirs(b, p, acc)
    case Bad => Bad
    case Good(rs, k) => Args(b, k, args, rs)
  }

  /** What ends a simple command, a pipeline and a line. */
  predicate EndsSimple(c: char) {
    c == NUL || c in "|)&;"
  }

  predicate EndsPipe(c: char) {
    c == NUL || c in ")&;"
  }

  predicate EndsLine(c: char) {
    c == NUL || c == ')'
  }

  lemma {:induction false} ItemsRead(b: string, p: nat, items: seq<Item>, e: nat, args: seq<Span>, acc: seq<Redirect>) returns (c: Cmd)
    requires IsLine(b) && Clean(b, p) && Lexes(b, p, ItemsLex(items), e) && EndsSimple(CharAt(b, e))
    requires |args| + |ArgsOf(items)| < MAXARGS
    ensures Clean(b, e) && Items(b, p, args, acc) == Good(c, e)
    ensures Read(c, b) == Around(TExec(Words(b, args) + ArgsOf(items)), IntosAt(b, acc) + IntosOf(items))
    decreases |items|
  {
    hide GetToken, IsSpace, IsWord, Redirs, Args, IntoLex, Lexes, Words, IntosAt, Read, Around;
    LexesClean(b, p, ItemsLex(items), e);
    if items == [] {
      NothingMore(b, p, e, acc);
      c := ArgsDone(b, p, e, args, acc);
      assert Words(b, args) + ArgsOf(items) == Words(b, args) && IntosAt(b, acc) + IntosOf(items) == IntosAt(b, acc);
    } else if items[0].To? {
      var m, r := IntoRead(b, p, items[0].into, ItemsLex(items[1..]), e, acc);
      c := ItemsRead(b, m, items[1..], e, args, acc + [r]);
      OneMoreInto(b, acc, r, IntosOf(items[1..]));
    } else {
      var m, s := ArgRead(b, p, items[0].word, ItemsLex(items[1..]), e, args, acc);
      c := ItemsRead(b, m, items[1..], e, args + [s], acc);
      OneMoreWord(b, args, s, ArgsOf(items[1..]));
    }
  }

  lemma OneMoreInto(b: string, acc: seq<Redirect>, r: Redirect, xs: seq<Into>)
    ensures IntosAt(b, acc + [r]) + xs == IntosAt(b, acc) + ([IntoAt(b, r)] + xs)
  {
  }

  lemma OneMoreWord(b: string, args: seq<Span>, s: Span, ws: seq<string>)
    ensures Words(b, args + [s]) + ws == Words(b, args) + ([Word(b, s)] + ws)
  {
  }

  lemma ArgsDone(b: string, p: nat, e: nat, args: seq<Span>, acc: seq<Redirect>) returns (c: Cmd)
    requires IsLine(b) && Clean(b, p) && p == e && EndsSimple(CharAt(b, e))
    ensures Args(b, p, args, acc) == Good(c, e) && Read(c, b) == Around(TExec(Words(b, args)), IntosAt(b, acc))
  {
    hide Wrapped, Words, IntosAt, Around;
    c := Wrapped(Exec(args), acc);
    PeekAt(b, p, "|)&;");
    ReadWrapped(b, Exec(args), acc);
  }

  /** One word is read. */
  lemma ArgRead(b: string, p: nat, w: string, ts: seq<Lex>, e: nat, args: seq<Span>, acc: seq<Redirect>) returns (m: nat, s: Span)
    requires IsLine(b) && Clean(b, p) && Lexes(b, p, [LWord(w)] + ts, e) && |args| + 1 < MAXARGS
    ensures p < m <= e && Clean(b, m) && Lexes(b, m, ts, e) && Word(b, s) == w && Items(b, p, args, acc) == Items(b, m, args + [s], acc)
  {
    hide GetToken, IsSpace, Lexes;
    m := OneLex(b, p, LWord(w), ts, e);
    s := Span(p, GetToken(b, p).end);
    PeekAt(b, p, "<>");
    PeekAt(b, p, "|)&;");
  }

  lemma PlainIs(b: string, p: nat, items: seq<Item>, e: nat)
    requires IsLine(b) && Clean(b, p) && Lexes(b, p, ItemsLex(items), e) && EndsSimple(CharAt(b, e))
    ensures Simple(b, p) == Items(b, p, [], [])
  {
    hide GetToken, IsSpace, Redirs, Args;
    NotOpen(b, p, items, e);
    PeekAt(b, p, "(");
  }

  lemma NotOpen(b: string, p: nat, items: seq<Item>, e: nat)
    requires IsLine(b) && Clean(b, p) && Lexes(b, p, ItemsLex(items), e) && EndsSimple(CharAt(b, e))
    ensures CharAt(b, p) != '('
  {
    hide GetToken, IsSpace, Is;
    if items != [] {
      if items[0].To? {
        OpKind(items[0].into.op);
        assert ItemsLex(items) == [LSym(Kind(items[0].into.op))] + ([LWord(items[0].into.file)] + ItemsLex(items[1..]));
        var m := OneLex(b, p, LSym(Kind(items[0].into.op)), [LWord(items[0].into.file)] + ItemsLex(items[1..]), e);
      } else {
        var m := OneLex(b, p, LWord(items[0].word), ItemsLex(items[1..]), e);
      }
    }
  }

  // ------------------------------------------------------------- completeness

  lemma {:induction false} SimpleRead(b: string, p: nat, f: SimpleForm, e: nat) returns (c: Cmd)
    requires IsLine(b) && Clean(b, p) && SimpleFits(f) && Lexes(b, p, SimpleLex(f), e) && EndsSimple(CharAt(b, e))
    ensures Clean(b, e) && Simple(b, p) == Good(c, e) && Read(c, b) == SimpleTree(f)
    decreases f, 0
  {
    hide GetToken, IsSpace, Simple, Group, Line, Redirs, Args, Items, Lexes, Read, Around, IntosLex, ItemsLex;
    match f {
      case Plain(items) =>
        c := ItemsRead(b, p, items, e, [], []);
        PlainIs(b, p, items, e);
        assert Words(b, []) + ArgsOf(items) == ArgsOf(items) && IntosAt(b, []) + IntosOf(items) == IntosOf(items);
      case Block(line, xs) =>
        var k := OneLex(b, p, LSym('('), LineLex(line) + ([LSym(')')] + IntosLex(xs)), e);
        var m := LexesSplit(b, k, LineLex(line), [LSym(')')] + IntosLex(xs), e);
        var n := OneLex(b, m, LSym(')'), IntosLex(xs), e);
        var d := LineReads(b, k, line, m);
        var rs := IntosRead(b, n, xs, e, []);
        assert IntosAt(b, []) + xs == xs;
        ReadWrapped(b, d, rs);
        BlockIs(b, p, k, d, m, n, rs, e);
        c := Wrapped(d, rs);
    }
  }

  lemma BlockIs(b: string, p: nat, k: nat, d: Cmd, m: nat, n: nat, rs: seq<Redirect>, e: nat)
    requires IsLine(b) && Clean(b, p) && p < |b| && b[p] == '(' && GetToken(b, p).next == k && Line(b, k) == Good(d, m)
    requires Clean(b, m) && m < |b| && b[m] == ')' && GetToken(b, m).next == n && Redirs(b, n, []) == Good(rs, e)
    ensures Simple(b, p) == Good(Wrapped(d, rs), e)
  {
    hide GetToken, IsSpace, Line, Redirs, Wrapped;
    PeekAt(b, p, "(");
    PeekAt(b, m, ")");
  }

  lemma {:induction false} PipeReads(b: string, p: nat, f: PipeForm, e: nat) returns (c: Cmd)
    requires IsLine(b) && Clean(b, p) && PipeFits(f) && Lexes(b, p, PipeLex(f), e) && EndsPipe(CharAt(b, e))
    ensures Clean(b, e) && Pipeline(b, p) == Good(c, e) && Read(c, b) == PipeTree(f)
    decreases f, 1
  {
    hide GetToken, IsSpace, Simple, Pipeline, Lexes, SimpleLex, SimpleFits, SimpleTree;
    match f {
      case One(s) =>
        c := SimpleRead(b, p, s, e);
        PipeOne(b, p, c, e);
      case More(s, rest) =>
        var m := LexesSplit(b, p, SimpleLex(s), [LSym('|')] + PipeLex(rest), e);
        var n := OneLex(b, m, LSym('|'), PipeLex(rest), e);
        var l := SimpleRead(b, p, s, m);
        var r := PipeReads(b, n, rest, e);
        PipeMore(b, p, l, m, n, r, e);
        c := Pipe(l, r);
    }
  }

  lemma PipeOne(b: string, p: nat, c: Cmd, e: nat)
    requires IsLine(b) && p <= |b| && Clean(b, e) && Simple(b, p) == Good(c, e) && CharAt(b, e) != '|'
    ensures Pipeline(b, p) == Good(c, e)
  {
    hide GetToken, IsSpace, Simple;
    PeekAt(b, e, "|");
  }

  lemma PipeMore(b: string, p: nat, l: Cmd, m: nat, n: nat, r: Cmd, e: nat)
    requires IsLine(b) && p <= m < |b| && Clean(b, m) && Simple(b, p) == Good(l, m) && b[m] == '|'
    requires GetToken(b, m).next == n && m < n <= |b| && Pipeline(b, n) == Good(r, e)
    ensures Pipeline(b, p) == Good(Pipe(l, r), e)
  {
    hide GetToken, IsSpace, Simple;
    PeekAt(b, m, "|");
  }

  lemma {:induction false} BacksRead(b: string, p: nat, n: nat, e: nat, c: Cmd) returns (d: Cmd)
    requires IsLine(b) && Clean(b, p) && Lexes(b, p, BacksLex(n), e) && CharAt(b, e) != '&'
    ensures Clean(b, e) && Backs(b, p, c) == (d, e) && Read(d, b) == Backed(Read(c, b), n)
    decreases n
  {
    hide GetToken, IsSpace, Lexes;
    LexesClean(b, p, BacksLex(n), e);
    PeekAt(b, p, "&");
    if n == 0 {
      NoLex(b, p, e);
      d := c;
    } else {
      var m := OneLex(b, p, LSym('&'), BacksLex(n - 1), e);
      d := BacksRead(b, m, n - 1, e, Back(c));
    }
  }

  lemma NoLex(b: string, p: nat, e: nat)
    requires IsLine(b) && Clean(b, p) && Lexes(b, p, [], e)
    ensures p == e
  {
  }

  lemma {:induction false} LineReads(b: string, p: nat, f: LineForm, e: nat) returns (c: Cmd)
    requires IsLine(b) && Clean(b, p) && Fits(f) && Lexes(b, p, LineLex(f), e) && EndsLine(CharAt(b, e))
    ensures Clean(b, e) && Line(b, p) == Good(c, e) && Read(c, b) == LineTree(f)
    decreases f, 2
  {
    hide GetToken, IsSpace, Pipeline, Line, Lexes, PipeLex, PipeFits, PipeTree, Backs, Backed;
    match f {
      case Last(q, n) =>
        var k := LexesSplit(b, p, PipeLex(q), BacksLex(n), e);
        BacksStart(b, k, n, [], e);
        var l := PipeReads(b, p, q, k);
        c := BacksRead(b, k, n, e, l);
        LineLast(b, p, l, k, c, e);
      case Then(q, n, rest) =>
        var ts := [LSym(';')] + LineLex(rest);
        var k := LexesSplit(b, p, PipeLex(q), BacksLex(n) + ts, e);
        var m := LexesSplit(b, k, BacksLex(n), ts, e);
        var j := OneLex(b, m, LSym(';'), LineLex(rest), e);
        BacksStart(b, k, n, ts, m);
        var l := PipeReads(b, p, q, k);
        var d := BacksRead(b, k, n, m, l);
        var r := LineReads(b, j, rest, e);
        LineThen(b, p, l, k, d, m, j, r, e);
        c := List(d, r);
    }
  }

  /** Behind a pipeline there is "&", or what follows the "&"s. */
  lemma BacksStart(b: string, p: nat, n: nat, ts: seq<Lex>, e: nat)
    requires IsLine(b) && Clean(b, p) && Lexes(b, p, BacksLex(n), e) && EndsPipe(CharAt(b, e))
    ensures EndsPipe(CharAt(b, p))
  {
    hide GetToken, IsSpace, Lexes;
    if n == 0 {
      NoLex(b, p, e);
    } else {
      var m := OneLex(b, p, LSym('&'), BacksLex(n - 1), e);
    }
  }

  lemma LineLast(b: string, p: nat, l: Cmd, k: nat, c: Cmd, e: nat)
    requires IsLine(b) && p <= k <= |b| && Pipeline(b, p) == Good(l, k) && Backs(b, k, l) == (c, e) && Clean(b, e) && CharAt(b, e) != ';'
    ensures Line(b, p) == Good(c, e)
  {
    hide GetToken, IsSpace, Pipeline, Backs;
    PeekAt(b, e, ";");
  }

  lemma LineThen(b: string, p: nat, l: Cmd, k: nat, d: Cmd, m: nat, j: nat, r: Cmd, e: nat)
    requires IsLine(b) && p <= k <= |b| && Pipeline(b, p) == Good(l, k) && Backs(b, k, l) == (d, m)
    requires p <= m < |b| && Clean(b, m) && b[m] == ';' && GetToken(b, m).next == j && m < j <= |b| && Line(b, j) == Good(r, e)
    ensures Line(b, p) == Good(List(d, r), e)
  {
    hide GetToken, IsSpace, Pipeline, Backs;
    PeekAt(b, m, ";");
  }

  /** A line that is made of the tokens of a form is read as what the form means. */
  lemma FormRead(b: string, f: LineForm)
    requires IsLine(b) && Fits(f) && Clean(b, Skip(b, 0)) && Lexes(b, Skip(b, 0), LineLex(f), |b|)
    ensures Command(b).Good? && Read(Command(b).value, b) == LineTree(f)
  {
    hide GetToken, Line, Lexes, LineLex, LineTree, Fits;
    var c := LineReads(b, Skip(b, 0), f, |b|);
    SkipStart(b, 0);
    assert Skip(b, |b|) == |b|;
  }

  /** Blanks in front do not matter. */
  lemma SkipStart(b: string, i: nat)
    requires IsLine(b) && i <= |b|
    ensures Line(b, i) == Line(b, Skip(b, i))
  {
    hide GetToken, Redirs, Args, Group;
    var j := Skip(b, i);
    assert Skip(b, j) == j;
    assert Simple(b, i) == Simple(b, j);
    assert Pipeline(b, i) == Pipeline(b, j);
  }

  // ------------------------------------------------------------------ typed lines

  /** A token with the blanks in front of it. */
  datatype Piece = Piece(blank: string, lex: Lex)

  function LexText(x: Lex): string {
    match x
    case LWord(w) => w
    case LSym(k) => if k == '+' then ">>" else [k]
  }

  function Typed(ps: seq<Piece>): string {
    if ps == [] then "" else ps[0].blank + (LexText(ps[0].lex) + Typed(ps[1..]))
  }

  function Lexs(ps: seq<Piece>): seq<Lex> {
    if ps == [] then [] else [ps[0].lex] + Lexs(ps[1..])
  }

  predicate Blank(s: string) {
    forall i :: 0 <= i < |s| ==> s[i] == ' ' || s[i] == '\t' || s[i] == '\r' || s[i] == '\n' || s[i] == '\U{000B}'
  }

  predicate LegalLex(x: Lex) {
    match x
    case LWord(w) => LegalWord(w)
    case LSym(k) => k in "<|>&;()+"
  }

  /** Without a blank between them the two would make one token. */
  predicate Glued(x: Lex, y: Lex) {
    (x.LWord? && y.LWord?) || (x == LSym('>') && (y == LSym('>') || y == LSym('+')))
  }

  predicate Typable(ps: seq<Piece>) {
    ps == [] || (
      && Blank(ps[0].blank) && LegalLex(ps[0].lex)
      && (|ps| > 1 && Glued(ps[0].lex, ps[1].lex) ==> ps[1].blank != "")
      && Typable(ps[1..]))
  }

  lemma {:induction false} SkipOver(b: string, p: nat, q: nat)
    requires p <= q <= |b| && (forall k :: p <= k < q ==> IsSpace(b[k])) && !IsSpace(CharAt(b, q))
    ensures Skip(b, p) == q
    decreases q - p
  {
    if p < q {
      SkipOver(b, p + 1, q);
    }
  }

  lemma {:induction false} TypedIsLine(ps: seq<Piece>)
    requires Typable(ps)
    ensures IsLine(Typed(ps))
  {
    if ps != [] {
      TypedIsLine(ps[1..]);
      assert LexText(ps[0].lex) == [] || NUL !in LexText(ps[0].lex);
      assert NUL !in ps[0].blank;
    }
  }

  /** What comes behind a token ends it. */
  lemma Behind(ps: seq<Piece>, trail: string, x: Lex)
    requires Typable(ps) && Blank(trail) && (ps != [] && Glued(x, ps[0].lex) ==> ps[0].blank != "")
    ensures var r := Typed(ps) + trail;
      r == "" || ((x.LWord? ==> !IsWord(r[0])) && (x == LSym('>') ==> r[0] != '>'))
  {
    if ps != [] && ps[0].blank == "" {
      var y := ps[0].lex;
      assert LexText(y) != "" && (Typed(ps) + trail)[0] == LexText(y)[0];
    } else if ps != [] {
      assert (Typed(ps) + trail)[0] == ps[0].blank[0];
    }
  }

  /** The token at q, whatever is behind it. */
  lemma TokenAt(b: string, q: nat, x: Lex)
    requires IsLine(b) && LegalLex(x) && At(b, q, LexText(x))
    requires var e := q + |LexText(x)|; e == |b| || ((x.LWord? ==> !IsWord(b[e])) && (x == LSym('>') ==> b[e] != '>'))
    ensures Clean(b, q) && var t := GetToken(b, q); Is(b, t, x) && t.next == Skip(b, q + |LexText(x)|)
  {
    AtChar(b, q, LexText(x));
    if x.LWord? {
      WordToken(b, q, x.text);
    } else if x.kind == '+' {
      assert b[q..q + 2][1] == '>';
    }
  }

  /** Typing tokens with blanks between them gives a line of these tokens. */
  lemma {:induction false} TypedLexes(b: string, p: nat, ps: seq<Piece>, trail: string)
    requires IsLine(b) && p <= |b| && b[p..] == Typed(ps) + trail && Typable(ps) && Blank(trail)
    ensures Clean(b, Skip(b, p)) && Lexes(b, Skip(b, p), Lexs(ps), |b|)
    decreases |ps|
  {
    hide GetToken, IsWord, Is, LegalLex, Typable, Blank;
    if ps == [] {
      assert b[p..] == trail;
      AllBlank(b, p, trail);
    } else {
      var x := ps[0].lex;
      var q, e := PieceAt(b, p, ps, trail);
      TokenAt(b, q, x);
      TypedLexes(b, e, ps[1..], trail);
      assert ([x] + Lexs(ps[1..]))[1..] == Lexs(ps[1..]);
    }
  }

  lemma AllBlank(b: string, p: nat, trail: string)
    requires p <= |b| && b[p..] == trail && Blank(trail)
    ensures Skip(b, p) == |b|
  {
    assert forall k :: p <= k < |b| ==> b[k] == trail[k - p];
    SkipOver(b, p, |b|);
  }

  lemma PieceAt(b: string, p: nat, ps: seq<Piece>, trail: string) returns (q: nat, e: nat)
    requires p <= |b| && ps != [] && b[p..] == Typed(ps) + trail && Typable(ps) && Blank(trail)
    ensures var x := ps[0].lex; LegalLex(x) && Typable(ps[1..]) && At(b, q, LexText(x)) && e == q + |LexText(x)| <= |b| && Skip(b, p) == q
    ensures var x := ps[0].lex; e == |b| || ((x.LWord? ==> !IsWord(b[e])) && (x == LSym('>') ==> b[e] != '>'))
    ensures b[e..] == Typed(ps[1..]) + trail
  {
    hide Typed, Typable, IsWord, LexText, LegalLex, At, Skip, Blank;
    var x, rest := ps[0].lex, Typed(ps[1..]) + trail;
    q := p + |ps[0].blank|;
    e := q + |LexText(x)|;
    TypableHead(ps, trail);
    Cut3(b, p, ps[0].blank, LexText(x), rest);
    Behind(ps[1..], trail, x);
    LexStarts(b, q, x);
    BlankSkip(b, p, ps[0].blank);
    assert e < |b| ==> b[e..][0] == b[e];
  }

  lemma TypableHead(ps: seq<Piece>, trail: string)
    requires ps != [] && Typable(ps)
    ensures Blank(ps[0].blank) && LegalLex(ps[0].lex) && Typable(ps[1..])
    ensures |ps| > 1 && Glued(ps[0].lex, ps[1].lex) ==> ps[1].blank != ""
    ensures Typed(ps) + trail == ps[0].blank + (LexText(ps[0].lex) + (Typed(ps[1..]) + trail))
  {
    hide Blank, LegalLex, LexText, Glued;
    Regroup(ps[0].blank, LexText(ps[0].lex), Typed(ps[1..]), trail);
  }

  lemma Regroup(x: string, y: string, z: string, w: string)
    ensures x + (y + z) + w == x + (y + (z + w))
  {
  }

  lemma LexStarts(b: string, q: nat, x: Lex)
    requires LegalLex(x) && At(b, q, LexText(x))
    ensures q < |b| && !IsSpace(b[q])
  {
    AtChar(b, q, LexText(x));
  }

  lemma BlankSkip(b: string, p: nat, blank: string)
    requires Blank(blank) && p + |blank| < |b| && (forall k :: p <= k < p + |blank| ==> b[k] == blank[k - p]) && !IsSpace(b[p + |blank|])
    ensures Skip(b, p) == p + |blank|
  {
    SkipOver(b, p, p + |blank|);
  }

  lemma Cut3(b: string, p: nat, x: string, y: string, z: string)
    requires p <= |b| && b[p..] == x + (y + z)
    ensures p + |x| + |y| <= |b| && b[p..p + |x|] == x && At(b, p + |x|, y) && b[p + |x| + |y|..] == z
    ensures forall k :: p <= k < p + |x| ==> b[k] == x[k - p]
  {
    var n := |b| - p;
    assert |x + (y + z)| == n;
    assert b[p..p + |x|] == (x + (y + z))[..|x|];
    assert b[p + |x|..p + |x| + |y|] == (x + (y + z))[|x|..|x| + |y|];
    assert b[p + |x| + |y|..] == (x + (y + z))[|x| + |y|..];
    forall k | p <= k < p + |x|
      ensures b[k] == x[k - p]
    {
      assert b[p..p + |x|][k - p] == b[k];
    }
  }

  /** Whatever one types to write down a form, with blanks as one likes, the shell
      reads it as what the form means. */
  lemma TypedRead(f: LineForm, ps: seq<Piece>, trail: string)
    requires Fits(f) && Typable(ps) && Lexs(ps) == LineLex(f) && Blank(trail)
    ensures var b := Typed(ps) + trail; IsLine(b) && Command(b).Good? && Read(Command(b).value, b) == LineTree(f)
  {
    hide Line, GetToken, Lexes, LineLex, LineTree, Fits, Typable;
    var b := Typed(ps) + trail;
    TypedIsLine(ps);
    assert NUL !in trail;
    assert b[0..] == b;
    TypedLexes(b, 0, ps, trail);
    FormRead(b, f);
  }

  // -------------------------------------------------------------------- soundness

  lemma LexesCons(b: string, p: nat, x: Lex, ts: seq<Lex>, e: nat)
    requires IsLine(b) && Clean(b, p) && Is(b, GetToken(b, p), x) && Clean(b, GetToken(b, p).next) && Lexes(b, GetToken(b, p).next, ts, e)
    ensures Lexes(b, p, [x] + ts, e)
  {
    assert ([x] + ts)[1..] == ts;
  }

  /** A symbol that the parser has peeked at, and takes. */
  lemma SymbolAt(b: string, p: nat, c: char)
    requires IsLine(b) && Clean(b, p) && p < |b| && b[p] == c && c in "<|&;()"
    ensures Is(b, GetToken(b, p), LSym(c)) && Clean(b, GetToken(b, p).next) && p < GetToken(b, p).next
  {
  }

  lemma OpAt(b: string, p: nat)
    requires IsLine(b) && Clean(b, p) && Peeks(b, p, "<>")
    ensures var t := GetToken(b, p); t.kind in "<>+" && Is(b, t, LSym(t.kind)) && Clean(b, t.next) && p < t.next
  {
    NextClean(b, p);
  }

  lemma WordIs(b: string, p: nat)
    requires IsLine(b) && Clean(b, p) && GetToken(b, p).kind == 'a'
    ensures var t := GetToken(b, p);
      t.start == p && Is(b, t, LWord(Word(b, Span(t.start, t.end)))) && Clean(b, t.next) && p < t.next
  {
    NextClean(b, p);
  }

  lemma {:induction false} RedirsForm(b: string, p: nat, acc: seq<Redirect>) returns (xs: seq<Into>)
    requires IsLine(b) && Clean(b, p) && Redirs(b, p, acc).Good?
    ensures var r := Redirs(b, p, acc);
      && Clean(b, r.pos) && p <= r.pos && Lexes(b, p, IntosLex(xs), r.pos) && CharAt(b, r.pos) !in "<>"
      && IntosAt(b, r.value) == IntosAt(b, acc) + xs
    decreases |b| - p
  {
    hide GetToken, IsSpace, IsWord, OpOf, Kind, Is, Lexes;
    PeekAt(b, p, "<>");
    if Peeks(b, p, "<>") {
      OpAt(b, p);
      var t := GetToken(b, p);
      WordIs(b, t.next);
      var f := GetToken(b, t.next);
      var r := Redirect(Span(f.start, f.end), OpOf(t.kind));
      var ys := RedirsForm(b, f.next, acc + [r]);
      var x := IntoAt(b, r);
      KindOp(t.kind);
      xs := [x] + ys;
      LexesCons(b, t.next, LWord(x.file), IntosLex(ys), Redirs(b, p, acc).pos);
      LexesCons(b, p, LSym(t.kind), [LWord(x.file)] + IntosLex(ys), Redirs(b, p, acc).pos);
      assert IntosLex(xs) == [LSym(t.kind)] + ([LWord(x.file)] + IntosLex(ys)) by {
        assert xs[1..] == ys;
      }
      OneMoreInto(b, acc, r, ys);
    } else {
      xs := [];
      Nothing(b, p);
      assert IntosAt(b, acc) + xs == IntosAt(b, acc);
    }
  }

  lemma Nothing(b: string, p: nat)
    requires IsLine(b) && Clean(b, p)
    ensures Lexes(b, p, [], p)
  {
  }

  function Tos(xs: seq<Into>): seq<Item> {
    if xs == [] then [] else [To(xs[0])] + Tos(xs[1..])
  }

  lemma ItemsCons(x: Item, items: seq<Item>)
    ensures ItemsLex([x] + items) == ItemLex(x) + ItemsLex(items)
    ensures ArgsOf([x] + items) == (if x.Arg? then [x.word] else []) + ArgsOf(items)
    ensures IntosOf([x] + items) == (if x.To? then [x.into] else []) + IntosOf(items)
  {
    assert ([x] + items)[1..] == items;
  }

  lemma {:induction false} TosAre(xs: seq<Into>, items: seq<Item>)
    ensures ItemsLex(Tos(xs) + items) == IntosLex(xs) + ItemsLex(items)
    ensures ArgsOf(Tos(xs) + items) == ArgsOf(items) && IntosOf(Tos(xs) + items) == xs + IntosOf(items)
  {
    hide IntoLex, ItemsLex, ArgsOf, IntosOf;
    if xs == [] {
      assert Tos(xs) + items == items;
    } else {
      var rest := Tos(xs[1..]) + items;
      TosAre(xs[1..], items);
      assert Tos(xs) + items == [To(xs[0])] + rest;
      ItemsCons(To(xs[0]), rest);
      assert IntoLex(xs[0]) + (IntosLex(xs[1..]) + ItemsLex(items)) == IntosLex(xs) + ItemsLex(items);
      assert [] + ArgsOf(rest) == ArgsOf(rest);
      assert [xs[0]] + (xs[1..] + IntosOf(items)) == xs + IntosOf(items);
    }
  }

  lemma {:induction false} ArgsForm(b: string, p: nat, args: seq<Span>, acc: seq<Redirect>) returns (items: seq<Item>)
    requires IsLine(b) && Clean(b, p) && Args(b, p, args, acc).Good? && |args| < MAXARGS
    ensures var r := Args(b, p, args, acc);
      && Clean(b, r.pos) && p <= r.pos && Lexes(b, p, ItemsLex(items), r.pos) && EndsSimple(CharAt(b, r.pos))
      && |args| + |ArgsOf(items)| < MAXARGS
      && Read(r.value, b) == Around(TExec(Words(b, args) + ArgsOf(items)), IntosAt(b, acc) + IntosOf(items))
    decreases |b| - p
  {
    hide GetToken, IsSpace, IsWord, Is, Lexes, Redirs, Read, Around, Words, IntosAt, Wrapped;
    PeekAt(b, p, "|)&;");
    EndToken(b, p);
    if Peeks(b, p, "|)&;") || GetToken(b, p).kind == NUL {
      items := [];
      Nothing(b, p);
      var c := ArgsDone(b, p, p, args, acc);
      assert Words(b, args) + ArgsOf(items) == Words(b, args) && IntosAt(b, acc) + IntosOf(items) == IntosAt(b, acc);
    } else {
      WordIs(b, p);
      var t := GetToken(b, p);
      var s := Span(t.start, t.end);
      var r := Redirs(b, t.next, acc);
      var xs := RedirsForm(b, t.next, acc);
      var more := ArgsForm(b, r.pos, args + [s], r.value);
      var e := Args(b, p, args, acc).pos;
      items := [Arg(Word(b, s))] + (Tos(xs) + more);
      TosAre(xs, more);
      LexesJoin(b, t.next, IntosLex(xs), r.pos, ItemsLex(more), e);
      LexesCons(b, p, LWord(Word(b, s)), IntosLex(xs) + ItemsLex(more), e);
      assert items[1..] == Tos(xs) + more;
      OneMoreWord(b, args, s, ArgsOf(more));
      assert IntosAt(b, acc) + xs + IntosOf(more) == IntosAt(b, acc) + (xs + IntosOf(more));
    }
  }

  lemma EndToken(b: string, p: nat)
    requires IsLine(b) && Clean(b, p)
    ensures GetToken(b, p).kind == NUL <==> p == |b|
    ensures p == |b| ==> GetToken(b, p).next == p && CharAt(b, p) == NUL
  {
  }

  lemma {:induction false} SimpleForms(b: string, p: nat) returns (f: SimpleForm)
    requires IsLine(b) && Clean(b, p) && Simple(b, p).Good?
    ensures var r := Simple(b, p);
      Clean(b, r.pos) && p <= r.pos && SimpleFits(f) && Lexes(b, p, SimpleLex(f), r.pos) && Read(r.value, b) == SimpleTree(f)
    decreases |b| - p, 1
  {
    hide GetToken, IsSpace, IsWord, Is, Lexes, Redirs, Args, Read, Around, Line, Wrapped, IntosLex, ItemsLex, Words, IntosAt;
    PeekAt(b, p, "(");
    if Peeks(b, p, "(") {
      SymbolAt(b, p, '(');
      var k := GetToken(b, p).next;
      var r := Line(b, k);
      var line := LineForms(b, k);
      PeekAt(b, r.pos, ")");
      SymbolAt(b, r.pos, ')');
      var n := GetToken(b, r.pos).next;
      var q := Redirs(b, n, []);
      var xs := RedirsForm(b, n, []);
      assert IntosAt(b, []) + xs == xs by { NoIntos(b, xs); }
      f := Block(line, xs);
      LexesCons(b, r.pos, LSym(')'), IntosLex(xs), q.pos);
      LexesJoin(b, k, LineLex(line), r.pos, [LSym(')')] + IntosLex(xs), q.pos);
      LexesCons(b, p, LSym('('), LineLex(line) + ([LSym(')')] + IntosLex(xs)), q.pos);
      ReadWrapped(b, r.value, q.value);
    } else {
      var r := Redirs(b, p, []);
      var xs := RedirsForm(b, p, []);
      var more := ArgsForm(b, r.pos, [], r.value);
      NoIntos(b, xs);
      NoWords(b, ArgsOf(more));
      TosAre(xs, more);
      f := Plain(Tos(xs) + more);
      LexesJoin(b, p, IntosLex(xs), r.pos, ItemsLex(more), Simple(b, p).pos);
    }
  }

  lemma NoIntos(b: string, xs: seq<Into>)
    ensures IntosAt(b, []) + xs == xs
  {
  }

  lemma NoWords(b: string, ws: seq<string>)
    ensures Words(b, []) + ws == ws
  {
  }

  lemma {:induction false} PipeForms(b: string, p: nat) returns (f: PipeForm)
    requires IsLine(b) && Clean(b, p) && Pipeline(b, p).Good?
    ensures var r := Pipeline(b, p);
      Clean(b, r.pos) && p <= r.pos && PipeFits(f) && Lexes(b, p, PipeLex(f), r.pos) && Read(r.value, b) == PipeTree(f)
    decreases |b| - p, 2
  {
    hide GetToken, IsSpace, IsWord, Is, Lexes, Simple, SimpleFits, SimpleLex, SimpleTree;
    var s := SimpleForms(b, p);
    var k := Simple(b, p).pos;
    PeekAt(b, k, "|");
    if Peeks(b, k, "|") {
      SymbolAt(b, k, '|');
      var n := GetToken(b, k).next;
      var rest := PipeForms(b, n);
      var e := Pipeline(b, n).pos;
      f := More(s, rest);
      LexesCons(b, k, LSym('|'), PipeLex(rest), e);
      LexesJoin(b, p, SimpleLex(s), k, [LSym('|')] + PipeLex(rest), e);
    } else {
      f := One(s);
    }
  }

  lemma {:induction false} BacksForm(b: string, p: nat, c: Cmd) returns (n: nat)
    requires IsLine(b) && Clean(b, p)
    ensures var r := Backs(b, p, c);
      Clean(b, r.1) && p <= r.1 && Lexes(b, p, BacksLex(n), r.1) && Read(r.0, b) == Backed(Read(c, b), n)
    decreases |b| - p
  {
    hide GetToken, IsSpace, IsWord, Is, Lexes;
    PeekAt(b, p, "&");
    if Peeks(b, p, "&") {
      SymbolAt(b, p, '&');
      var m := BacksForm(b, GetToken(b, p).next, Back(c));
      n := m + 1;
      LexesCons(b, p, LSym('&'), BacksLex(m), Backs(b, p, c).1);
    } else {
      n := 0;
      Nothing(b, p);
    }
  }

  lemma {:induction false} LineForms(b: string, p: nat) returns (f: LineForm)
    requires IsLine(b) && Clean(b, p) && Line(b, p).Good?
    ensures var r := Line(b, p);
      Clean(b, r.pos) && p <= r.pos && Fits(f) && Lexes(b, p, LineLex(f), r.pos) && Read(r.value, b) == LineTree(f)
    decreases |b| - p, 3
  {
    hide GetToken, IsSpace, IsWord, Is, Lexes, Pipeline, PipeFits, PipeLex, PipeTree, Backs, Backed, BacksLex;
    var q := PipeForms(b, p);
    var r := Pipeline(b, p);
    var n := BacksForm(b, r.pos, r.value);
    var (d, m) := Backs(b, r.pos, r.value);
    PeekAt(b, m, ";");
    if Peeks(b, m, ";") {
      SymbolAt(b, m, ';');
      var j := GetToken(b, m).next;
      var rest := LineForms(b, j);
      var e := Line(b, j).pos;
      f := Then(q, n, rest);
      LexesCons(b, m, LSym(';'), LineLex(rest), e);
      LexesJoin(b, r.pos, BacksLex(n), m, [LSym(';')] + LineLex(rest), e);
      LexesJoin(b, p, PipeLex(q), r.pos, BacksLex(n) + ([LSym(';')] + LineLex(rest)), e);
    } else {
      f := Last(q, n);
      LexesJoin(b, p, PipeLex(q), r.pos, BacksLex(n), m);
    }
  }

  /** The tokens of line b are those of form f. */
  ghost predicate Writes(f: LineForm, b: string)
    requires IsLine(b)
  {
    Clean(b, Skip(b, 0)) && Lexes(b, Skip(b, 0), LineLex(f), |b|)
  }

  /** The shell accepts exactly the lines that are forms with few enough arguments, and
      takes each for what the form means. */
  lemma AcceptedIff(b: string)
    requires IsLine(b)
    ensures Command(b).Good? <==> exists f :: Fits(f) && Writes(f, b)
    ensures forall f :: Fits(f) && Writes(f, b) ==> Command(b).Good? && Read(Command(b).value, b) == LineTree(f)
  {
    hide Line, GetToken, Lexes, LineLex, LineTree, Fits;
    forall f | Fits(f) && Writes(f, b)
      ensures Command(b).Good? && Read(Command(b).value, b) == LineTree(f)
    {
      FormRead(b, f);
    }
    if Command(b).Good? {
      SkipStart(b, 0);
      var f := LineForms(b, Skip(b, 0));
      assert Clean(b, Line(b, 0).pos);
      CleanEnd(b, Line(b, 0).pos);
      assert Writes(f, b);
    }
  }

  lemma CleanEnd(b: string, p: nat)
    requires Clean(b, p) && Skip(b, p) == |b|
    ensures p == |b|
  {
  }
}
