/** Printing a command with all its parentheses, and reading it back. */
module ShellPrint {
  import opened ShellGrammar

  /** A command with its words. */
  datatype Tree =
    | TExec(words: seq<string>)
    | TRedir(cmd: Tree, file: string, op: Op)
    | TPipe(left: Tree, right: Tree)
    | TList(left: Tree, right: Tree)
    | TBack(cmd: Tree)

  predicate LegalWord(w: string) {
    w != "" && forall i :: 0 <= i < |w| ==> IsWord(w[i])
  }

  predicate Legal(t: Tree) {
    match t
    case TExec(ws) => |ws| < MAXARGS && forall i :: 0 <= i < |ws| ==> LegalWord(ws[i])
    case TRedir(c, f, _) => Legal(c) && LegalWord(f)
    case TPipe(l, r) => Legal(l) && Legal(r)
    case TList(l, r) => Legal(l) && Legal(r)
    case TBack(c) => Legal(c)
  }

  function Text(op: Op): string {
    match op
    case In => "<"
    case Out => ">"
    case Append => ">>"
  }

  function Joined(ws: seq<string>): string {
    if ws == [] then "" else if |ws| == 1 then ws[0] else ws[0] + (" " + Joined(ws[1..]))
  }

  function Quoted(t: Tree): string
    decreases t, 1
  {
    "(" + Print(t) + ")"
  }

  function Print(t: Tree): string
    decreases t, 0
  {
    match t
    case TExec(ws) => Joined(ws)
    case TRedir(c, f, op) => Quoted(c) + Text(op) + f
    case TPipe(l, r) => Quoted(l) + "|" + Quoted(r)
    case TList(l, r) => Quoted(l) + ";" + Quoted(r)
    case TBack(c) => Quoted(c) + "&"
  }

  // --------------------------------------------------------------- reading words

  function Word(b: string, s: Span): string {
    if s.start <= s.end <= |b| then b[s.start..s.end] else ""
  }

  function Words(b: string, ss: seq<Span>): (ws: seq<string>)
    ensures |ws| == |ss| && forall i :: 0 <= i < |ss| ==> ws[i] == Word(b, ss[i])
  {
    seq(|ss|, i requires 0 <= i < |ss| => Word(b, ss[i]))
  }

  function Read(c: Cmd, b: string): Tree {
    match c
    case Exec(argv) => TExec(Words(b, argv))
    case Redir(d, r) => TRedir(Read(d, b), Word(b, r.file), r.op)
    case Pipe(l, r) => TPipe(Read(l, b), Read(r, b))
    case List(l, r) => TList(Read(l, b), Read(r, b))
    case Back(d) => TBack(Read(d, b))
  }

  // ------------------------------------------------------------------- positions

  /** s stands at position p. */
  predicate At(b: string, p: nat, s: string) {
    p + |s| <= |b| && b[p..p + |s|] == s
  }

  lemma AtSplit(b: string, p: nat, s: string, t: string)
    requires At(b, p, s + t)
    ensures At(b, p, s) && At(b, p + |s|, t)
  {
    assert b[p..p + |s|] == (s + t)[..|s|];
    assert b[p + |s|..p + |s| + |t|] == (s + t)[|s|..];
  }

  lemma AtChar(b: string, p: nat, s: string)
    requires At(b, p, s) && s != ""
    ensures p < |b| && b[p] == s[0]
  {
    assert b[p..p + |s|][0] == b[p];
  }

  /** The text ends here, or a closing parenthesis follows. */
  predicate Stops(b: string, p: nat) {
    p == |b| || (p < |b| && b[p] == ')')
  }

  // --------------------------------------------------------------------- tokens

  lemma SymbolToken(b: string, p: nat, c: char)
    requires IsLine(b) && p < |b| && b[p] == c && IsSymbol(c) && c != '>' && !IsSpace(CharAt(b, p + 1))
    ensures Skip(b, p) == p && GetToken(b, p) == Token(c, p, p + 1, p + 1)
  {
  }

  lemma WordToken(b: string, p: nat, w: string)
    requires IsLine(b) && LegalWord(w) && At(b, p, w) && !IsWord(CharAt(b, p + |w|))
    ensures Skip(b, p) == p && GetToken(b, p).kind == 'a' && GetToken(b, p).start == p && GetToken(b, p).end == p + |w|
    ensures GetToken(b, p).next == Skip(b, p + |w|)
    ensures IsWord(b[p])
  {
    AtChar(b, p, w);
    assert forall k :: p <= k < p + |w| ==> b[k] == w[k - p] by {
      assert forall k :: p <= k < p + |w| ==> b[p..p + |w|][k - p] == b[k];
    }
    WordEnds(b, p, p + |w|);
  }

  lemma {:induction false} WordEnds(b: string, i: nat, j: nat)
    requires i <= j <= |b| && (forall k :: i <= k < j ==> IsWord(b[k])) && (j == |b| || !IsWord(b[j])) && IsLine(b)
    ensures WordEnd(b, i) == j
    decreases j - i
  {
    if i < j {
      WordEnds(b, i + 1, j);
    }
  }

  lemma NoRedirs(b: string, p: nat, rs: seq<Redirect>)
    requires IsLine(b) && p <= |b| && !IsSpace(CharAt(b, p)) && CharAt(b, p) != '<' && CharAt(b, p) != '>'
    ensures Redirs(b, p, rs) == Good(rs, p)
  {
  }

  // --------------------------------------------------- one step of the grammar

  /** Neither a space nor one of toks. */
  predicate Clear(b: string, p: nat, toks: string) {
    !IsSpace(CharAt(b, p)) && CharAt(b, p) !in toks
  }

  lemma ArgsWord(b: string, p: nat, e: nat, n: nat, args: seq<Span>)
    requires IsLine(b) && p < |b| && IsWord(b[p]) && p < e <= n <= |b| && GetToken(b, p) == Token('a', p, e, n)
    requires |args| + 1 < MAXARGS && Clear(b, n, "<>")
    ensures Args(b, p, args, []) == Args(b, n, args + [Span(p, e)], [])
  {
    NoRedirs(b, n, []);
    assert Skip(b, p) == p;
  }

  lemma ArgsEnd(b: string, p: nat, args: seq<Span>)
    requires IsLine(b) && p <= |b| && Stops(b, p)
    ensures Args(b, p, args, []) == Good(Exec(args), p)
  {
    assert Wrapped(Exec(args), []) == Exec(args);
  }

  lemma SimpleArgs(b: string, p: nat)
    requires IsLine(b) && p <= |b| && Clear(b, p, "<>(")
    ensures Simple(b, p) == Args(b, p, [], [])
  {
    NoRedirs(b, p, []);
  }

  lemma SimpleGroup(b: string, p: nat)
    requires IsLine(b) && p < |b| && b[p] == '('
    ensures Simple(b, p) == Group(b, p)
  {
  }

  lemma GroupIs(b: string, p: nat, c: Cmd, k: nat, rs: seq<Redirect>, m: nat)
    requires IsLine(b) && p < |b| && b[p] == '(' && !IsSpace(CharAt(b, p + 1)) && Line(b, p + 1) == Good(c, k)
    requires k < |b| && b[k] == ')' && !IsSpace(CharAt(b, k + 1)) && Redirs(b, k + 1, []) == Good(rs, m)
    ensures Group(b, p) == Good(Wrapped(c, rs), m)
  {
    hide Line, Redirs, Wrapped;
    SymbolToken(b, p, '(');
    SymbolToken(b, k, ')');
  }

  lemma PipelineStop(b: string, p: nat, c: Cmd, k: nat)
    requires IsLine(b) && p <= k <= |b| && Simple(b, p) == Good(c, k) && Clear(b, k, "|")
    ensures Pipeline(b, p) == Good(c, k)
  {
    hide Simple;
  }

  lemma PipelinePipe(b: string, p: nat, c: Cmd, k: nat, d: Cmd, m: nat)
    requires IsLine(b) && p <= k < |b| && Simple(b, p) == Good(c, k) && b[k] == '|' && !IsSpace(CharAt(b, k + 1))
    requires Pipeline(b, k + 1) == Good(d, m)
    ensures Pipeline(b, p) == Good(Pipe(c, d), m)
  {
    hide Simple;
    SymbolToken(b, k, '|');
  }

  lemma LineStop(b: string, p: nat, c: Cmd, k: nat)
    requires IsLine(b) && p <= k <= |b| && Pipeline(b, p) == Good(c, k) && Clear(b, k, "&;")
    ensures Line(b, p) == Good(c, k)
  {
    hide Pipeline;
    assert Backs(b, k, c) == (c, k);
  }

  lemma LineList(b: string, p: nat, c: Cmd, k: nat, d: Cmd, m: nat)
    requires IsLine(b) && p <= k < |b| && Pipeline(b, p) == Good(c, k) && b[k] == ';' && !IsSpace(CharAt(b, k + 1))
    requires Line(b, k + 1) == Good(d, m)
    ensures Line(b, p) == Good(List(c, d), m)
  {
    hide Pipeline;
    assert Backs(b, k, c) == (c, k);
    SymbolToken(b, k, ';');
  }

  lemma LineBack(b: string, p: nat, c: Cmd, k: nat)
    requires IsLine(b) && p <= k < |b| && Pipeline(b, p) == Good(c, k) && b[k] == '&' && Clear(b, k + 1, "&;")
    ensures Line(b, p) == Good(Back(c), k + 1)
  {
    hide Pipeline;
    SymbolToken(b, k, '&');
    assert Backs(b, k + 1, Back(c)) == (Back(c), k + 1);
    assert Backs(b, k, c) == Backs(b, k + 1, Back(c));
  }

  // --------------------------------------------------------------- simple commands

  lemma {:induction false} ArgsRead(b: string, p: nat, ws: seq<string>, args: seq<Span>)
    requires IsLine(b) && At(b, p, Joined(ws)) && Stops(b, p + |Joined(ws)|)
    requires (forall i :: 0 <= i < |ws| ==> LegalWord(ws[i])) && |args| + |ws| < MAXARGS
    ensures var r := Args(b, p, args, []);
      r.Good? && r.pos == p + |Joined(ws)| && r.value.Exec? && Words(b, r.value.argv) == Words(b, args) + ws
    decreases |ws|
  {
    hide Args, GetToken, Skip, IsWord, IsSpace, At, Stops, LegalWord;
    if ws == [] {
      assert p + |Joined(ws)| == p;
      StopsClear(b, p);
      ArgsEnd(b, p, args);
      assert Words(b, args) + ws == Words(b, args);
    } else {
      var w := ws[0];
      assert LegalWord(ws[0]);
      NextWord(b, p, ws);
      var q := p + |w| + if |ws| == 1 then 0 else 1;
      var args' := args + [Span(p, p + |w|)];
      ArgsWord(b, p, p + |w|, q, args);
      ArgsRead(b, q, ws[1..], args');
      assert Words(b, args') == Words(b, args) + [w];
      assert Words(b, args) + [w] + ws[1..] == Words(b, args) + ws;
    }
  }

  /** One word, and the separator behind it. */
  lemma NextWord(b: string, p: nat, ws: seq<string>)
    requires IsLine(b) && ws != [] && At(b, p, Joined(ws)) && Stops(b, p + |Joined(ws)|)
    requires forall i :: 0 <= i < |ws| ==> LegalWord(ws[i])
    ensures var w := ws[0]; var q := p + |w| + if |ws| == 1 then 0 else 1;
      && |w| > 0 && q <= |b| && p < |b| && IsWord(b[p]) && GetToken(b, p) == Token('a', p, p + |w|, q)
      && Clear(b, q, "<>") && Word(b, Span(p, p + |w|)) == w
      && At(b, q, Joined(ws[1..])) && q + |Joined(ws[1..])| == p + |Joined(ws)|
  {
    hide GetToken, Skip, IsWord, IsSpace, Stops, Clear, Joined;
    var w := ws[0];
    assert LegalWord(ws[0]);
    var rest := if |ws| == 1 then "" else " " + Joined(ws[1..]);
    JoinedSplit(ws);
    AtSplit(b, p, w, rest);
    AfterWord(b, p + |w|, ws);
    WordToken(b, p, w);
    TokenIs(b, p);
  }

  lemma JoinedSplit(ws: seq<string>)
    requires ws != []
    ensures Joined(ws) == ws[0] + if |ws| == 1 then "" else " " + Joined(ws[1..])
    ensures |ws| == 1 ==> Joined(ws[1..]) == ""
  {
    assert |ws| == 1 ==> ws[0] + "" == ws[0];
  }

  lemma TokenIs(b: string, p: nat)
    requires IsLine(b) && p <= |b|
    ensures var t := GetToken(b, p); t == Token(t.kind, t.start, t.end, t.next)
  {
  }

  /** What follows a word: the end, or one space and the next word. */
  lemma AfterWord(b: string, p: nat, ws: seq<string>)
    requires IsLine(b) && ws != [] && (forall i :: 0 <= i < |ws| ==> LegalWord(ws[i]))
    requires At(b, p, if |ws| == 1 then "" else " " + Joined(ws[1..]))
    requires |ws| == 1 ==> Stops(b, p)
    requires |ws| > 1 ==> Stops(b, p + 1 + |Joined(ws[1..])|)
    ensures p <= |b| && !IsWord(CharAt(b, p))
    ensures var q := p + if |ws| == 1 then 0 else 1;
      q <= |b| && Skip(b, p) == q && Clear(b, q, "<>") && At(b, q, Joined(ws[1..]))
  {
    if |ws| > 1 {
      AtSplit(b, p, " ", Joined(ws[1..]));
      AtChar(b, p, " ");
      FirstChar(ws[1..]);
      AtChar(b, p + 1, Joined(ws[1..]));
      assert Skip(b, p + 1) == p + 1;
    } else {
      assert ws[1..] == [];
    }
  }

  lemma FirstChar(ws: seq<string>)
    requires ws != [] && LegalWord(ws[0])
    ensures Joined(ws) != "" && IsWord(Joined(ws)[0])
  {
  }

  // ------------------------------------------------------------------- the theorem

  /** Where the parts of a parenthesised command are. */
  lemma InQuotes(b: string, p: nat, t: Tree)
    requires Legal(t) && At(b, p, Quoted(t))
    ensures var k := p + 1 + |Print(t)|;
      && k + 1 == p + |Quoted(t)| <= |b| && b[p] == '(' && b[k] == ')'
      && At(b, p + 1, Print(t)) && Stops(b, k) && !IsSpace(CharAt(b, p + 1))
  {
    var s := Print(t);
    assert Quoted(t) == "(" + (s + ")");
    AtSplit(b, p, "(", s + ")");
    AtSplit(b, p + 1, s, ")");
    AtChar(b, p, "(");
    AtChar(b, p + 1 + |s|, ")");
    StartsWell(b, p + 1, t);
  }

  /** The text of a command does not start with a space. */
  lemma StartsWell(b: string, p: nat, t: Tree)
    requires Legal(t) && At(b, p, Print(t)) && Stops(b, p + |Print(t)|)
    ensures p <= |b| && !IsSpace(CharAt(b, p))
  {
    if Print(t) != "" {
      PrintStarts(t);
      AtChar(b, p, Print(t));
    }
  }

  lemma PrintStarts(t: Tree)
    requires Legal(t) && Print(t) != ""
    ensures !IsSpace(Print(t)[0])
  {
    match t {
      case TExec(ws) =>
        assert LegalWord(ws[0]);
        FirstChar(ws);
      case TRedir(c, f, op) => assert Print(t)[0] == Quoted(c)[0];
      case TPipe(l, r) => assert Print(t)[0] == Quoted(l)[0];
      case TList(l, r) => assert Print(t)[0] == Quoted(l)[0];
      case TBack(c) => assert Print(t)[0] == Quoted(c)[0];
    }
  }

  /** Reading a parenthesised command with the redirections behind it. */
  lemma {:induction false} GroupRead(b: string, p: nat, t: Tree, rs: seq<Redirect>, m: nat) returns (c: Cmd)
    requires IsLine(b) && Legal(t) && At(b, p, Quoted(t)) && !IsSpace(CharAt(b, p + |Quoted(t)|))
    requires p + |Quoted(t)| <= |b| && Redirs(b, p + |Quoted(t)|, []) == Good(rs, m)
    ensures Simple(b, p) == Good(Wrapped(c, rs), m) && Read(c, b) == t
    decreases t, 2
  {
    hide Line, Redirs, Simple, Group, Read, Print, Quoted, Wrapped, At, Stops;
    InQuotes(b, p, t);
    LineRead(b, p + 1, t);
    c := Line(b, p + 1).value;
    GroupIs(b, p, c, p + 1 + |Print(t)|, rs, m);
    SimpleGroup(b, p);
  }

  /** Parsing the printed form gives the command back and stops behind it. */
  lemma {:induction false} LineRead(b: string, p: nat, t: Tree)
    requires IsLine(b) && Legal(t) && At(b, p, Print(t)) && Stops(b, p + |Print(t)|)
    ensures var r := Line(b, p); r.Good? && r.pos == p + |Print(t)| && Read(r.value, b) == t
    decreases t, 1
  {
    hide Line, Read, At, Stops, Quoted;
    match t {
      case TExec(ws) => ExecRead(b, p, ws);
      case TRedir(c, f, op) => RedirRead(b, p, c, f, op);
      case TPipe(l, r) => PipeRead(b, p, l, r);
      case TList(l, r) => ListRead(b, p, l, r);
      case TBack(c) => BackRead(b, p, c);
    }
  }

  /** Nothing more on this line. */
  lemma LineEnds(b: string, p: nat, e: nat, c: Cmd)
    requires IsLine(b) && p <= e <= |b| && Stops(b, e) && Simple(b, p) == Good(c, e)
    ensures Pipeline(b, p) == Good(c, e) && Line(b, p) == Good(c, e)
  {
    hide Simple, Pipeline, Line;
    PipelineStop(b, p, c, e);
    LineStop(b, p, c, e);
  }

  lemma ExecRead(b: string, p: nat, ws: seq<string>)
    requires IsLine(b) && Legal(TExec(ws)) && At(b, p, Joined(ws)) && Stops(b, p + |Joined(ws)|)
    ensures var r := Line(b, p); r.Good? && r.pos == p + |Joined(ws)| && Read(r.value, b) == TExec(ws)
  {
    hide Line, Pipeline, Simple, Args, At, Stops, IsWord;
    NotOpening(b, p, ws);
    ArgsRead(b, p, ws, []);
    SimpleArgs(b, p);
    assert Words(b, []) + ws == ws;
    var r := Args(b, p, [], []);
    LineEnds(b, p, p + |Joined(ws)|, r.value);
  }

  lemma NotOpening(b: string, p: nat, ws: seq<string>)
    requires Legal(TExec(ws)) && At(b, p, Joined(ws)) && Stops(b, p + |Joined(ws)|)
    ensures p <= |b| && Clear(b, p, "<>(")
  {
    if ws != [] {
      FirstChar(ws);
      AtChar(b, p, Joined(ws));
    }
  }

  /** A group with nothing behind it that belongs to it. */
  lemma {:induction false} GroupAlone(b: string, p: nat, t: Tree) returns (c: Cmd)
    requires IsLine(b) && Legal(t) && At(b, p, Quoted(t)) && Clear(b, p + |Quoted(t)|, "<>")
    ensures p + |Quoted(t)| <= |b| && Simple(b, p) == Good(c, p + |Quoted(t)|) && Read(c, b) == t
    decreases t, 3
  {
    hide Simple, Group, Read, Print, Quoted, Redirs;
    NoRedirs(b, p + |Quoted(t)|, []);
    c := GroupRead(b, p, t, [], p + |Quoted(t)|);
  }

  lemma {:induction false} RedirRead(b: string, p: nat, t: Tree, f: string, op: Op)
    requires IsLine(b) && Legal(t) && LegalWord(f) && At(b, p, Quoted(t) + Text(op) + f)
    requires Stops(b, p + |Quoted(t) + Text(op) + f|)
    ensures var r := Line(b, p);
      r.Good? && r.pos == p + |Quoted(t) + Text(op) + f| && Read(r.value, b) == TRedir(t, f, op)
    decreases TRedir(t, f, op), 0
  {
    hide Line, Pipeline, Simple, Redirs, Print, Quoted, At, Stops, LegalWord, Text;
    var m := p + |Quoted(t)|;
    var e := p + |Quoted(t) + Text(op) + f|;
    AtSplit(b, p, Quoted(t) + Text(op), f);
    AtSplit(b, p, Quoted(t), Text(op));
    OneRedirect(b, m, f, op);
    var rd := Redirect(Span(m + |Text(op)|, e), op);
    var c := GroupRead(b, p, t, [rd], e);
    OneWrapped(c, rd);
    LineEnds(b, p, e, Redir(c, rd));
  }

  lemma OneWrapped(c: Cmd, r: Redirect)
    ensures Wrapped(c, [r]) == Redir(c, r)
  {
    assert [r][..0] == [];
  }

  lemma OneRedirect(b: string, m: nat, f: string, op: Op)
    requires IsLine(b) && LegalWord(f) && At(b, m, Text(op)) && At(b, m + |Text(op)|, f) && Stops(b, m + |Text(op)| + |f|)
    ensures m < |b| && !IsSpace(CharAt(b, m))
    ensures var q := Redirs(b, m, []); var e := m + |Text(op)| + |f|;
      q == Good([Redirect(Span(m + |Text(op)|, e), op)], e) && Word(b, Span(m + |Text(op)|, e)) == f
  {
    hide Redirs, GetToken, Skip, Peeks, OpOf, IsWord;
    var s := m + |Text(op)|;
    AtChar(b, m, Text(op));
    AtChar(b, s, f);
    StopsSkip(b, s + |f|);
    WordToken(b, s, f);
    OpToken(b, m, op);
    RedirsStep(b, m);
    NoRedirs(b, s + |f|, [Redirect(Span(s, s + |f|), op)]);
  }

  lemma StopsSkip(b: string, p: nat)
    requires Stops(b, p)
    ensures p <= |b| && Skip(b, p) == p && !IsWord(CharAt(b, p))
  {
  }

  lemma RedirsStep(b: string, m: nat)
    requires IsLine(b) && m <= |b| && Peeks(b, m, "<>") && Skip(b, m) == m
    ensures var t := GetToken(b, m); var f := GetToken(b, t.next);
      f.kind == 'a' ==> Redirs(b, m, []) == Redirs(b, f.next, [Redirect(Span(f.start, f.end), OpOf(t.kind))])
  {
    hide GetToken, Skip, Peeks;
    var t := GetToken(b, m);
    var f := GetToken(b, t.next);
    var r := Redirect(Span(f.start, f.end), OpOf(t.kind));
    assert [] + [r] == [r];
  }

  lemma OpToken(b: string, m: nat, op: Op)
    requires IsLine(b) && At(b, m, Text(op)) && m + |Text(op)| < |b| && IsWord(b[m + |Text(op)|])
    ensures Skip(b, m) == m && Peeks(b, m, "<>")
    ensures var t := GetToken(b, m); OpOf(t.kind) == op && t.next == m + |Text(op)|
  {
    AtChar(b, m, Text(op));
    if op == Append {
      assert b[m..m + 2][1] == '>';
    }
  }

  /** Two groups with a symbol between them. */
  lemma TwoGroups(b: string, p: nat, l: Tree, c: char, r: Tree)
    requires At(b, p, Quoted(l) + [c] + Quoted(r)) && IsSymbol(c)
    ensures At(b, p, Quoted(l)) && p + |Quoted(l)| < |b| && b[p + |Quoted(l)|] == c
    ensures At(b, p + |Quoted(l)| + 1, Quoted(r)) && CharAt(b, p + |Quoted(l)| + 1) == '('
    ensures p + |Quoted(l)| + 1 + |Quoted(r)| == p + |Quoted(l) + [c] + Quoted(r)|
  {
    AtSplit(b, p, Quoted(l) + [c], Quoted(r));
    AtSplit(b, p, Quoted(l), [c]);
    AtChar(b, p + |Quoted(l)|, [c]);
    AtChar(b, p + |Quoted(l)| + 1, Quoted(r));
  }

  lemma StopsClear(b: string, p: nat)
    requires Stops(b, p)
    ensures p <= |b| && Clear(b, p, "<>") && Clear(b, p, "|") && Clear(b, p, "&;")
  {
  }

  lemma {:induction false} PipeRead(b: string, p: nat, l: Tree, r: Tree)
    requires IsLine(b) && Legal(l) && Legal(r) && At(b, p, Quoted(l) + "|" + Quoted(r)) && Stops(b, p + |Quoted(l) + "|" + Quoted(r)|)
    ensures var x := Line(b, p);
      x.Good? && x.pos == p + |Quoted(l) + "|" + Quoted(r)| && Read(x.value, b) == TPipe(l, r)
    decreases TPipe(l, r), 0
  {
    hide Line, Pipeline, Simple, Print, Quoted, At, Stops;
    TwoGroups(b, p, l, '|', r);
    var m, e := p + |Quoted(l)|, p + |Quoted(l) + "|" + Quoted(r)|;
    StopsClear(b, e);
    var c := GroupAlone(b, p, l);
    var d := GroupAlone(b, m + 1, r);
    LineEnds(b, m + 1, e, d);
    PipelinePipe(b, p, c, m, d, e);
    LineStop(b, p, Pipe(c, d), e);
  }

  lemma {:induction false} ListRead(b: string, p: nat, l: Tree, r: Tree)
    requires IsLine(b) && Legal(l) && Legal(r) && At(b, p, Quoted(l) + ";" + Quoted(r)) && Stops(b, p + |Quoted(l) + ";" + Quoted(r)|)
    ensures var x := Line(b, p);
      x.Good? && x.pos == p + |Quoted(l) + ";" + Quoted(r)| && Read(x.value, b) == TList(l, r)
    decreases TList(l, r), 0
  {
    hide Line, Pipeline, Simple, Print, Quoted, At, Stops;
    TwoGroups(b, p, l, ';', r);
    var m, e := p + |Quoted(l)|, p + |Quoted(l) + ";" + Quoted(r)|;
    StopsClear(b, e);
    var c := GroupAlone(b, p, l);
    var d := GroupAlone(b, m + 1, r);
    PipelineStop(b, p, c, m);
    LineEnds(b, m + 1, e, d);
    LineList(b, p, c, m, d, e);
  }

  lemma {:induction false} BackRead(b: string, p: nat, t: Tree)
    requires IsLine(b) && Legal(t) && At(b, p, Quoted(t) + "&") && Stops(b, p + |Quoted(t) + "&"|)
    ensures var x := Line(b, p); x.Good? && x.pos == p + |Quoted(t) + "&"| && Read(x.value, b) == TBack(t)
    decreases TBack(t), 0
  {
    hide Line, Pipeline, Simple, Print, Quoted, At, Stops;
    var m := p + |Quoted(t)|;
    AtSplit(b, p, Quoted(t), "&");
    AtChar(b, m, "&");
    StopsClear(b, m + 1);
    var c := GroupAlone(b, p, t);
    PipelineStop(b, p, c, m);
    LineBack(b, p, c, m);
  }

  lemma {:induction false} PrintIsLine(t: Tree)
    requires Legal(t)
    ensures IsLine(Print(t))
    decreases t
  {
    match t {
      case TExec(ws) => JoinedIsLine(ws);
      case TRedir(c, f, op) => PrintIsLine(c);
      case TPipe(l, r) => PrintIsLine(l); PrintIsLine(r);
      case TList(l, r) => PrintIsLine(l); PrintIsLine(r);
      case TBack(c) => PrintIsLine(c);
    }
  }

  lemma {:induction false} JoinedIsLine(ws: seq<string>)
    requires forall i :: 0 <= i < |ws| ==> LegalWord(ws[i])
    ensures IsLine(Joined(ws))
  {
    if |ws| > 1 {
      JoinedIsLine(ws[1..]);
    }
  }

  /** The shell reads back every command that is printed with all its
      parentheses. */
  lemma RoundTrip(t: Tree)
    requires Legal(t)
    ensures IsLine(Print(t)) && Command(Print(t)).Good? && Read(Command(Print(t)).value, Print(t)) == t
  {
    hide Line, Print, Read;
    var b := Print(t);
    PrintIsLine(t);
    assert b[0..0 + |b|] == b;
    LineRead(b, 0, t);
  }
}
