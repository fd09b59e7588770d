/** The parser of user/sh.c: a cursor that moves over the line, and nulterminate(),
    which writes into it. */
module Shell {
  import opened ShellGrammar
  import opened ShellPrint
  import ShellForms

  // ---------------------------------------------------------------- nulterminate()

  function EndsCut(s: string, argv: seq<Span>): (r: string)
    ensures |r| == |s|
  {
    if argv == [] then s
    else
      var r := EndsCut(s, argv[..|argv| - 1]);
      var e := argv[|argv| - 1].end;
      if e < |r| then r[e := NUL] else r
  }

  /** The line after nulterminate(). */
  function Cut(s: string, c: Cmd): (r: string)
    ensures |r| == |s|
    decreases c
  {
    match c
    case Exec(argv) => EndsCut(s, argv)
    case Redir(d, x) => var r := Cut(s, d); if x.file.end < |r| then r[x.file.end := NUL] else r
    case Pipe(l, r) => Cut(Cut(s, l), r)
    case List(l, r) => Cut(Cut(s, l), r)
    case Back(d) => Cut(s, d)
  }

  /** Only separators are overwritten, and only with NUL. */
  ghost predicate CutOk(s: string, s': string) {
    && |s'| == |s|
    && forall i :: 0 <= i < |s| ==> s'[i] == s[i] || (s'[i] == NUL && !IsWord(s[i]))
  }

  lemma {:induction false} EndsCutOk(b: string, s: string, argv: seq<Span>)
    requires (forall i :: 0 <= i < |argv| ==> WordAt(b, argv[i].start, argv[i].end)) && CutOk(b + [NUL], s)
    ensures CutOk(b + [NUL], EndsCut(s, argv))
  {
    if argv != [] {
      EndsCutOk(b, s, argv[..|argv| - 1]);
      var x := argv[|argv| - 1];
      assert WordAt(b, x.start, x.end);
    }
  }

  lemma {:induction false} CutKeepsWords(b: string, s: string, c: Cmd)
    requires SpansOk(c, b) && CutOk(b + [NUL], s)
    ensures CutOk(b + [NUL], Cut(s, c))
    decreases c
  {
    match c {
      case Exec(argv) => EndsCutOk(b, s, argv);
      case Redir(d, x) => CutKeepsWords(b, s, d);
      case Pipe(l, r) => CutKeepsWords(b, s, l); CutKeepsWords(b, Cut(s, l), r);
      case List(l, r) => CutKeepsWords(b, s, l); CutKeepsWords(b, Cut(s, l), r);
      case Back(d) => CutKeepsWords(b, s, d);
    }
  }

  /** The C string at position q. */
  function CString(s: string, q: nat): string
    decreases |s| - q
  {
    if q < |s| && s[q] != NUL then [s[q]] + CString(s, q + 1) else ""
  }

  /** The command as runcmd() sees it. */
  function ReadC(c: Cmd, s: string): Tree {
    match c
    case Exec(argv) => TExec(seq(|argv|, i requires 0 <= i < |argv| => CString(s, argv[i].start)))
    case Redir(d, r) => TRedir(ReadC(d, s), CString(s, r.file.start), r.op)
    case Pipe(l, r) => TPipe(ReadC(l, s), ReadC(r, s))
    case List(l, r) => TList(ReadC(l, s), ReadC(r, s))
    case Back(d) => TBack(ReadC(d, s))
  }

  /** All ends of the words of c are NUL in s. */
  ghost predicate Ended(c: Cmd, s: string) {
    match c
    case Exec(argv) => forall i :: 0 <= i < |argv| ==> argv[i].end < |s| && s[argv[i].end] == NUL
    case Redir(d, r) => Ended(d, s) && r.file.end < |s| && s[r.file.end] == NUL
    case Pipe(l, r) => Ended(l, s) && Ended(r, s)
    case List(l, r) => Ended(l, s) && Ended(r, s)
    case Back(d) => Ended(d, s)
  }

  /** NULs stay. */
  ghost predicate NulsKept(s: string, s': string) {
    |s'| == |s| && forall i :: 0 <= i < |s| && s[i] == NUL ==> s'[i] == NUL
  }

  lemma {:induction false} EndedKept(c: Cmd, s: string, s': string)
    requires Ended(c, s) && NulsKept(s, s')
    ensures Ended(c, s')
    decreases c
  {
    match c {
      case Exec(argv) =>
      case Redir(d, x) => EndedKept(d, s, s');
      case Pipe(l, r) => EndedKept(l, s, s'); EndedKept(r, s, s');
      case List(l, r) => EndedKept(l, s, s'); EndedKept(r, s, s');
      case Back(d) => EndedKept(d, s, s');
    }
  }

  lemma {:induction false} EndsCutEnded(b: string, s: string, argv: seq<Span>)
    requires (forall i :: 0 <= i < |argv| ==> WordAt(b, argv[i].start, argv[i].end)) && |s| == |b| + 1
    ensures Ended(Exec(argv), EndsCut(s, argv)) && NulsKept(s, EndsCut(s, argv))
  {
    if argv != [] {
      var init := argv[..|argv| - 1];
      EndsCutEnded(b, s, init);
      assert forall i :: 0 <= i < |init| ==> init[i] == argv[i];
      assert WordAt(b, argv[|argv| - 1].start, argv[|argv| - 1].end);
    }
  }

  lemma {:induction false} CutEnded(b: string, s: string, c: Cmd)
    requires SpansOk(c, b) && |s| == |b| + 1
    ensures Ended(c, Cut(s, c)) && NulsKept(s, Cut(s, c))
    decreases c
  {
    match c {
      case Exec(argv) => EndsCutEnded(b, s, argv);
      case Redir(d, x) =>
        CutEnded(b, s, d);
        EndedKept(d, Cut(s, d), Cut(s, c));
      case Pipe(l, r) =>
        CutEnded(b, s, l);
        CutEnded(b, Cut(s, l), r);
        EndedKept(l, Cut(s, l), Cut(s, c));
      case List(l, r) =>
        CutEnded(b, s, l);
        CutEnded(b, Cut(s, l), r);
        EndedKept(l, Cut(s, l), Cut(s, c));
      case Back(d) => CutEnded(b, s, d);
    }
  }

  lemma {:induction false} CStringIs(b: string, s: string, q: nat, eq: nat)
    requires q <= eq <= |b| && (forall k :: q <= k < eq ==> IsWord(b[k])) && CutOk(b + [NUL], s) && s[eq] == NUL
    ensures CString(s, q) == b[q..eq]
    decreases eq - q
  {
    if q < eq {
      assert (b + [NUL])[q] == b[q];
      CStringIs(b, s, q + 1, eq);
    }
  }

  /** After nulterminate() each argument and file name reads as exactly its word. */
  lemma {:induction false} ReadsBack(b: string, s: string, c: Cmd)
    requires SpansOk(c, b) && CutOk(b + [NUL], s) && Ended(c, s)
    ensures ReadC(c, s) == Read(c, b)
    decreases c
  {
    match c {
      case Exec(argv) =>
        forall i | 0 <= i < |argv|
          ensures CString(s, argv[i].start) == Word(b, argv[i])
        {
          CStringIs(b, s, argv[i].start, argv[i].end);
        }
      case Redir(d, x) =>
        ReadsBack(b, s, d);
        CStringIs(b, s, x.file.start, x.file.end);
      case Pipe(l, r) => ReadsBack(b, s, l); ReadsBack(b, s, r);
      case List(l, r) => ReadsBack(b, s, l); ReadsBack(b, s, r);
      case Back(d) => ReadsBack(b, s, d);
    }
  }

  /** For every input that parses: the commands read as the words of the line. */
  lemma NulterminateOk(b: string, c: Cmd)
    requires IsLine(b) && Command(b) == Good(c, |b|)
    ensures ReadC(c, Cut(b + [NUL], c)) == Read(c, b) && CutOk(b + [NUL], Cut(b + [NUL], c))
  {
    hide Line, SpansOk, Cut, CutOk, Ended, ReadC, Read;
    LineSpans(b, 0);
    CutSelf(b + [NUL]);
    CutKeepsWords(b, b + [NUL], c);
    CutEnded(b, b + [NUL], c);
    ReadsBack(b, Cut(b + [NUL], c), c);
  }

  /** A printed command, parsed and terminated, runs as the command it was. */
  lemma Printed(t: Tree)
    requires Legal(t)
    ensures IsLine(Print(t)) && Command(Print(t)).Good?
    ensures var b, c := Print(t), Command(Print(t)).value; ReadC(c, Cut(b + [NUL], c)) == t
  {
    hide Line, Print, Read, ReadC, Cut, CutOk;
    RoundTrip(t);
    NulterminateOk(Print(t), Command(Print(t)).value);
  }

  lemma CutSelf(s: string)
    ensures CutOk(s, s)
  {
  }

  method Nulterminate(c: Cmd, a: array<char>)
    modifies a
    ensures a[..] == Cut(old(a[..]), c)
    decreases c
  {
    match c {
      case Exec(argv) =>
        var i := 0;
        assert argv[..|argv|] == argv;
        while i < |argv|
          invariant 0 <= i <= |argv| && a[..] == EndsCut(old(a[..]), argv[..i])
        {
          assert argv[..i + 1][..i] == argv[..i];
          if argv[i].end < a.Length {
            a[argv[i].end] := NUL;
          }
          i := i + 1;
        }
      case Redir(d, x) =>
        Nulterminate(d, a);
        if x.file.end < a.Length {
          a[x.file.end] := NUL;
        }
      case Pipe(l, r) =>
        Nulterminate(l, a);
        Nulterminate(r, a);
      case List(l, r) =>
        Nulterminate(l, a);
        Nulterminate(r, a);
      case Back(d) => Nulterminate(d, a);
    }
  }

  // ------------------------------------------------------------------- the parser

  class Parser {
    const b: string
    var pos: nat

    ghost predicate Valid()
      reads this
    {
      IsLine(b) && pos <= |b|
    }

    constructor (b: string)
      requires IsLine(b)
      ensures Valid() && this.b == b && pos == 0
    {
      this.b := b;
      pos := 0;
    }

    method SkipSpaces()
      requires Valid()
      modifies this
      ensures Valid() && pos == Skip(b, old(pos))
    {
      while pos < |b| && IsSpace(b[pos])
        invariant pos <= |b| && Skip(b, pos) == Skip(b, old(pos))
      {
        pos := pos + 1;
      }
    }

    method Gettoken() returns (kind: char, q: nat, eq: nat)
      requires Valid()
      modifies this
      ensures Valid() && Token(kind, q, eq, pos) == GetToken(b, old(pos))
      ensures old(pos) < |b| && !IsSpace(b[old(pos)]) ==> pos > old(pos)
    {
      SkipSpaces();
      q := pos;
      kind := CharAt(b, pos);
      if kind == NUL {
      } else if kind == '|' || kind == '(' || kind == ')' || kind == ';' || kind == '&' || kind == '<' {
        pos := pos + 1;
      } else if kind == '>' {
        pos := pos + 1;
        if CharAt(b, pos) == '>' {
          kind := '+';
          pos := pos + 1;
        }
      } else {
        kind := 'a';
        while pos < |b| && !IsSpace(b[pos]) && !IsSymbol(b[pos])
          invariant q <= pos <= |b| && WordEnd(b, pos) == WordEnd(b, q)
        {
          pos := pos + 1;
        }
      }
      eq := pos;
      SkipSpaces();
    }

    method Peek(toks: string) returns (yes: bool)
      requires Valid()
      modifies this
      ensures Valid() && pos == Skip(b, old(pos)) && yes == Peeks(b, old(pos), toks)
      ensures yes ==> pos < |b| && !IsSpace(b[pos])
    {
      SkipSpaces();
      yes := CharAt(b, pos) != NUL && CharAt(b, pos) in toks;
    }

    /** A panic of the shell is ok == false. */
    method Parseredirs(rs0: seq<Redirect>) returns (ok: bool, rs: seq<Redirect>)
      requires Valid()
      modifies this
      ensures Valid() && pos >= old(pos)
      ensures Redirs(b, old(pos), rs0) == if ok then Good(rs, pos) else Bad
    {
      hide GetToken, Skip, Peeks;
      rs := rs0;
      ghost var goal := Redirs(b, old(pos), rs0);
      while true
        invariant Valid() && pos >= old(pos) && Redirs(b, pos, rs) == goal
        decreases |b| - pos
      {
        ghost var p := pos;
        var more := Peek("<>");
        if !more {
          return true, rs;
        }
        ghost var j := pos;
        var kind, _, _ := Gettoken();
        var k2, q, eq := Gettoken();
        RedirsTurn(b, p, j, rs);
        if k2 != 'a' {
          return false, rs;
        }
        rs := rs + [Redirect(Span(q, eq), OpOf(kind))];
      }
    }

    method Parseexec() returns (ok: bool, c: Cmd)
      requires Valid()
      modifies this
      ensures Valid() && pos >= old(pos)
      ensures Simple(b, old(pos)) == if ok then Good(c, pos) else Bad
      decreases |b| - pos, 1
    {
      hide GetToken, Skip, Redirs, Args, Group, Wrapped;
      ghost var p := pos;
      SkipAgain(b, p);
      var block := Peek("(");
      if block {
        ok, c := Parseblock();
        return;
      }
      c := Exec([]);
      var rs;
      ok, rs := Parseredirs([]);
      if !ok {
        return;
      }
      ok, c := Parseargs(rs);
    }

    /** The loop of parseexec(). */
    method Parseargs(rs0: seq<Redirect>) returns (ok: bool, c: Cmd)
      requires Valid()
      modifies this
      ensures Valid() && pos >= old(pos)
      ensures Args(b, old(pos), [], rs0) == if ok then Good(c, pos) else Bad
    {
      hide GetToken, Skip, Redirs, Peeks, Wrapped;
      var args: seq<Span>, rs := [], rs0;
      ghost var goal := Args(b, old(pos), [], rs0);
      c := Exec([]);
      while true
        invariant Valid() && pos >= old(pos) && Args(b, pos, args, rs) == goal
        decreases |b| - pos
      {
        ghost var p := pos;
        var stop := Peek("|)&;");
        if stop {
          return true, Wrapped(Exec(args), rs);
        }
        var kind, q, eq := Gettoken();
        if kind == NUL {
          return true, Wrapped(Exec(args), rs);
        }
        if kind != 'a' {
          return false, c;
        }
        args := args + [Span(q, eq)];
        if |args| >= MAXARGS {
          return false, c;
        }
        ok, rs := Parseredirs(rs);
        if !ok {
          return;
        }
      }
    }

    method Parseblock() returns (ok: bool, c: Cmd)
      requires Valid() && Peeks(b, pos, "(")
      modifies this
      ensures Valid() && pos >= old(pos)
      ensures Group(b, old(pos)) == if ok then Good(c, pos) else Bad
      decreases |b| - pos, 0
    {
      hide GetToken, Skip, Redirs, Line, Wrapped;
      c := Exec([]);
      var open := Peek("(");
      if !open {
        return false, c;
      }
      var _, _, _ := Gettoken();
      ok, c := Parseline();
      if !ok {
        return;
      }
      var close := Peek(")");
      if !close {
        return false, c;
      }
      var _, _, _ := Gettoken();
      var rs;
      ok, rs := Parseredirs([]);
      c := Wrapped(c, rs);
    }

    method Parsepipe() returns (ok: bool, c: Cmd)
      requires Valid()
      modifies this
      ensures Valid() && pos >= old(pos)
      ensures Pipeline(b, old(pos)) == if ok then Good(c, pos) else Bad
      decreases |b| - pos, 2
    {
      hide GetToken, Skip, Simple;
      ok, c := Parseexec();
      if !ok {
        return;
      }
      var more := Peek("|");
      if more {
        var _, _, _ := Gettoken();
        var d;
        ok, d := Parsepipe();
        c := Pipe(c, d);
      }
    }

    method Parseline() returns (ok: bool, c: Cmd)
      requires Valid()
      modifies this
      ensures Valid() && pos >= old(pos)
      ensures Line(b, old(pos)) == if ok then Good(c, pos) else Bad
      decreases |b| - pos, 3
    {
      hide GetToken, Skip, Pipeline;
      ok, c := Parsepipe();
      if !ok {
        return;
      }
      ghost var goal, p := Backs(b, pos, c), pos;
      while true
        invariant Valid() && pos >= p && Backs(b, pos, c) == goal
        decreases |b| - pos
      {
        var more := Peek("&");
        if !more {
          break;
        }
        var _, _, _ := Gettoken();
        c := Back(c);
      }
      assert goal == (c, pos);
      SkipAgain(b, pos);
      var list := Peek(";");
      if list {
        var _, _, _ := Gettoken();
        var d;
        ok, d := Parseline();
        c := List(c, d);
      }
    }

    /** parsecmd(): the command, and the line in which its words are now C strings. */
    method Parsecmd(line: array<char>) returns (ok: bool, c: Cmd)
      requires Valid() && pos == 0 && line[..] == b + [NUL]
      modifies this, line
      ensures Command(b) == if ok then Good(c, |b|) else Bad
      ensures ok <==> exists f :: ShellForms.Fits(f) && ShellForms.Writes(f, b)
      ensures forall f :: ShellForms.Fits(f) && ShellForms.Writes(f, b) ==> ReadC(c, line[..]) == ShellForms.LineTree(f)
      ensures ok ==> ReadC(c, line[..]) == Read(c, b) && CutOk(b + [NUL], line[..])
      ensures !ok ==> line[..] == old(line[..])
    {
      hide Line, Skip, Cut, CutOk, ReadC, Read, ShellForms.Fits, ShellForms.Writes, ShellForms.LineTree;
      ShellForms.AcceptedIff(b);
      ok, c := Parseline();
      if !ok {
        return;
      }
      var _ := Peek("");
      if pos != |b| {
        return false, c;
      }
      NulterminateOk(b, c);
      Nulterminate(c, line);
    }
  }

  lemma SkipAgain(b: string, i: nat)
    requires i <= |b|
    ensures Skip(b, Skip(b, i)) == Skip(b, i)
    ensures forall toks: string :: Peeks(b, Skip(b, i), toks) == Peeks(b, i, toks)
  {
  }

  lemma RedirsTurn(b: string, p: nat, j: nat, rs: seq<Redirect>)
    requires IsLine(b) && p <= |b| && Peeks(b, p, "<>") && j == Skip(b, p)
    ensures var t := GetToken(b, j); var f := GetToken(b, t.next);
      && Redirs(b, p, rs) == (if f.kind != 'a' then Bad else Redirs(b, f.next, rs + [Redirect(Span(f.start, f.end), OpOf(t.kind))]))
      && (f.kind == 'a' ==> f.next > p)
  {
    hide GetToken, Skip, Peeks;
  }
}
