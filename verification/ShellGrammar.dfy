/** The grammar that user/sh.c parses, as functions on the text of the line and a
    position in it. */
module ShellGrammar {

  const MAXARGS := 10
  const NUL := '\0'

  predicate IsSpace(c: char) {
    c in " \t\r\n\U{000B}"
  }

  predicate IsSymbol(c: char) {
    c in "<|>&;()"
  }

  /** What words are made of. */
  predicate IsWord(c: char) {
    !IsSpace(c) && !IsSymbol(c) && c != NUL
  }

  /** A C string holds no NUL, and ends with one. */
  predicate IsLine(b: string) {
    NUL !in b
  }

  function CharAt(b: string, i: nat): char {
    if i < |b| then b[i] else NUL
  }

  function Skip(b: string, i: nat): (j: nat)
    requires i <= |b|
    ensures i <= j <= |b| && !IsSpace(CharAt(b, j))
    ensures !IsSpace(CharAt(b, i)) ==> j == i
    decreases |b| - i
  {
    if i < |b| && IsSpace(b[i]) then Skip(b, i + 1) else i
  }

  function WordEnd(b: string, i: nat): (j: nat)
    requires i <= |b|
    ensures i <= j <= |b| && (j == |b| || IsSpace(b[j]) || IsSymbol(b[j]))
    ensures forall k :: i <= k < j ==> !IsSpace(b[k]) && !IsSymbol(b[k])
    decreases |b| - i
  {
    if i < |b| && !IsSpace(b[i]) && !IsSymbol(b[i]) then WordEnd(b, i + 1) else i
  }

  /** A token: its kind ('a' for a word, '+' for ">>", NUL at the end), where it is,
      and where the next one starts. */
  datatype Token = Token(kind: char, start: nat, end: nat, next: nat)

  function GetToken(b: string, i: nat): (t: Token)
    requires i <= |b| && IsLine(b)
    ensures i <= t.start <= t.end <= t.next <= |b|
    ensures t.kind != NUL ==> t.start < t.end
    ensures t.kind == 'a' ==> WordAt(b, t.start, t.end)
  {
    var q := Skip(b, i);
    var c := CharAt(b, q);
    if c == NUL then Token(NUL, q, q, Skip(b, q))
    else if c == '>' then
      if CharAt(b, q + 1) == '>' then Token('+', q, q + 2, Skip(b, q + 2)) else Token('>', q, q + 1, Skip(b, q + 1))
    else if IsSymbol(c) then Token(c, q, q + 1, Skip(b, q + 1))
    else Token('a', q, WordEnd(b, q), Skip(b, WordEnd(b, q)))
  }

  /** b[q..eq] is a whole word. */
  predicate WordAt(b: string, q: nat, eq: nat) {
    && q < eq <= |b|
    && (forall k :: q <= k < eq ==> IsWord(b[k]))
    && (eq == |b| || !IsWord(b[eq]))
  }

  /** peek(): the next character is one of toks. */
  predicate Peeks(b: string, i: nat, toks: string)
    requires i <= |b|
  {
    CharAt(b, Skip(b, i)) != NUL && CharAt(b, Skip(b, i)) in toks
  }

  // ------------------------------------------------------------------ commands

  datatype Span = Span(start: nat, end: nat)

  /** "<", ">" and ">>", with the mode and descriptor they stand for. */
  datatype Op = In | Out | Append

  datatype Redirect = Redirect(file: Span, op: Op)

  datatype Cmd =
    | Exec(argv: seq<Span>)
    | Redir(cmd: Cmd, redirect: Redirect)
    | Pipe(left: Cmd, right: Cmd)
    | List(left: Cmd, right: Cmd)
    | Back(cmd: Cmd)

  /** A syntax error is a panic of the shell. */
  datatype Result<T> = Bad | Good(value: T, pos: nat)

  function Wrapped(c: Cmd, rs: seq<Redirect>): Cmd {
    if rs == [] then c else Redir(Wrapped(c, rs[..|rs| - 1]), rs[|rs| - 1])
  }

  function OpOf(kind: char): Op {
    if kind == '<' then In else if kind == '>' then Out else Append
  }

  /** parseredirs() */
  function Redirs(b: string, i: nat, rs: seq<Redirect>): (r: Result<seq<Redirect>>)
    requires i <= |b| && IsLine(b)
    ensures r.Good? ==> i <= r.pos <= |b|
    decreases |b| - i
  {
    var j := Skip(b, i);
    if Peeks(b, i, "<>") then
      var t := GetToken(b, j);
      var f := GetToken(b, t.next);
      if f.kind != 'a' then Bad else Redirs(b, f.next, rs + [Redirect(Span(f.start, f.end), OpOf(t.kind))])
    else Good(rs, j)
  }

  /** The loop of parseexec(). */
  function Args(b: string, i: nat, args: seq<Span>, rs: seq<Redirect>): (r: Result<Cmd>)
    requires i <= |b| && IsLine(b)
    ensures r.Good? ==> i <= r.pos <= |b|
    decreases |b| - i
  {
    var j := Skip(b, i);
    if Peeks(b, i, "|)&;") then Good(Wrapped(Exec(args), rs), j)
    else
      var t := GetToken(b, j);
      if t.kind == NUL then Good(Wrapped(Exec(args), rs), t.next)
      else if t.kind != 'a' then Bad
      else
        var args' := args + [Span(t.start, t.end)];
        if |args'| >= MAXARGS then Bad
        else
          match Redirs(b, t.next, rs)
          case Bad => Bad
          case Good(rs', k) => Args(b, k, args', rs')
  }

  /** parseexec() */
  function Simple(b: string, i: nat): (r: Result<Cmd>)
    requires i <= |b| && IsLine(b)
    ensures r.Good? ==> i <= r.pos <= |b|
    decreases |b| - i, 1
  {
    var j := Skip(b, i);
    if Peeks(b, i, "(") then Group(b, j)
    else
      match Redirs(b, j, [])
      case Bad => Bad
      case Good(rs, k) => Args(b, k, [], rs)
  }

  /** parseblock() */
  function Group(b: string, i: nat): (r: Result<Cmd>)
    requires i <= |b| && IsLine(b)
    ensures r.Good? ==> i <= r.pos <= |b|
    decreases |b| - i, 0
  {
    if !Peeks(b, i, "(") then Bad
    else
      var t := GetToken(b, Skip(b, i));
      match Line(b, t.next)
      case Bad => Bad
      case Good(c, k) =>
        if !Peeks(b, k, ")") then Bad
        else
          var u := GetToken(b, Skip(b, k));
          match Redirs(b, u.next, [])
          case Bad => Bad
          case Good(rs, m) => Good(Wrapped(c, rs), m)
  }

  /** parsepipe() */
  function Pipeline(b: string, i: nat): (r: Result<Cmd>)
    requires i <= |b| && IsLine(b)
    ensures r.Good? ==> i <= r.pos <= |b|
    decreases |b| - i, 2
  {
    match Simple(b, i)
    case Bad => Bad
    case Good(c, k) =>
      if Peeks(b, k, "|") then
        var t := GetToken(b, Skip(b, k));
        match Pipeline(b, t.next)
        case Bad => Bad
        case Good(d, m) => Good(Pipe(c, d), m)
      else Good(c, Skip(b, k))
  }

  /** The loop of parseline() over "&". */
  function Backs(b: string, i: nat, c: Cmd): (r: (Cmd, nat))
    requires i <= |b| && IsLine(b)
    ensures i <= r.1 <= |b|
    decreases |b| - i
  {
    if Peeks(b, i, "&") then Backs(b, GetToken(b, Skip(b, i)).next, Back(c)) else (c, Skip(b, i))
  }

  /** parseline() */
  function Line(b: string, i: nat): (r: Result<Cmd>)
    requires i <= |b| && IsLine(b)
    ensures r.Good? ==> i <= r.pos <= |b|
    decreases |b| - i, 3
  {
    match Pipeline(b, i)
    case Bad => Bad
    case Good(c, k) =>
      var (d, m) := Backs(b, k, c);
      if Peeks(b, m, ";") then
        var t := GetToken(b, Skip(b, m));
        match Line(b, t.next)
        case Bad => Bad
        case Good(e, n) => Good(List(d, e), n)
      else Good(d, Skip(b, m))
  }

  /** parsecmd(), before nulterminate(). */
  function Command(b: string): Result<Cmd>
    requires IsLine(b)
  {
    match Line(b, 0)
    case Bad => Bad
    case Good(c, k) => if Skip(b, k) == |b| then Good(c, |b|) else Bad
  }

  // ---------------------------------------------------------- spans are words

  ghost predicate SpansOk(c: Cmd, b: string) {
    match c
    case Exec(argv) => forall i :: 0 <= i < |argv| ==> WordAt(b, argv[i].start, argv[i].end)
    case Redir(d, r) => SpansOk(d, b) && WordAt(b, r.file.start, r.file.end)
    case Pipe(l, r) => SpansOk(l, b) && SpansOk(r, b)
    case List(l, r) => SpansOk(l, b) && SpansOk(r, b)
    case Back(d) => SpansOk(d, b)
  }

  ghost predicate RedirsOk(rs: seq<Redirect>, b: string) {
    forall i :: 0 <= i < |rs| ==> WordAt(b, rs[i].file.start, rs[i].file.end)
  }

  lemma {:induction false} WrappedOk(c: Cmd, rs: seq<Redirect>, b: string)
    requires SpansOk(c, b) && RedirsOk(rs, b)
    ensures SpansOk(Wrapped(c, rs), b)
  {
    if rs != [] {
      WrappedOk(c, rs[..|rs| - 1], b);
    }
  }

  lemma {:induction false} RedirsSpans(b: string, i: nat, rs: seq<Redirect>)
    requires i <= |b| && IsLine(b) && RedirsOk(rs, b)
    ensures Redirs(b, i, rs).Good? ==> RedirsOk(Redirs(b, i, rs).value, b)
    decreases |b| - i
  {
    if Peeks(b, i, "<>") {
      var t := GetToken(b, Skip(b, i));
      var f := GetToken(b, t.next);
      if f.kind == 'a' {
        RedirsSpans(b, f.next, rs + [Redirect(Span(f.start, f.end), OpOf(t.kind))]);
      }
    }
  }

  lemma {:induction false} ArgsSpans(b: string, i: nat, args: seq<Span>, rs: seq<Redirect>)
    requires i <= |b| && IsLine(b) && SpansOk(Exec(args), b) && RedirsOk(rs, b)
    ensures Args(b, i, args, rs).Good? ==> SpansOk(Args(b, i, args, rs).value, b)
    decreases |b| - i
  {
    WrappedOk(Exec(args), rs, b);
    if !Peeks(b, i, "|)&;") {
      var t := GetToken(b, Skip(b, i));
      if t.kind == 'a' {
        var args' := args + [Span(t.start, t.end)];
        RedirsSpans(b, t.next, rs);
        var r := Redirs(b, t.next, rs);
        if |args'| < MAXARGS && r.Good? {
          ArgsSpans(b, r.pos, args', r.value);
        }
      }
    }
  }

  lemma {:induction false} SimpleSpans(b: string, i: nat)
    requires i <= |b| && IsLine(b)
    ensures Simple(b, i).Good? ==> SpansOk(Simple(b, i).value, b)
    decreases |b| - i, 1
  {
    if Peeks(b, i, "(") {
      GroupSpans(b, Skip(b, i));
    } else {
      RedirsSpans(b, Skip(b, i), []);
      var r := Redirs(b, Skip(b, i), []);
      if r.Good? {
        ArgsSpans(b, r.pos, [], r.value);
      }
    }
  }

  lemma {:induction false} GroupSpans(b: string, i: nat)
    requires i <= |b| && IsLine(b)
    ensures Group(b, i).Good? ==> SpansOk(Group(b, i).value, b)
    decreases |b| - i, 0
  {
    if Peeks(b, i, "(") {
      var t := GetToken(b, Skip(b, i));
      LineSpans(b, t.next);
      var r := Line(b, t.next);
      if r.Good? && Peeks(b, r.pos, ")") {
        var u := GetToken(b, Skip(b, r.pos));
        RedirsSpans(b, u.next, []);
        var q := Redirs(b, u.next, []);
        if q.Good? {
          WrappedOk(r.value, q.value, b);
        }
      }
    }
  }

  lemma {:induction false} PipelineSpans(b: string, i: nat)
    requires i <= |b| && IsLine(b)
    ensures Pipeline(b, i).Good? ==> SpansOk(Pipeline(b, i).value, b)
    decreases |b| - i, 2
  {
    SimpleSpans(b, i);
    var r := Simple(b, i);
    if r.Good? && Peeks(b, r.pos, "|") {
      PipelineSpans(b, GetToken(b, Skip(b, r.pos)).next);
    }
  }

  lemma {:induction false} BacksSpans(b: string, i: nat, c: Cmd)
    requires i <= |b| && IsLine(b) && SpansOk(c, b)
    ensures SpansOk(Backs(b, i, c).0, b)
    decreases |b| - i
  {
    if Peeks(b, i, "&") {
      BacksSpans(b, GetToken(b, Skip(b, i)).next, Back(c));
    }
  }

  /** Whatever the input, every argument and file name of the result is a whole
      word of it. */
  lemma {:induction false} LineSpans(b: string, i: nat)
    requires i <= |b| && IsLine(b)
    ensures Line(b, i).Good? ==> SpansOk(Line(b, i).value, b)
    decreases |b| - i, 3
  {
    PipelineSpans(b, i);
    var r := Pipeline(b, i);
    if r.Good? {
      BacksSpans(b, r.pos, r.value);
      var (d, m) := Backs(b, r.pos, r.value);
      if Peeks(b, m, ";") {
        LineSpans(b, GetToken(b, Skip(b, m)).next);
      }
    }
  }
}
