/**
 The grammar of sh.c as functions from a position in the command line to a
 result: a tree whose words are positions in the line, and the next position.
 */
module ShellSyntax {
  const MAXARGS: nat := 10

  predicate White(c: char) {
    c in {' ', '\t', '\r', '\n', 11 as char}
  }

  predicate Symbol(c: char) {
    c in {'<', '|', '>', '&', ';', '(', ')'}
  }

  predicate Plain(c: char) {
    !White(c) && !Symbol(c) && c != '\0'
  }

  /** The characters from q up to eq. */
  datatype Word = Word(q: nat, eq: nat)

  datatype Mode = ReadOnly | WriteCreate

  datatype Cmd<W> =
    | Exec(args: seq<W>)
    | Redir(cmd: Cmd<W>, file: W, mode: Mode)
    | Pipe(left: Cmd<W>, right: Cmd<W>)
    | List(left: Cmd<W>, right: Cmd<W>)
    | Back(cmd: Cmd<W>)

  datatype Result<T> = Panic | Ok(value: T, next: nat)

  // ------------------------------------------------------ tokens

  function SkipWhite(buf: string, s: nat): (r: nat)
    requires s <= |buf|
    ensures s <= r <= |buf| && (r < |buf| ==> !White(buf[r]))
    ensures forall i :: s <= i < r ==> White(buf[i])
    decreases |buf| - s
  {
    if s < |buf| && White(buf[s]) then SkipWhite(buf, s + 1) else s
  }

  function SkipPlain(buf: string, s: nat): (r: nat)
    requires s <= |buf|
    ensures s <= r <= |buf| && (r < |buf| ==> White(buf[r]) || Symbol(buf[r]))
    ensures forall i :: s <= i < r ==> !White(buf[i]) && !Symbol(buf[i])
    decreases |buf| - s
  {
    if s < |buf| && !White(buf[s]) && !Symbol(buf[s]) then SkipPlain(buf, s + 1) else s
  }

  /** A run of characters that are neither white nor symbols, as long as possible at its end. */
  ghost predicate WordOk(buf: string, w: Word) {
    && w.q < w.eq <= |buf| && (forall i :: w.q <= i < w.eq ==> !White(buf[i]) && !Symbol(buf[i]))
    && (w.eq < |buf| ==> White(buf[w.eq]) || Symbol(buf[w.eq]))
  }

  ghost predicate WordsOk(buf: string, c: Cmd<Word>) {
    match c
    case Exec(args) => forall i :: 0 <= i < |args| ==> WordOk(buf, args[i])
    case Redir(d, file, _) => WordsOk(buf, d) && WordOk(buf, file)
    case Pipe(l, r) => WordsOk(buf, l) && WordsOk(buf, r)
    case List(l, r) => WordsOk(buf, l) && WordsOk(buf, r)
    case Back(d) => WordsOk(buf, d)
  }

  /** kind is the symbol, '+' for >>, 'a' for a word, NUL at the end of the line. */
  datatype Token = Token(kind: char, q: nat, eq: nat, next: nat)

  function GetToken(buf: string, s: nat): (t: Token)
    requires s <= |buf|
    ensures s <= t.q <= t.eq <= t.next <= |buf|
    ensures t.kind != '\0' ==> s < t.next
    ensures t.kind == 'a' ==> WordOk(buf, Word(t.q, t.eq))
  {
    var q := SkipWhite(buf, s);
    if q == |buf| || buf[q] == '\0' then Token('\0', q, q, SkipWhite(buf, q))
    else if buf[q] == '>' && q + 1 < |buf| && buf[q + 1] == '>' then Token('+', q, q + 2, SkipWhite(buf, q + 2))
    else if Symbol(buf[q]) then Token(buf[q], q, q + 1, SkipWhite(buf, q + 1))
    else Token('a', q, SkipPlain(buf, q), SkipWhite(buf, SkipPlain(buf, q)))
  }

  /** The next character, after white space, is one of these. */
  predicate Peek(buf: string, s: nat, toks: set<char>)
    requires s <= |buf|
  {
    var r := SkipWhite(buf, s);
    r < |buf| && buf[r] in toks
  }

  // ------------------------------------------------------ the grammar

  datatype Redirect = Redirect(file: Word, mode: Mode)

  ghost predicate FilesOk(buf: string, rs: seq<Redirect>) {
    forall i :: 0 <= i < |rs| ==> WordOk(buf, rs[i].file)
  }

  function Wrap(c: Cmd<Word>, rs: seq<Redirect>): (r: Cmd<Word>)
    ensures forall buf: string :: WordsOk(buf, c) && FilesOk(buf, rs) ==> WordsOk(buf, r)
    decreases |rs|
  {
    if rs == [] then c else Redir(Wrap(c, rs[..|rs| - 1]), rs[|rs| - 1].file, rs[|rs| - 1].mode)
  }

  function ModeOf(kind: char): Mode {
    if kind == '<' then ReadOnly else WriteCreate
  }

  /** parseredirs: as many redirections as there are. */
  function Redirs(buf: string, s: nat): (r: Result<seq<Redirect>>)
    requires s <= |buf|
    ensures r.Ok? ==> s <= r.next <= |buf| && FilesOk(buf, r.value)
    decreases |buf| - s
  {
    if !Peek(buf, s, {'<', '>'}) then Ok([], SkipWhite(buf, s))
    else
      var op := GetToken(buf, s);
      var file := GetToken(buf, op.next);
      if file.kind != 'a' then Panic
      else match Redirs(buf, file.next)
        case Panic => Panic
        case Ok(rs, n) => Ok([Redirect(Word(file.q, file.eq), ModeOf(op.kind))] + rs, n)
  }

  datatype Parts = Parts(args: seq<Word>, redirs: seq<Redirect>)

  /** The loop of parseexec after `argc` arguments. */
  function Args(buf: string, s: nat, argc: nat): (r: Result<Parts>)
    requires s <= |buf|
    ensures r.Ok? ==> s <= r.next <= |buf| && FilesOk(buf, r.value.redirs)
    ensures r.Ok? ==> forall i :: 0 <= i < |r.value.args| ==> WordOk(buf, r.value.args[i])
    decreases |buf| - s
  {
    if Peek(buf, s, {'|', ')', '&', ';'}) then Ok(Parts([], []), SkipWhite(buf, s))
    else
      var t := GetToken(buf, s);
      if t.kind == '\0' then Ok(Parts([], []), t.next)
      else if t.kind != 'a' || argc + 1 >= MAXARGS then Panic
      else match Redirs(buf, t.next)
        case Panic => Panic
        case Ok(rs, n) =>
          match Args(buf, n, argc + 1)
          case Panic => Panic
          case Ok(ps, n') => Ok(Parts([Word(t.q, t.eq)] + ps.args, rs + ps.redirs), n')
  }

  function ParseExec(buf: string, s: nat): (r: Result<Cmd<Word>>)
    requires s <= |buf|
    ensures r.Ok? ==> s <= r.next <= |buf| && WordsOk(buf, r.value)
    decreases |buf| - s, 0
  {
    if Peek(buf, s, {'('}) then
      var t := GetToken(buf, s);
      match ParseLine(buf, t.next)
      case Panic => Panic
      case Ok(c, n) =>
        if !Peek(buf, n, {')'}) then Panic
        else match Redirs(buf, GetToken(buf, n).next)
          case Panic => Panic
          case Ok(rs, n') => Ok(Wrap(c, rs), n')
    else match Redirs(buf, s)
      case Panic => Panic
      case Ok(rs, n) =>
        match Args(buf, n, 0)
        case Panic => Panic
        case Ok(ps, n') => Ok(Wrap(Exec(ps.args), rs + ps.redirs), n')
  }

  function ParsePipe(buf: string, s: nat): (r: Result<Cmd<Word>>)
    requires s <= |buf|
    ensures r.Ok? ==> s <= r.next <= |buf| && WordsOk(buf, r.value)
    decreases |buf| - s, 1
  {
    match ParseExec(buf, s)
    case Panic => Panic
    case Ok(c, n) =>
      if !Peek(buf, n, {'|'}) then Ok(c, SkipWhite(buf, n))
      else match ParsePipe(buf, GetToken(buf, n).next)
        case Panic => Panic
        case Ok(c', n') => Ok(Pipe(c, c'), n')
  }

  /** The loop of parseline: one Back for each '&'. */
  function Backs(buf: string, c: Cmd<Word>, s: nat): (r: Result<Cmd<Word>>)
    requires s <= |buf|
    ensures r.Ok? && s <= r.next <= |buf| && (WordsOk(buf, c) ==> WordsOk(buf, r.value))
    decreases |buf| - s
  {
    if !Peek(buf, s, {'&'}) then Ok(c, SkipWhite(buf, s)) else Backs(buf, Back(c), GetToken(buf, s).next)
  }

  function ParseLine(buf: string, s: nat): (r: Result<Cmd<Word>>)
    requires s <= |buf|
    ensures r.Ok? ==> s <= r.next <= |buf| && WordsOk(buf, r.value)
    decreases |buf| - s, 2
  {
    match ParsePipe(buf, s)
    case Panic => Panic
    case Ok(c, n) =>
      var b := Backs(buf, c, n);
      if !Peek(buf, b.next, {';'}) then Ok(b.value, SkipWhite(buf, b.next))
      else match ParseLine(buf, GetToken(buf, b.next).next)
        case Panic => Panic
        case Ok(c', n') => Ok(List(b.value, c'), n')
  }

  /** parsecmd before it terminates the words: the whole line must be used up. */
  function ParseCmd(buf: string): Result<Cmd<Word>> {
    match ParseLine(buf, 0)
    case Panic => Panic
    case Ok(c, n) => if SkipWhite(buf, n) == |buf| then Ok(c, n) else Panic
  }
}
