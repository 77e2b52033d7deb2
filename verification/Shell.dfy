/**
 The parser of sh.c: a cursor that moves over the line, loops that collect
 arguments and redirections, and nulterminate, which ends every word in place.
 */
module Shell {
  import opened ShellSyntax
  import opened ShellRoundTrip

  function Prepend(acc: seq<Redirect>, r: Result<seq<Redirect>>): Result<seq<Redirect>> {
    match r case Panic => Panic case Ok(rs, n) => Ok(acc + rs, n)
  }

  function PrependParts(args: seq<Word>, redirs: seq<Redirect>, r: Result<Parts>): Result<Parts> {
    match r case Panic => Panic case Ok(ps, n) => Ok(Parts(args + ps.args, redirs + ps.redirs), n)
  }

  class Parser {
    const line: string
    var s: nat // the cursor, *ps

    ghost predicate Valid()
      reads this
    {
      s <= |line|
    }

    constructor (line: string)
      ensures Valid() && this.line == line && s == 0
    {
      this.line, s := line, 0;
    }

    method SkipSpace()
      requires Valid()
      modifies `s
      ensures Valid() && s == SkipWhite(line, old(s))
    {
      while s < |line| && White(line[s])
        invariant Valid() && SkipWhite(line, s) == SkipWhite(line, old(s))
      {
        s := s + 1;
      }
    }

    /** gettoken. */
    method NextToken() returns (kind: char, q: nat, eq: nat)
      requires Valid()
      modifies `s
      ensures Valid() && GetToken(line, old(s)) == Token(kind, q, eq, s)
    {
      SkipSpace();
      q := s;
      var at := if s < |line| then line[s] else '\0';
      kind := at;
      if at == '\0' {
      } else if Symbol(at) {
        s := s + 1;
        if at == '>' && s < |line| && line[s] == '>' {
          kind := '+';
          s := s + 1;
        }
      } else {
        kind := 'a';
        while s < |line| && !White(line[s]) && !Symbol(line[s])
          invariant Valid() && q <= s && SkipPlain(line, s) == SkipPlain(line, q)
        {
          s := s + 1;
        }
      }
      eq := s;
      SkipSpace();
    }

    /** peek. */
    method Peeks(toks: set<char>) returns (found: bool)
      requires Valid()
      modifies `s
      ensures Valid() && s == SkipWhite(line, old(s)) && found == Peek(line, old(s), toks)
    {
      SkipSpace();
      found := s < |line| && line[s] in toks;
    }

    /** parseredirs, as the list of redirections that wrap the command. */
    method ParseRedirs() returns (ok: bool, rs: seq<Redirect>)
      requires Valid()
      modifies `s
      ensures Valid() && Redirs(line, old(s)) == if ok then Ok(rs, s) else Panic
    {
      hide Redirs, GetToken, SkipWhite, Peek, Prepend;
      rs := [];
      PrependNone(Redirs(line, s));
      RedirsAfterWhite(line, s);
      PeekAfterWhite(line, s, {'<', '>'});
      var more := Peeks({'<', '>'});
      while more
        invariant Valid() && more == Peek(line, s, {'<', '>'}) && SkipWhite(line, s) == s
        invariant Redirs(line, old(s)) == Prepend(rs, Redirs(line, s))
        decreases |line| - s
      {
        RedirsStep(line, s);
        var op, q, eq, kind;
        op, q, eq := NextToken();
        kind, q, eq := NextToken();
        if kind != 'a' {
          PrependPanic(rs);
          return false, rs;
        }
        var r := Redirect(Word(q, eq), ModeOf(op));
        PrependMore(rs, r, Redirs(line, s));
        RedirsAfterWhite(line, s);
        PeekAfterWhite(line, s, {'<', '>'});
        rs := rs + [r];
        more := Peeks({'<', '>'});
      }
      RedirsEnd(line, s);
      PrependEnd(rs, s);
      return true, rs;
    }

    /** parseexec without parentheses: arguments and redirections in any order. */
    method ParseWords() returns (ok: bool, cmd: Cmd<Word>)
      requires Valid() && !Peek(line, s, {'('})
      modifies `s
      ensures Valid() && ParseExec(line, old(s)) == if ok then Ok(cmd, s) else Panic
    {
      hide Redirs, GetToken, SkipWhite, Peek, Args, Wrap;
      var args: seq<Word> := [];
      var redirs, rs;
      cmd := Exec([]);
      ok, redirs := ParseRedirs();
      if !ok {
        return;
      }
      ghost var n, rs0 := s, redirs;
      ghost var acc: seq<Redirect> := [];
      assert redirs == rs0 + acc;
      var argc := 0;
      PrependNothing(Args(line, s, 0));
      while true
        invariant Valid() && argc == |args| < MAXARGS && redirs == rs0 + acc
        invariant Args(line, n, 0) == PrependParts(args, acc, Args(line, s, argc))
        decreases |line| - s
      {
        ArgsStep(line, s, argc);
        PeekAfterWhite(line, s, {'|', ')', '&', ';'});
        var over := Peeks({'|', ')', '&', ';'});
        if over {
          break;
        }
        var kind, q, eq;
        kind, q, eq := NextToken();
        if kind == '\0' {
          break;
        }
        if kind != 'a' {
          return false, cmd;
        }
        args := args + [Word(q, eq)];
        argc := argc + 1;
        if argc >= MAXARGS {
          return false, cmd;
        }
        ok, rs := ParseRedirs();
        if !ok {
          return;
        }
        PrependBoth(args[..argc - 1], acc, Word(q, eq), rs, Args(line, s, argc));
        assert args[..argc - 1] + [Word(q, eq)] == args;
        assert redirs + rs == rs0 + (acc + rs);
        acc := acc + rs;
        redirs := redirs + rs;
      }
      assert args + [] == args && acc + [] == acc;
      cmd := Wrap(Exec(args), redirs);
      ok := true;
    }

    /** parseexec, with parseblock for a command in parentheses. */
    method ParseSimple() returns (ok: bool, cmd: Cmd<Word>)
      requires Valid()
      modifies `s
      ensures Valid() && ParseExec(line, old(s)) == if ok then Ok(cmd, s) else Panic
      decreases |line| - s, 0
    {
      hide Redirs, GetToken, SkipWhite, Peek, Args, Wrap, ParseLine;
      PeekAfterWhite(line, s, {'('});
      ExecAfterWhite(line, s);
      var paren := Peeks({'('});
      if !paren {
        ok, cmd := ParseWords();
        return;
      }
      SeenToken(line, s, '(');
      var kind, q, eq;
      kind, q, eq := NextToken();
      ok, cmd := ParseList();
      if !ok {
        return;
      }
      PeekAfterWhite(line, s, {')'});
      var closed := Peeks({')'});
      if !closed {
        return false, cmd;
      }
      kind, q, eq := NextToken();
      var rs;
      ok, rs := ParseRedirs();
      cmd := Wrap(cmd, rs);
    }

    /** parsepipe. */
    method ParsePipeline() returns (ok: bool, cmd: Cmd<Word>)
      requires Valid()
      modifies `s
      ensures Valid() && ParsePipe(line, old(s)) == if ok then Ok(cmd, s) else Panic
      decreases |line| - s, 1
    {
      hide GetToken, SkipWhite, Peek, ParseExec;
      ok, cmd := ParseSimple();
      if !ok {
        return;
      }
      PeekAfterWhite(line, s, {'|'});
      SeenToken(line, s, '|');
      var bar := Peeks({'|'});
      if bar {
        var kind, q, eq, right;
        kind, q, eq := NextToken();
        ok, right := ParsePipeline();
        cmd := Pipe(cmd, right);
      }
    }

    /** parseline. */
    method ParseList() returns (ok: bool, cmd: Cmd<Word>)
      requires Valid()
      modifies `s
      ensures Valid() && ParseLine(line, old(s)) == if ok then Ok(cmd, s) else Panic
      decreases |line| - s, 2
    {
      hide GetToken, SkipWhite, Peek, ParsePipe, Backs;
      var kind, q, eq;
      ok, cmd := ParsePipeline();
      if !ok {
        return;
      }
      ghost var n, c := s, cmd;
      BacksStep(line, cmd, s);
      PeekAfterWhite(line, s, {'&'});
      var more := Peeks({'&'});
      while more
        invariant Valid() && SkipWhite(line, s) == s && n <= s && more == Peek(line, s, {'&'})
        invariant Backs(line, c, n) == Backs(line, cmd, s)
        decreases |line| - s
      {
        BacksStep(line, cmd, s);
        kind, q, eq := NextToken();
        cmd := Back(cmd);
        BacksStep(line, cmd, s);
        PeekAfterWhite(line, s, {'&'});
        more := Peeks({'&'});
      }
      BacksStep(line, cmd, s);
      PeekAfterWhite(line, s, {';'});
      SeenToken(line, s, ';');
      var semi := Peeks({';'});
      if semi {
        var right;
        kind, q, eq := NextToken();
        ok, right := ParseList();
        cmd := List(cmd, right);
      }
    }

    /** parsecmd: the tree, and the line with every word terminated. */
    method Parse() returns (ok: bool, cmd: Cmd<Word>, buf: array<char>)
      requires s == 0 && forall i :: 0 <= i < |line| ==> line[i] != '\0'
      modifies `s
      ensures fresh(buf) && ok == ParseCmd(line).Ok?
      ensures ok ==> cmd == ParseCmd(line).value && ReadBack(buf[..], cmd) == Read(line, cmd)
    {
      hide SkipWhite, ParseLine, Read, ReadBack, WordsOk;
      buf := new char[|line| + 1](i => if 0 <= i < |line| then line[i] else '\0');
      ok, cmd := ParseList();
      if !ok {
        return;
      }
      var n := s;
      var found := Peeks({});
      if s != |line| {
        return false, cmd, buf;
      }
      assert buf[..] == line + ['\0'];
      Terminate(line, buf, cmd);
      ReadsBack(line, buf[..], cmd, cmd);
    }
  }

  /** The end positions of all words. */
  function WordEnds(cmd: Cmd<Word>): set<nat> {
    match cmd
    case Exec(args) => set i | 0 <= i < |args| :: args[i].eq
    case Redir(d, file, _) => WordEnds(d) + {file.eq}
    case Pipe(l, r) => WordEnds(l) + WordEnds(r)
    case List(l, r) => WordEnds(l) + WordEnds(r)
    case Back(d) => WordEnds(d)
  }

  /** nulterminate: a NUL behind every word, and nothing else changes. */
  method Terminate(line: string, buf: array<char>, cmd: Cmd<Word>)
    requires buf.Length == |line| + 1 && WordsOk(line, cmd)
    modifies buf
    ensures forall i :: 0 <= i < buf.Length ==> buf[i] == if i in WordEnds(cmd) then '\0' else old(buf[i])
    decreases cmd
  {
    hide WordOk;
    match cmd
    case Exec(args) =>
      var i := 0;
      while i < |args|
        invariant 0 <= i <= |args|
        invariant forall x :: 0 <= x < buf.Length ==>
          buf[x] == if exists j :: 0 <= j < i && args[j].eq == x then '\0' else old(buf[x])
      {
        EndInside(line, args[i]);
        buf[args[i].eq] := '\0';
        i := i + 1;
      }
    case Redir(d, file, _) =>
      Terminate(line, buf, d);
      EndInside(line, file);
      buf[file.eq] := '\0';
    case Pipe(l, r) =>
      Terminate(line, buf, l);
      Terminate(line, buf, r);
    case List(l, r) =>
      Terminate(line, buf, l);
      Terminate(line, buf, r);
    case Back(d) => Terminate(line, buf, d);
  }

  lemma {:induction false} EndInside(line: string, w: Word)
    requires WordOk(line, w)
    ensures w.eq <= |line|
  {
  }

  /** The string a C program reads at q. */
  function CString(buf: string, q: nat): string
    decreases |buf| - q
  {
    if q >= |buf| || buf[q] == '\0' then "" else [buf[q]] + CString(buf, q + 1)
  }

  function ReadBack(buf: string, cmd: Cmd<Word>): Cmd<string> {
    match cmd
    case Exec(args) => Exec(seq(|args|, i requires 0 <= i < |args| => CString(buf, args[i].q)))
    case Redir(d, file, mode) => Redir(ReadBack(buf, d), CString(buf, file.q), mode)
    case Pipe(l, r) => Pipe(ReadBack(buf, l), ReadBack(buf, r))
    case List(l, r) => List(ReadBack(buf, l), ReadBack(buf, r))
    case Back(d) => Back(ReadBack(buf, d))
  }

  lemma {:induction false} CStringIs(buf: string, q: nat, e: nat)
    requires q <= e < |buf| && buf[e] == '\0' && forall i :: q <= i < e ==> buf[i] != '\0'
    ensures CString(buf, q) == buf[q..e]
    decreases e - q
  {
    if q < e {
      CStringIs(buf, q + 1, e);
    }
  }

  /** The line after nulterminate of a whole command. */
  ghost predicate Terminated(line: string, buf: string, whole: Cmd<Word>) {
    && |buf| == |line| + 1 && (forall i :: 0 <= i < |line| ==> line[i] != '\0')
    && forall i :: 0 <= i < |buf| ==> buf[i] == if i in WordEnds(whole) || i == |line| then '\0' else line[i]
  }

  /** Words end at separators, so terminating one never cuts into another. */
  lemma {:induction false} EndsSeparate(line: string, cmd: Cmd<Word>, x: nat)
    requires WordsOk(line, cmd) && x in WordEnds(cmd)
    ensures x == |line| || (x < |line| && (White(line[x]) || Symbol(line[x])))
    decreases cmd
  {
    match cmd
    case Exec(_) =>
    case Redir(d, file, _) =>
      if x in WordEnds(d) {
        EndsSeparate(line, d, x);
      }
    case Pipe(l, r) =>
      if x in WordEnds(l) {
        EndsSeparate(line, l, x);
      } else {
        EndsSeparate(line, r, x);
      }
    case List(l, r) =>
      if x in WordEnds(l) {
        EndsSeparate(line, l, x);
      } else {
        EndsSeparate(line, r, x);
      }
    case Back(d) => EndsSeparate(line, d, x);
  }

  lemma {:induction false} WordReads(line: string, buf: string, whole: Cmd<Word>, w: Word)
    requires Terminated(line, buf, whole) && WordsOk(line, whole) && WordOk(line, w) && w.eq in WordEnds(whole)
    ensures CString(buf, w.q) == ReadWord(line, w)
  {
    forall i | w.q <= i < w.eq ensures buf[i] == line[i] {
      if i in WordEnds(whole) {
        EndsSeparate(line, whole, i);
      }
    }
    CStringIs(buf, w.q, w.eq);
    assert buf[w.q..w.eq] == line[w.q..w.eq];
  }

  /** Every argument and file name reads as exactly its token. */
  lemma {:induction false} ReadsBack(line: string, buf: string, whole: Cmd<Word>, cmd: Cmd<Word>)
    requires Terminated(line, buf, whole) && WordsOk(line, whole) && WordsOk(line, cmd) && WordEnds(cmd) <= WordEnds(whole)
    ensures ReadBack(buf, cmd) == Read(line, cmd)
    decreases cmd
  {
    hide Terminated, CString, ReadWord, WordOk;
    match cmd
    case Exec(args) =>
      forall i | 0 <= i < |args| ensures CString(buf, args[i].q) == ReadWord(line, args[i]) {
        assert args[i].eq in WordEnds(cmd);
        WordReads(line, buf, whole, args[i]);
      }
    case Redir(d, file, _) =>
      ReadsBack(line, buf, whole, d);
      WordReads(line, buf, whole, file);
    case Pipe(l, r) =>
      ReadsBack(line, buf, whole, l);
      ReadsBack(line, buf, whole, r);
    case List(l, r) =>
      ReadsBack(line, buf, whole, l);
      ReadsBack(line, buf, whole, r);
    case Back(d) => ReadsBack(line, buf, whole, d);
  }

  // ------------------------------------------------------ the loops against the grammar

  lemma {:induction false} ExecAfterWhite(buf: string, s: nat)
    requires s <= |buf|
    ensures ParseExec(buf, SkipWhite(buf, s)) == ParseExec(buf, s)
  {
    hide Redirs, GetToken, SkipWhite, Peek, Args, ParseLine;
    PeekAfterWhite(buf, s, {'('});
    RedirsAfterWhite(buf, s);
  }

  /** A token that peek has seen moves the cursor. */
  lemma {:induction false} SeenToken(buf: string, s: nat, c: char)
    requires s <= |buf| && Symbol(c)
    ensures Peek(buf, s, {c}) ==> s < GetToken(buf, s).next <= |buf|
  {
  }

  /** One round of the '&' loop, white space apart. */
  lemma {:induction false} BacksStep(buf: string, c: Cmd<Word>, s: nat)
    requires s <= |buf|
    ensures Backs(buf, c, s) ==
      if Peek(buf, s, {'&'}) then Backs(buf, Back(c), GetToken(buf, s).next) else Ok(c, SkipWhite(buf, s))
    ensures Backs(buf, c, SkipWhite(buf, s)) == Backs(buf, c, s)
    ensures Peek(buf, s, {'&'}) ==> s < GetToken(buf, s).next <= |buf|
  {
    PeekAfterWhite(buf, s, {'&'});
  }

  lemma {:induction false} SkipTwice(buf: string, s: nat)
    requires s <= |buf|
    ensures SkipWhite(buf, SkipWhite(buf, s)) == SkipWhite(buf, s)
  {
  }

  /** Leading white space makes no difference. */
  lemma {:induction false} PeekAfterWhite(buf: string, s: nat, toks: set<char>)
    requires s <= |buf|
    ensures var r := SkipWhite(buf, s); SkipWhite(buf, r) == r && Peek(buf, r, toks) == Peek(buf, s, toks)
    ensures GetToken(buf, SkipWhite(buf, s)) == GetToken(buf, s)
  {
    hide SkipWhite, SkipPlain;
    SkipTwice(buf, s);
  }

  lemma {:induction false} RedirsAfterWhite(buf: string, s: nat)
    requires s <= |buf|
    ensures Redirs(buf, SkipWhite(buf, s)) == Redirs(buf, s)
  {
    hide SkipWhite, GetToken, Peek;
    PeekAfterWhite(buf, s, {'<', '>'});
  }

  lemma {:induction false} RedirsStep(buf: string, s: nat)
    requires s <= |buf| && Peek(buf, s, {'<', '>'})
    ensures var op := GetToken(buf, s); var file := GetToken(buf, op.next);
      Redirs(buf, s) ==
        if file.kind != 'a' then Panic else Prepend([Redirect(Word(file.q, file.eq), ModeOf(op.kind))], Redirs(buf, file.next))
  {
    hide GetToken, Peek, SkipWhite;
  }

  lemma {:induction false} RedirsEnd(buf: string, s: nat)
    requires s <= |buf| && !Peek(buf, s, {'<', '>'})
    ensures Redirs(buf, s) == Ok([], SkipWhite(buf, s))
  {
    hide Peek, SkipWhite;
  }

  lemma {:induction false} PrependNone(r: Result<seq<Redirect>>)
    ensures Prepend([], r) == r
  {
    if r.Ok? {
      assert [] + r.value == r.value;
    }
  }

  lemma {:induction false} PrependPanic(acc: seq<Redirect>)
    ensures Prepend(acc, Panic) == Panic
  {
  }

  lemma {:induction false} PrependEnd(acc: seq<Redirect>, n: nat)
    ensures Prepend(acc, Ok([], n)) == Ok(acc, n)
  {
    assert acc + [] == acc;
  }

  lemma {:induction false} PrependMore(acc: seq<Redirect>, x: Redirect, r: Result<seq<Redirect>>)
    ensures Prepend(acc, Prepend([x], r)) == Prepend(acc + [x], r)
  {
    if r.Ok? {
      assert acc + ([x] + r.value) == acc + [x] + r.value;
    }
  }

  lemma {:induction false} PrependNothing(r: Result<Parts>)
    ensures PrependParts([], [], r) == r
  {
    if r.Ok? {
      assert [] + r.value.args == r.value.args && [] + r.value.redirs == r.value.redirs;
    }
  }

  lemma {:induction false} PrependBoth(args: seq<Word>, acc: seq<Redirect>, w: Word, rs: seq<Redirect>, r: Result<Parts>)
    ensures PrependParts(args, acc, PrependParts([w], rs, r)) == PrependParts(args + [w], acc + rs, r)
  {
    if r.Ok? {
      assert args + ([w] + r.value.args) == args + [w] + r.value.args;
      assert acc + (rs + r.value.redirs) == acc + rs + r.value.redirs;
    }
  }

  /** One round of the argument loop. */
  lemma {:induction false} ArgsStep(buf: string, s: nat, argc: nat)
    requires s <= |buf|
    ensures var t := GetToken(buf, s);
      Args(buf, s, argc) ==
        if Peek(buf, s, {'|', ')', '&', ';'}) then Ok(Parts([], []), SkipWhite(buf, s))
        else if t.kind == '\0' then Ok(Parts([], []), t.next)
        else if t.kind != 'a' || argc + 1 >= MAXARGS then Panic
        else match Redirs(buf, t.next)
          case Panic => Panic
          case Ok(rs, n) => PrependParts([Word(t.q, t.eq)], rs, Args(buf, n, argc + 1))
  {
    hide GetToken, Peek, SkipWhite, Redirs;
  }
}
