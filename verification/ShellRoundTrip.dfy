/** Parsing undoes printing. */
module ShellRoundTrip {
  import opened ShellSyntax

  predicate LegalWord(w: string) {
    w != "" && forall i :: 0 <= i < |w| ==> Plain(w[i])
  }

  predicate Legal(c: Cmd<string>) {
    match c
    case Exec(args) => |args| < MAXARGS && forall i :: 0 <= i < |args| ==> LegalWord(args[i])
    case Redir(d, file, _) => Legal(d) && LegalWord(file)
    case Pipe(l, r) => Legal(l) && Legal(r)
    case List(l, r) => Legal(l) && Legal(r)
    case Back(d) => Legal(d)
  }

  function Join(ws: seq<string>): string
    decreases |ws|
  {
    if ws == [] then "" else if |ws| == 1 then ws[0] else ws[0] + " " + Join(ws[1..])
  }

  function Group(c: Cmd<string>): string
    decreases c, 1
  {
    "(" + Print(c) + ")"
  }

  /** The fully parenthesised text of a command. */
  function Print(c: Cmd<string>): string
    decreases c, 0
  {
    match c
    case Exec(args) => Join(args)
    case Redir(d, file, mode) => Group(d) + (if mode == ReadOnly then "<" else ">") + file
    case Pipe(l, r) => Group(l) + "|" + Group(r)
    case List(l, r) => Group(l) + ";" + Group(r)
    case Back(d) => Group(d) + "&"
  }

  function ReadWord(buf: string, w: Word): string {
    if w.q <= w.eq <= |buf| then buf[w.q..w.eq] else ""
  }

  /** The tree with its words as strings. */
  function Read(buf: string, c: Cmd<Word>): Cmd<string> {
    match c
    case Exec(args) => Exec(seq(|args|, i requires 0 <= i < |args| => ReadWord(buf, args[i])))
    case Redir(d, file, mode) => Redir(Read(buf, d), ReadWord(buf, file), mode)
    case Pipe(l, r) => Pipe(Read(buf, l), Read(buf, r))
    case List(l, r) => List(Read(buf, l), Read(buf, r))
    case Back(d) => Back(Read(buf, d))
  }

  // ------------------------------------------------------ pieces of text

  ghost predicate At(buf: string, s: nat, text: string) {
    s + |text| <= |buf| && buf[s..s + |text|] == text
  }

  lemma {:induction false} AtSplit(buf: string, s: nat, x: string, y: string)
    requires At(buf, s, x + y)
    ensures At(buf, s, x) && At(buf, s + |x|, y)
  {
    var t := buf[s..s + |x + y|];
    assert t[..|x|] == x && t[|x|..] == y;
    assert buf[s..s + |x|] == t[..|x|] && buf[s + |x|..s + |x| + |y|] == t[|x|..];
  }

  /** The text of a command is over here. */
  predicate Ends(buf: string, e: nat) {
    e == |buf| || (e < |buf| && buf[e] == ')')
  }

  lemma {:induction false} SymbolToken(buf: string, s: nat)
    requires s < |buf| && Symbol(buf[s]) && (s + 1 < |buf| ==> !White(buf[s + 1]) && !(buf[s] == '>' == buf[s + 1]))
    ensures SkipWhite(buf, s) == s && GetToken(buf, s) == Token(buf[s], s, s + 1, s + 1)
  {
  }

  lemma {:induction false} PlainRun(buf: string, s: nat, e: nat)
    requires s <= e <= |buf| && (forall i :: s <= i < e ==> Plain(buf[i])) && (e < |buf| ==> !Plain(buf[e]) && buf[e] != '\0')
    ensures SkipPlain(buf, s) == e
    decreases e - s
  {
    if s < e {
      PlainRun(buf, s + 1, e);
    }
  }

  lemma {:induction false} WordToken(buf: string, s: nat, w: string)
    requires At(buf, s, w) && LegalWord(w) && (s + |w| < |buf| ==> !Plain(buf[s + |w|]) && buf[s + |w|] != '\0')
    ensures SkipWhite(buf, s) == s && GetToken(buf, s) == Token('a', s, s + |w|, SkipWhite(buf, s + |w|))
    ensures ReadWord(buf, Word(s, s + |w|)) == w && buf[s] == w[0]
  {
    assert forall i :: s <= i < s + |w| ==> buf[i] == buf[s..s + |w|][i - s];
    PlainRun(buf, s, s + |w|);
  }

  // ------------------------------------------------------ redirections

  lemma {:induction false} NoRedirs(buf: string, e: nat)
    requires e <= |buf| && (e < |buf| ==> !White(buf[e]) && buf[e] != '<' && buf[e] != '>')
    ensures Redirs(buf, e) == Ok([], e)
  {
  }

  lemma {:induction false} OneRedir(buf: string, e: nat, file: string, mode: Mode)
    requires At(buf, e, (if mode == ReadOnly then "<" else ">") + file) && LegalWord(file) && Ends(buf, e + 1 + |file|)
    ensures Redirs(buf, e) == Ok([Redirect(Word(e + 1, e + 1 + |file|), mode)], e + 1 + |file|)
    ensures ReadWord(buf, Word(e + 1, e + 1 + |file|)) == file
  {
    var op := if mode == ReadOnly then "<" else ">";
    AtSplit(buf, e, op, file);
    assert buf[e] == buf[e..e + 1][0];
    WordToken(buf, e + 1, file);
    SymbolToken(buf, e);
    NoRedirs(buf, e + 1 + |file|);
    var r := Redirect(Word(e + 1, e + 1 + |file|), mode);
    assert [r] + [] == [r];
  }

  // ------------------------------------------------------ arguments

  /** One argument with nothing redirected behind it. */
  lemma {:induction false} ArgsOne(buf: string, s: nat, w: string, n: nat, argc: nat)
    requires s < |buf| && SkipWhite(buf, s) == s && Plain(buf[s]) && argc + 1 < MAXARGS && n <= |buf|
    requires GetToken(buf, s) == Token('a', s, s + |w|, n) && Redirs(buf, n) == Ok([], n)
    ensures Args(buf, s, argc) ==
      match Args(buf, n, argc + 1)
      case Panic => Panic
      case Ok(ps, n') => Ok(Parts([Word(s, s + |w|)] + ps.args, ps.redirs), n')
  {
    hide GetToken, Redirs, SkipWhite;
    assert forall rs: seq<Redirect> :: [] + rs == rs;
  }

  lemma {:induction false} ArgsNone(buf: string, s: nat, argc: nat)
    requires s <= |buf| && Ends(buf, s)
    ensures Args(buf, s, argc) == Ok(Parts([], []), s)
  {
  }

  lemma {:induction false} ArgsParse(buf: string, s: nat, ws: seq<string>, argc: nat)
    requires At(buf, s, Join(ws)) && Ends(buf, s + |Join(ws)|) && argc + |ws| < MAXARGS
    requires forall i :: 0 <= i < |ws| ==> LegalWord(ws[i])
    ensures var r := Args(buf, s, argc);
      && r.Ok? && r.next == s + |Join(ws)| && r.value.redirs == [] && |r.value.args| == |ws|
      && forall i :: 0 <= i < |ws| ==> ReadWord(buf, r.value.args[i]) == ws[i]
    decreases |ws|
  {
    hide Args, GetToken, Redirs, SkipWhite, Plain, ReadWord;
    if ws == [] {
      ArgsNone(buf, s, argc);
    } else {
      var w, rest := ws[0], ws[1..];
      JoinStarts(buf, s, ws);
      var n := if |ws| == 1 then s + |w| else s + |w| + 1;
      if |ws| == 1 {
        LastWord(buf, s, w);
      } else {
        AtSplit(buf, s, w + " ", Join(rest));
        JoinStarts(buf, n, rest);
        SpacedWord(buf, s, w);
      }
      ArgsOne(buf, s, w, n, argc);
      ArgsParse(buf, n, rest, argc + 1);
      var r, q := Args(buf, s, argc), Args(buf, n, argc + 1);
      assert r.value.args == [Word(s, s + |w|)] + q.value.args;
      assert forall i :: 0 <= i < |rest| ==> rest[i] == ws[i + 1];
    }
  }

  lemma {:induction false} LastWord(buf: string, s: nat, w: string)
    requires At(buf, s, w) && LegalWord(w) && Ends(buf, s + |w|)
    ensures SkipWhite(buf, s) == s && GetToken(buf, s) == Token('a', s, s + |w|, s + |w|)
    ensures Redirs(buf, s + |w|) == Ok([], s + |w|) && ReadWord(buf, Word(s, s + |w|)) == w
  {
    WordToken(buf, s, w);
    NoRedirs(buf, s + |w|);
  }

  lemma {:induction false} SpacedWord(buf: string, s: nat, w: string)
    requires At(buf, s, w + " ") && LegalWord(w) && s + |w| + 1 < |buf| && Plain(buf[s + |w| + 1])
    ensures SkipWhite(buf, s) == s && GetToken(buf, s) == Token('a', s, s + |w|, s + |w| + 1)
    ensures Redirs(buf, s + |w| + 1) == Ok([], s + |w| + 1) && ReadWord(buf, Word(s, s + |w|)) == w
  {
    AtSplit(buf, s, w, " ");
    assert buf[s + |w|] == buf[s + |w|..s + |w| + 1][0];
    WordToken(buf, s, w);
    NoRedirs(buf, s + |w| + 1);
  }

  lemma {:induction false} JoinStarts(buf: string, s: nat, ws: seq<string>)
    requires ws != [] && At(buf, s, Join(ws)) && LegalWord(ws[0])
    ensures s < |buf| && Plain(buf[s])
  {
    assert Join(ws)[0] == ws[0][0];
    assert buf[s] == buf[s..s + |Join(ws)|][0];
  }

  // ------------------------------------------------------ commands

  /** The result is the command t, read up to e. */
  ghost predicate Parsed(buf: string, r: Result<Cmd<Word>>, t: Cmd<string>, e: nat) {
    r.Ok? && r.next == e && Read(buf, r.value) == t
  }

  /** The character at e is none of these, and not white. */
  predicate Stops(buf: string, e: nat, toks: set<char>) {
    e <= |buf| && (e < |buf| ==> !White(buf[e]) && buf[e] !in toks)
  }

  lemma {:induction false} PeekStops(buf: string, e: nat, toks: set<char>)
    requires Stops(buf, e, toks)
    ensures SkipWhite(buf, e) == e && !Peek(buf, e, toks)
  {
  }

  lemma {:induction false} PeekFinds(buf: string, e: nat, toks: set<char>)
    requires e < |buf| && buf[e] in toks && Symbol(buf[e])
    ensures SkipWhite(buf, e) == e && Peek(buf, e, toks)
  {
  }

  /** parsepipe without a pipe. */
  lemma {:induction false} PipeStops(buf: string, s: nat, c: Cmd<Word>, e: nat)
    requires s <= |buf| && ParseExec(buf, s) == Ok(c, e) && Stops(buf, e, {'|'})
    ensures ParsePipe(buf, s) == Ok(c, e)
  {
    hide ParseExec;
    PeekStops(buf, e, {'|'});
  }

  /** parseline without '&' and ';'. */
  lemma {:induction false} LineStops(buf: string, s: nat, c: Cmd<Word>, e: nat)
    requires s <= |buf| && ParsePipe(buf, s) == Ok(c, e) && Stops(buf, e, {'&', ';'})
    ensures ParseLine(buf, s) == Ok(c, e)
  {
    hide ParsePipe;
    PeekStops(buf, e, {'&'});
    PeekStops(buf, e, {';'});
  }

  lemma {:induction false} PrintStarts(buf: string, s: nat, c: Cmd<string>)
    requires Legal(c) && At(buf, s, Print(c)) && Ends(buf, s + |Print(c)|)
    ensures Stops(buf, s, {'|', '&', ';', '<', '>'})
    ensures c.Exec? ==> Stops(buf, s, {'('})
  {
    if Print(c) != "" {
      assert buf[s] == buf[s..s + |Print(c)|][0];
      if c.Exec? {
        JoinStarts(buf, s, c.args);
      } else {
        assert Print(c)[0] == '(';
      }
    }
  }

  lemma {:induction false} ExecParses(buf: string, s: nat, c: Cmd<string>)
    requires c.Exec? && Legal(c) && At(buf, s, Print(c)) && Ends(buf, s + |Print(c)|)
    ensures Parsed(buf, ParseLine(buf, s), c, s + |Print(c)|)
  {
    hide Args, Redirs, ParseLine, ParsePipe, SkipWhite, ReadWord;
    PrintStarts(buf, s, c);
    PeekStops(buf, s, {'('});
    NoRedirs(buf, s);
    ArgsParse(buf, s, c.args, 0);
    var ps := Args(buf, s, 0).value;
    var e := s + |Print(c)|;
    assert [] + ps.redirs == [];
    assert ParseExec(buf, s) == Ok(Exec(ps.args), e);
    PipeStops(buf, s, Exec(ps.args), e);
    LineStops(buf, s, Exec(ps.args), e);
    assert Read(buf, Exec(ps.args)).args == c.args;
  }

  /** A command in parentheses, before its redirections. */
  lemma {:induction false} GroupParses(buf: string, s: nat, d: Cmd<string>) returns (c: Cmd<Word>)
    requires Legal(d) && At(buf, s, Group(d)) && Parsed(buf, ParseLine(buf, s + 1), d, s + 1 + |Print(d)|)
    requires Stops(buf, s + |Group(d)|, {})
    ensures Read(buf, c) == d
    ensures ParseExec(buf, s) ==
      match Redirs(buf, s + |Group(d)|)
      case Panic => Panic
      case Ok(rs, n) => Ok(Wrap(c, rs), n)
  {
    hide ParseLine, Redirs, GetToken, Read;
    c := ParseLine(buf, s + 1).value;
    var n := s + 1 + |Print(d)|;
    GroupChars(buf, s, d);
    PrintStarts(buf, s + 1, d);
    PeekFinds(buf, s, {'('});
    SymbolToken(buf, s);
    PeekFinds(buf, n, {')'});
    SymbolToken(buf, n);
  }

  lemma {:induction false} GroupChars(buf: string, s: nat, d: Cmd<string>)
    requires At(buf, s, Group(d))
    ensures s < |buf| && buf[s] == '(' && At(buf, s + 1, Print(d))
    ensures s + 1 + |Print(d)| < |buf| && buf[s + 1 + |Print(d)|] == ')'
  {
    assert Group(d) == "(" + (Print(d) + ")");
    AtSplit(buf, s, "(", Print(d) + ")");
    AtSplit(buf, s + 1, Print(d), ")");
    var n := s + 1 + |Print(d)|;
    assert buf[s] == buf[s..s + 1][0] && buf[n] == buf[n..n + 1][0];
  }

  /** A command in parentheses that nothing redirects. */
  lemma {:induction false} GroupAlone(buf: string, s: nat, d: Cmd<string>)
    requires Legal(d) && At(buf, s, Group(d)) && Parsed(buf, ParseLine(buf, s + 1), d, s + 1 + |Print(d)|)
    requires Stops(buf, s + |Group(d)|, {'<', '>'})
    ensures Parsed(buf, ParseExec(buf, s), d, s + |Group(d)|)
  {
    hide ParseLine, ParseExec, Redirs;
    var c := GroupParses(buf, s, d);
    NoRedirs(buf, s + |Group(d)|);
  }

  lemma {:induction false} RedirParses(buf: string, s: nat, t: Cmd<string>)
    requires t.Redir? && Legal(t) && At(buf, s, Print(t)) && Ends(buf, s + |Print(t)|)
    requires Parsed(buf, ParseLine(buf, s + 1), t.cmd, s + 1 + |Print(t.cmd)|)
    ensures Parsed(buf, ParseLine(buf, s), t, s + |Print(t)|)
  {
    hide ParseLine, ParsePipe, ParseExec, Redirs, ReadWord;
    var g, op := Group(t.cmd), if t.mode == ReadOnly then "<" else ">";
    var m, e := s + |g|, s + |Print(t)|;
    assert Print(t) == g + (op + t.file);
    AtSplit(buf, s, g, op + t.file);
    assert buf[m] == buf[m..m + |op + t.file|][0];
    OneRedir(buf, m, t.file, t.mode);
    var c := GroupParses(buf, s, t.cmd);
    var rs := [Redirect(Word(m + 1, e), t.mode)];
    assert rs[..0] == [];
    assert Wrap(c, rs) == Redir(c, Word(m + 1, e), t.mode);
    PipeStops(buf, s, Wrap(c, rs), e);
    LineStops(buf, s, Wrap(c, rs), e);
  }

  /** Two groups with a separator between them. */
  lemma {:induction false} TwoGroups(buf: string, s: nat, l: Cmd<string>, sep: string, r: Cmd<string>)
    requires |sep| == 1 && At(buf, s, Group(l) + sep + Group(r))
    ensures At(buf, s, Group(l)) && At(buf, s + |Group(l)| + 1, Group(r))
    ensures s + |Group(l)| + 1 < |buf| && buf[s + |Group(l)|] == sep[0] && buf[s + |Group(l)| + 1] == '('
  {
    var m := s + |Group(l)|;
    AtSplit(buf, s, Group(l) + sep, Group(r));
    AtSplit(buf, s, Group(l), sep);
    assert buf[m] == buf[m..m + 1][0];
    GroupChars(buf, m + 1, r);
  }

  /** parsepipe with a pipe. */
  lemma {:induction false} PipeBar(buf: string, s: nat, c: Cmd<Word>, m: nat, d: Cmd<Word>, e: nat)
    requires s <= |buf| && ParseExec(buf, s) == Ok(c, m) && m + 1 < |buf| && buf[m] == '|' && !White(buf[m + 1])
    requires ParsePipe(buf, m + 1) == Ok(d, e)
    ensures ParsePipe(buf, s) == Ok(Pipe(c, d), e)
  {
    hide ParseExec, GetToken;
    PeekFinds(buf, m, {'|'});
    SymbolToken(buf, m);
  }

  /** parseline with a ';'. */
  lemma {:induction false} LineSemi(buf: string, s: nat, c: Cmd<Word>, m: nat, d: Cmd<Word>, e: nat)
    requires s <= |buf| && ParsePipe(buf, s) == Ok(c, m) && m + 1 < |buf| && buf[m] == ';' && !White(buf[m + 1])
    requires ParseLine(buf, m + 1) == Ok(d, e)
    ensures ParseLine(buf, s) == Ok(List(c, d), e)
  {
    hide ParsePipe, GetToken;
    PeekStops(buf, m, {'&'});
    PeekFinds(buf, m, {';'});
    SymbolToken(buf, m);
  }

  /** parseline with one '&'. */
  lemma {:induction false} LineBack(buf: string, s: nat, c: Cmd<Word>, m: nat)
    requires s <= |buf| && ParsePipe(buf, s) == Ok(c, m) && m < |buf| && buf[m] == '&' && Stops(buf, m + 1, {'&', ';'})
    ensures ParseLine(buf, s) == Ok(Back(c), m + 1)
  {
    hide ParsePipe, GetToken;
    PeekFinds(buf, m, {'&'});
    SymbolToken(buf, m);
    PeekStops(buf, m + 1, {'&'});
    PeekStops(buf, m + 1, {';'});
    assert Backs(buf, Back(c), m + 1) == Ok(Back(c), m + 1);
    assert Backs(buf, c, m) == Ok(Back(c), m + 1);
  }

  lemma {:induction false} PipeParses(buf: string, s: nat, t: Cmd<string>)
    requires t.Pipe? && Legal(t) && At(buf, s, Print(t)) && Ends(buf, s + |Print(t)|)
    requires Parsed(buf, ParseLine(buf, s + 1), t.left, s + 1 + |Print(t.left)|)
    requires s + |Group(t.left)| + 2 <= |buf|
    requires var n := s + |Group(t.left)| + 2; Parsed(buf, ParseLine(buf, n), t.right, n + |Print(t.right)|)
    ensures Parsed(buf, ParseLine(buf, s), t, s + |Print(t)|)
  {
    hide ParseLine, ParsePipe, ParseExec, Group, At;
    var m, e := s + |Group(t.left)|, s + |Print(t)|;
    TwoGroups(buf, s, t.left, "|", t.right);
    GroupSize(t.right);
    GroupAlone(buf, s, t.left);
    GroupAlone(buf, m + 1, t.right);
    var c, d := ParseExec(buf, s).value, ParseExec(buf, m + 1).value;
    PipeStops(buf, m + 1, d, e);
    PipeBar(buf, s, c, m, d, e);
    LineStops(buf, s, Pipe(c, d), e);
  }

  lemma {:induction false} GroupSize(c: Cmd<string>)
    ensures |Group(c)| == |Print(c)| + 2
  {
  }

  lemma {:induction false} ListParses(buf: string, s: nat, t: Cmd<string>)
    requires t.List? && Legal(t) && At(buf, s, Print(t)) && Ends(buf, s + |Print(t)|)
    requires Parsed(buf, ParseLine(buf, s + 1), t.left, s + 1 + |Print(t.left)|)
    requires s + |Group(t.left)| + 2 <= |buf|
    requires var n := s + |Group(t.left)| + 2; Parsed(buf, ParseLine(buf, n), t.right, n + |Print(t.right)|)
    ensures Parsed(buf, ParseLine(buf, s), t, s + |Print(t)|)
  {
    hide ParseLine, ParsePipe, ParseExec, Group, At;
    var m, e := s + |Group(t.left)|, s + |Print(t)|;
    TwoGroups(buf, s, t.left, ";", t.right);
    GroupSize(t.right);
    GroupAlone(buf, s, t.left);
    GroupAlone(buf, m + 1, t.right);
    var c, d := ParseExec(buf, s).value, ParseExec(buf, m + 1).value;
    PipeStops(buf, s, c, m);
    PipeStops(buf, m + 1, d, e);
    LineStops(buf, m + 1, d, e);
    LineSemi(buf, s, c, m, d, e);
  }

  lemma {:induction false} BackParses(buf: string, s: nat, t: Cmd<string>)
    requires t.Back? && Legal(t) && At(buf, s, Print(t)) && Ends(buf, s + |Print(t)|)
    requires Parsed(buf, ParseLine(buf, s + 1), t.cmd, s + 1 + |Print(t.cmd)|)
    ensures Parsed(buf, ParseLine(buf, s), t, s + |Print(t)|)
  {
    hide ParseLine, ParsePipe, ParseExec, Group;
    var m := s + |Group(t.cmd)|;
    AtSplit(buf, s, Group(t.cmd), "&");
    assert buf[m] == buf[m..m + 1][0];
    GroupAlone(buf, s, t.cmd);
    var c := ParseExec(buf, s).value;
    PipeStops(buf, s, c, m);
    LineBack(buf, s, c, m);
  }

  /** Where the parts of a command stand in its text. */
  lemma {:induction false} OnePart(buf: string, s: nat, t: Cmd<string>)
    requires (t.Redir? || t.Back?) && Legal(t) && At(buf, s, Print(t))
    ensures Legal(t.cmd) && At(buf, s + 1, Print(t.cmd)) && Ends(buf, s + 1 + |Print(t.cmd)|)
  {
    var rest := if t.Back? then "&" else (if t.mode == ReadOnly then "<" else ">") + t.file;
    assert Print(t) == Group(t.cmd) + rest;
    AtSplit(buf, s, Group(t.cmd), rest);
    GroupChars(buf, s, t.cmd);
  }

  lemma {:induction false} TwoParts(buf: string, s: nat, t: Cmd<string>)
    requires (t.Pipe? || t.List?) && Legal(t) && At(buf, s, Print(t))
    ensures Legal(t.left) && At(buf, s + 1, Print(t.left)) && Ends(buf, s + 1 + |Print(t.left)|)
    ensures var n := s + |Group(t.left)| + 2;
      Legal(t.right) && At(buf, n, Print(t.right)) && Ends(buf, n + |Print(t.right)|)
  {
    hide Group;
    TwoGroups(buf, s, t.left, if t.Pipe? then "|" else ";", t.right);
    GroupChars(buf, s, t.left);
    GroupChars(buf, s + |Group(t.left)| + 1, t.right);
  }

  /** The text of a command, wherever it stands, parses to the command. */
  lemma {:induction false} Parses(buf: string, s: nat, t: Cmd<string>)
    requires Legal(t) && At(buf, s, Print(t)) && Ends(buf, s + |Print(t)|)
    ensures Parsed(buf, ParseLine(buf, s), t, s + |Print(t)|)
    decreases t
  {
    hide ParseLine, Print, Legal, Group, Parsed;
    match t
    case Exec(_) => ExecParses(buf, s, t);
    case Redir(d, _, _) =>
      OnePart(buf, s, t);
      Parses(buf, s + 1, d);
      RedirParses(buf, s, t);
    case Pipe(l, r) =>
      TwoParts(buf, s, t);
      Parses(buf, s + 1, l);
      Parses(buf, s + |Group(l)| + 2, r);
      PipeParses(buf, s, t);
    case List(l, r) =>
      TwoParts(buf, s, t);
      Parses(buf, s + 1, l);
      Parses(buf, s + |Group(l)| + 2, r);
      ListParses(buf, s, t);
    case Back(d) =>
      OnePart(buf, s, t);
      Parses(buf, s + 1, d);
      BackParses(buf, s, t);
  }

  /** Main result: parsing the fully parenthesised text of a command rebuilds the command. */
  lemma {:induction false} ParseUndoesPrint(t: Cmd<string>)
    requires Legal(t)
    ensures ParseCmd(Print(t)).Ok? && Read(Print(t), ParseCmd(Print(t)).value) == t
  {
    hide ParseLine, Print;
    var buf := Print(t);
    assert buf[0..|buf|] == buf;
    Parses(buf, 0, t);
  }
}
