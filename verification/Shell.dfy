/** The shell's parser (sh.c): a tokenizer and a recursive-descent parser over one line of input, whose
    trees point into the line, and the pass that ends every word in place with a NUL. */
module Shell {

  const NUL: char := '\0'
  const MAXARGS := 10

  predicate White(c: char) {
    c == ' ' || c == '\t' || c == '\r' || c == '\n' || c == '\U{000B}'
  }

  predicate Symbol(c: char) {
    c == '<' || c == '|' || c == '>' || c == '&' || c == ';' || c == '(' || c == ')'
  }

  predicate Plain(c: char) {
    !White(c) && !Symbol(c) && c != NUL
  }

  /** A word of the line, by its ends. */
  datatype Word = Word(q: nat, eq: nat)

  /** Input from a file on descriptor 0, or output to it (created) on descriptor 1. */
  datatype Mode = Input | Output

  datatype Cmd =
    | Exec(argv: seq<Word>)
    | Redir(cmd: Cmd, file: Word, mode: Mode)
    | Pipe(left: Cmd, right: Cmd)
    | List(left: Cmd, right: Cmd)
    | Back(cmd: Cmd)

  datatype Error = Leftovers | MissingFile | NotABlock | MissingParen | Syntax | TooManyArgs

  datatype Result = Ok(cmd: Cmd, next: nat) | Fail(error: Error)

  // ----- tokens -----

  /** The character at i; the line ends with a NUL. */
  function At(s: string, i: nat): (c: char) {
    if i < |s| then s[i] else NUL
  }

  function Skip(s: string, i: nat): (j: nat)
    requires i <= |s|
    ensures i <= j <= |s| && (j < |s| ==> !White(s[j]))
    decreases |s| - i
  {
    if i < |s| && White(s[i]) then Skip(s, i + 1) else i
  }

  function WordEnd(s: string, i: nat): (j: nat)
    requires i <= |s|
    ensures i <= j <= |s| && (i < |s| && !White(s[i]) && !Symbol(s[i]) ==> i < j)
    decreases |s| - i
  {
    if i < |s| && !White(s[i]) && !Symbol(s[i]) then WordEnd(s, i + 1) else i
  }

  /** The characters between a word's ends. */
  function Text(s: string, w: Word): (t: string) {
    if w.q <= w.eq <= |s| then s[w.q..w.eq] else []
  }

  datatype Token = Token(kind: char, word: Word, next: nat)

  /** gettoken: 'a' for a word, '+' for >>, NUL at the end, else the symbol itself. */
  function GetTok(s: string, i: nat): (t: Token)
    requires i <= |s|
    ensures i <= t.word.q <= t.word.eq <= t.next <= |s|
    ensures t.kind != NUL ==> t.word.q < t.word.eq
  {
    var q := Skip(s, i);
    var c := At(s, q);
    var eq := if c == NUL then q
              else if c == '>' then (if At(s, q + 1) == '>' then q + 2 else q + 1)
              else if Symbol(c) then q + 1
              else WordEnd(s, q);
    var kind := if c == '>' && At(s, q + 1) == '>' then '+' else if c == NUL || Symbol(c) then c else 'a';
    Token(kind, Word(q, eq), Skip(s, eq))
  }

  /** peek: skip white space; is the next character one of toks? */
  predicate Peeks(s: string, i: nat, toks: set<char>)
    requires i <= |s|
  {
    At(s, Skip(s, i)) != NUL && At(s, Skip(s, i)) in toks
  }

  lemma SkipTwice(s: string, i: nat)
    requires i <= |s|
    ensures Skip(s, Skip(s, i)) == Skip(s, i) && GetTok(s, Skip(s, i)) == GetTok(s, i)
  {
  }

  method SkipWhite(s: string, i: nat) returns (j: nat)
    requires i <= |s|
    ensures j == Skip(s, i)
  {
    j := i;
    while j < |s| && White(s[j])
      invariant i <= j <= |s| && Skip(s, j) == Skip(s, i)
    {
      j := j + 1;
    }
  }

  method Peek(s: string, i: nat, toks: set<char>) returns (found: bool, j: nat)
    requires i <= |s|
    ensures j == Skip(s, i) && found == Peeks(s, i, toks)
  {
    j := SkipWhite(s, i);
    found := At(s, j) != NUL && At(s, j) in toks;
  }

  method GetToken(s: string, i: nat) returns (kind: char, q: nat, eq: nat, next: nat)
    requires i <= |s|
    ensures GetTok(s, i) == Token(kind, Word(q, eq), next)
  {
    q := SkipWhite(s, i);
    kind := At(s, q);
    eq := q;
    if kind == NUL {
    } else if kind != '>' && Symbol(kind) {
      eq := eq + 1;
    } else if kind == '>' {
      eq := eq + 1;
      if At(s, eq) == '>' {
        kind := '+';
        eq := eq + 1;
      }
    } else {
      kind := 'a';
      eq := ScanWord(s, q);
    }
    next := SkipWhite(s, eq);
  }

  method ScanWord(s: string, i: nat) returns (j: nat)
    requires i <= |s|
    ensures j == WordEnd(s, i)
  {
    j := i;
    while j < |s| && !White(s[j]) && !Symbol(s[j])
      invariant i <= j <= |s| && WordEnd(s, j) == WordEnd(s, i)
    {
      j := j + 1;
    }
  }

  // ----- the grammar -----

  /** while(peek "&") */
  function Backs(s: string, i: nat, cmd: Cmd): (r: Result)
    requires i <= |s|
    ensures r.Ok? && i <= r.next <= |s|
    decreases |s| - i
  {
    if Peeks(s, i, {'&'}) then Backs(s, GetTok(s, i).next, Back(cmd)) else Ok(cmd, Skip(s, i))
  }

  function Redirs(s: string, i: nat, cmd: Cmd): (r: Result)
    requires i <= |s|
    ensures r.Ok? ==> i <= r.next <= |s|
    decreases |s| - i
  {
    if !Peeks(s, i, {'<', '>'}) then Ok(cmd, Skip(s, i))
    else
      var t := GetTok(s, i);
      var f := GetTok(s, t.next);
      if f.kind != 'a' then Fail(MissingFile)
      else Redirs(s, f.next, Redir(cmd, f.word, if t.kind == '<' then Input else Output))
  }

  /** cmd->argv[argc] = q: the exec node may already sit below redirections. */
  function AddArg(cmd: Cmd, w: Word): (r: Cmd) {
    match cmd
    case Exec(argv) => Exec(argv + [w])
    case Redir(c, f, m) => Redir(AddArg(c, w), f, m)
    case other => other
  }

  /** parseexec's loop, with argc arguments so far. */
  function Args(s: string, i: nat, cmd: Cmd, argc: nat): (r: Result)
    requires i <= |s|
    ensures r.Ok? ==> i <= r.next <= |s|
    decreases |s| - i
  {
    if Peeks(s, i, {'|', ')', '&', ';'}) then Ok(cmd, Skip(s, i))
    else
      var t := GetTok(s, i);
      if t.kind == NUL then Ok(cmd, t.next)
      else if t.kind != 'a' then Fail(Syntax)
      else if argc + 1 >= MAXARGS then Fail(TooManyArgs)
      else
        var r := Redirs(s, t.next, AddArg(cmd, t.word));
        if r.Fail? then r else Args(s, r.next, r.cmd, argc + 1)
  }

  function Line(s: string, i: nat): (r: Result)
    requires i <= |s|
    ensures r.Ok? ==> i <= r.next <= |s|
    decreases |s| - i, 3
  {
    var p := Pipeline(s, i);
    if p.Fail? then p
    else
      var b := Backs(s, p.next, p.cmd);
      if !Peeks(s, b.next, {';'}) then b
      else
        var r := Line(s, GetTok(s, b.next).next);
        if r.Fail? then r else Ok(List(b.cmd, r.cmd), r.next)
  }

  function Pipeline(s: string, i: nat): (r: Result)
    requires i <= |s|
    ensures r.Ok? ==> i <= r.next <= |s|
    decreases |s| - i, 2
  {
    var p := Simple(s, i);
    if p.Fail? then p
    else if !Peeks(s, p.next, {'|'}) then Ok(p.cmd, Skip(s, p.next))
    else
      var r := Pipeline(s, GetTok(s, p.next).next);
      if r.Fail? then r else Ok(Pipe(p.cmd, r.cmd), r.next)
  }

  function Simple(s: string, i: nat): (r: Result)
    requires i <= |s|
    ensures r.Ok? ==> i <= r.next <= |s|
    decreases |s| - i, 1
  {
    if Peeks(s, i, {'('}) then Block(s, i)
    else
      var r := Redirs(s, i, Exec([]));
      if r.Fail? then r else Args(s, r.next, r.cmd, 0)
  }

  function Block(s: string, i: nat): (r: Result)
    requires i <= |s|
    ensures r.Ok? ==> i <= r.next <= |s|
    decreases |s| - i, 0
  {
    if !Peeks(s, i, {'('}) then Fail(NotABlock)
    else
      var r := Line(s, GetTok(s, i).next);
      if r.Fail? then r
      else if !Peeks(s, r.next, {')'}) then Fail(MissingParen)
      else Redirs(s, GetTok(s, r.next).next, r.cmd)
  }

  function Command(s: string): (r: Result) {
    var r := Line(s, 0);
    if r.Fail? then r
    else if Skip(s, r.next) != |s| then Fail(Leftovers)
    else Ok(r.cmd, |s|)
  }

  // ----- the parser -----

  method ParseRedirs(s: string, i: nat, cmd: Cmd) returns (r: Result)
    requires i <= |s|
    ensures r == Redirs(s, i, cmd)
  {
    var c, j := cmd, i;
    while true
      invariant i <= j <= |s| && Redirs(s, j, c) == Redirs(s, i, cmd)
      decreases |s| - j
    {
      var more, tok, q, eq;
      SkipTwice(s, j);
      more, j := Peek(s, j, {'<', '>'});
      if !more {
        return Ok(c, j);
      }
      tok, q, eq, j := GetToken(s, j);
      var kind;
      kind, q, eq, j := GetToken(s, j);
      if kind != 'a' {
        return Fail(MissingFile);
      }
      c := Redir(c, Word(q, eq), if tok == '<' then Input else Output);
    }
  }

  method ParseExec(s: string, i: nat) returns (r: Result)
    requires i <= |s|
    ensures r == Simple(s, i)
    decreases |s| - i, 1
  {
    SkipTwice(s, i);
    var block, j := Peek(s, i, {'('});
    if block {
      r := ParseBlock(s, j);
      return;
    }
    r := ParseRedirs(s, j, Exec([]));
    if r.Fail? {
      return;
    }
    var argc := 0;
    while true
      invariant r.Ok? && i <= r.next <= |s| && Simple(s, i) == Args(s, r.next, r.cmd, argc)
      decreases |s| - r.next
    {
      SkipTwice(s, r.next);
      var ends;
      ends, j := Peek(s, r.next, {'|', ')', '&', ';'});
      if ends {
        return Ok(r.cmd, j);
      }
      var tok, q, eq;
      tok, q, eq, j := GetToken(s, j);
      if tok == NUL {
        return Ok(r.cmd, j);
      }
      if tok != 'a' {
        return Fail(Syntax);
      }
      argc := argc + 1;
      if argc >= MAXARGS {
        return Fail(TooManyArgs);
      }
      var c := AddArg(r.cmd, Word(q, eq));
      r := ParseRedirs(s, j, c);
      if r.Fail? {
        return;
      }
    }
  }

  method ParseBlock(s: string, i: nat) returns (r: Result)
    requires i <= |s|
    ensures r == Block(s, i)
    decreases |s| - i, 0
  {
    SkipTwice(s, i);
    var open, j := Peek(s, i, {'('});
    if !open {
      return Fail(NotABlock);
    }
    var tok, q, eq;
    tok, q, eq, j := GetToken(s, j);
    r := ParseLine(s, j);
    if r.Fail? {
      return;
    }
    SkipTwice(s, r.next);
    var close;
    close, j := Peek(s, r.next, {')'});
    if !close {
      return Fail(MissingParen);
    }
    tok, q, eq, j := GetToken(s, j);
    r := ParseRedirs(s, j, r.cmd);
  }

  method ParsePipe(s: string, i: nat) returns (r: Result)
    requires i <= |s|
    ensures r == Pipeline(s, i)
    decreases |s| - i, 2
  {
    r := ParseExec(s, i);
    if r.Fail? {
      return;
    }
    SkipTwice(s, r.next);
    var left, bar, j := r.cmd, false, 0;
    bar, j := Peek(s, r.next, {'|'});
    if !bar {
      return Ok(left, j);
    }
    var tok, q, eq;
    tok, q, eq, j := GetToken(s, j);
    r := ParsePipe(s, j);
    if r.Ok? {
      r := Ok(Pipe(left, r.cmd), r.next);
    }
  }

  method ParseLine(s: string, i: nat) returns (r: Result)
    requires i <= |s|
    ensures r == Line(s, i)
    decreases |s| - i, 3
  {
    r := ParsePipe(s, i);
    if r.Fail? {
      return;
    }
    ghost var p := r;
    var cmd, j := r.cmd, r.next;
    var tok, q, eq;
    SkipTwice(s, j);
    var more, k := Peek(s, j, {'&'});
    while more
      invariant i <= j <= |s| && k == Skip(s, j) && more == Peeks(s, j, {'&'})
      invariant Backs(s, j, cmd) == Backs(s, p.next, p.cmd)
      decreases |s| - j
    {
      SkipTwice(s, j);
      tok, q, eq, j := GetToken(s, k);
      cmd := Back(cmd);
      more, k := Peek(s, j, {'&'});
    }
    SkipTwice(s, j);
    SkipTwice(s, k);
    more, j := Peek(s, k, {';'});
    if !more {
      return Ok(cmd, j);
    }
    tok, q, eq, j := GetToken(s, j);
    r := ParseLine(s, j);
    if r.Ok? {
      r := Ok(List(cmd, r.cmd), r.next);
    }
  }

  method ParseCmd(s: string) returns (r: Result)
    ensures r == Command(s)
  {
    r := ParseLine(s, 0);
    if r.Fail? {
      return;
    }
    var more, j := Peek(s, r.next, {});
    if j != |s| {
      return Fail(Leftovers);
    }
    r := Ok(r.cmd, |s|);
  }

  // ----- what an accepted line looks like -----

  /** w is a whole word of the line: plain characters, ended by white space, a symbol or the end. */
  ghost predicate WordOk(s: string, w: Word) {
    && w.q < w.eq <= |s| && (forall k :: w.q <= k < w.eq ==> !White(s[k]) && !Symbol(s[k]))
    && (w.eq < |s| ==> White(s[w.eq]) || Symbol(s[w.eq]))
  }

  ghost predicate CmdOk(s: string, cmd: Cmd) {
    match cmd
    case Exec(argv) => |argv| < MAXARGS && forall i :: 0 <= i < |argv| ==> WordOk(s, argv[i])
    case Redir(c, f, _) => CmdOk(s, c) && WordOk(s, f)
    case Pipe(l, r) => CmdOk(s, l) && CmdOk(s, r)
    case List(l, r) => CmdOk(s, l) && CmdOk(s, r)
    case Back(c) => CmdOk(s, c)
  }

  lemma {:induction false} WordEndOk(s: string, i: nat)
    requires i <= |s|
    ensures var j := WordEnd(s, i);
            && (forall k :: i <= k < j ==> !White(s[k]) && !Symbol(s[k]))
            && (j < |s| ==> White(s[j]) || Symbol(s[j]))
    decreases |s| - i
  {
    if i < |s| && !White(s[i]) && !Symbol(s[i]) {
      WordEndOk(s, i + 1);
    }
  }

  lemma {:induction false} SkipOk(s: string, i: nat)
    requires i <= |s|
    ensures forall k :: i <= k < Skip(s, i) ==> White(s[k])
    decreases |s| - i
  {
    if i < |s| && White(s[i]) {
      SkipOk(s, i + 1);
    }
  }

  /** What a token is: blanks, then a maximal word, a symbol or nothing, then blanks up to the next token. */
  lemma TokenOk(s: string, i: nat)
    requires i <= |s|
    ensures var t := GetTok(s, i);
            && (forall k :: i <= k < t.word.q || t.word.eq <= k < t.next ==> White(s[k]))
            && (t.next < |s| ==> !White(s[t.next]))
            && (t.kind == NUL <==> At(s, t.word.q) == NUL) && (t.kind == 'a' <==> Plain(At(s, t.word.q)))
            && (t.kind == 'a' ==> WordOk(s, t.word))
            && (t.kind == '+' ==> Text(s, t.word) == ">>") && (Symbol(t.kind) ==> Text(s, t.word) == [t.kind])
  {
    SkipOk(s, i);
    SkipOk(s, GetTok(s, i).word.eq);
    WordEndOk(s, Skip(s, i));
  }

  lemma TokenWord(s: string, i: nat)
    requires i <= |s|
    ensures GetTok(s, i).kind == 'a' ==> WordOk(s, GetTok(s, i).word)
  {
    TokenOk(s, i);
  }

  /** Blanks in front of a command do not matter. */
  lemma BlanksIgnored(s: string, i: nat)
    requires i <= |s|
    ensures Line(s, Skip(s, i)) == Line(s, i)
  {
    hide Simple, GetTok, Backs;
    SimpleBlanks(s, i);
    assert Pipeline(s, Skip(s, i)) == Pipeline(s, i);
    hide Pipeline;
  }

  lemma SimpleBlanks(s: string, i: nat)
    requires i <= |s|
    ensures Simple(s, Skip(s, i)) == Simple(s, i)
  {
    hide Line, Redirs, GetTok;
    SkipTwice(s, i);
    RedirsBlanks(s, i, Exec([]));
  }

  lemma RedirsBlanks(s: string, i: nat, cmd: Cmd)
    requires i <= |s|
    ensures Redirs(s, Skip(s, i), cmd) == Redirs(s, i, cmd)
  {
    SkipTwice(s, i);
    hide GetTok;
  }

  /** An exec node with argc arguments below any redirections. */
  predicate Growing(cmd: Cmd, argc: nat) {
    match cmd
    case Exec(argv) => |argv| == argc
    case Redir(c, _, _) => Growing(c, argc)
    case _ => false
  }

  lemma {:induction false} RedirsOk(s: string, i: nat, cmd: Cmd, argc: nat)
    requires i <= |s| && CmdOk(s, cmd)
    ensures var r := Redirs(s, i, cmd); r.Ok? ==> CmdOk(s, r.cmd) && (Growing(cmd, argc) ==> Growing(r.cmd, argc))
    decreases |s| - i
  {
    if Peeks(s, i, {'<', '>'}) {
      var t := GetTok(s, i);
      var f := GetTok(s, t.next);
      if f.kind == 'a' {
        TokenWord(s, t.next);
        RedirsOk(s, f.next, Redir(cmd, f.word, if t.kind == '<' then Input else Output), argc);
      }
    }
  }

  lemma {:induction false} AddArgOk(s: string, cmd: Cmd, w: Word, argc: nat)
    requires CmdOk(s, cmd) && Growing(cmd, argc) && WordOk(s, w) && argc + 1 < MAXARGS
    ensures CmdOk(s, AddArg(cmd, w)) && Growing(AddArg(cmd, w), argc + 1)
  {
    if cmd.Redir? {
      AddArgOk(s, cmd.cmd, w, argc);
    }
  }

  lemma {:induction false} ArgsOk(s: string, i: nat, cmd: Cmd, argc: nat)
    requires i <= |s| && CmdOk(s, cmd) && Growing(cmd, argc)
    ensures var r := Args(s, i, cmd, argc); r.Ok? ==> CmdOk(s, r.cmd)
    decreases |s| - i
  {
    hide GetTok, Redirs, AddArg, Peeks, CmdOk, Growing;
    TokenWord(s, i);
    var t := GetTok(s, i);
    if !Peeks(s, i, {'|', ')', '&', ';'}) && t.kind == 'a' && argc + 1 < MAXARGS {
      AddArgOk(s, cmd, t.word, argc);
      var c := AddArg(cmd, t.word);
      RedirsOk(s, t.next, c, argc + 1);
      var r := Redirs(s, t.next, c);
      if r.Ok? {
        ArgsOk(s, r.next, r.cmd, argc + 1);
      }
    }
  }

  lemma {:induction false} BacksOk(s: string, i: nat, cmd: Cmd)
    requires i <= |s| && CmdOk(s, cmd)
    ensures CmdOk(s, Backs(s, i, cmd).cmd)
    decreases |s| - i
  {
    if Peeks(s, i, {'&'}) {
      BacksOk(s, GetTok(s, i).next, Back(cmd));
    }
  }

  lemma {:induction false} LineOk(s: string, i: nat)
    requires i <= |s|
    ensures Line(s, i).Ok? ==> CmdOk(s, Line(s, i).cmd)
    decreases |s| - i, 3
  {
    PipelineOk(s, i);
    var p := Pipeline(s, i);
    if p.Ok? {
      BacksOk(s, p.next, p.cmd);
      var b := Backs(s, p.next, p.cmd);
      if Peeks(s, b.next, {';'}) {
        LineOk(s, GetTok(s, b.next).next);
      }
    }
  }

  lemma {:induction false} PipelineOk(s: string, i: nat)
    requires i <= |s|
    ensures Pipeline(s, i).Ok? ==> CmdOk(s, Pipeline(s, i).cmd)
    decreases |s| - i, 2
  {
    SimpleOk(s, i);
    var p := Simple(s, i);
    if p.Ok? && Peeks(s, p.next, {'|'}) {
      PipelineOk(s, GetTok(s, p.next).next);
    }
  }

  lemma {:induction false} SimpleOk(s: string, i: nat)
    requires i <= |s|
    ensures Simple(s, i).Ok? ==> CmdOk(s, Simple(s, i).cmd)
    decreases |s| - i, 1
  {
    if Peeks(s, i, {'('}) {
      var r := Line(s, GetTok(s, i).next);
      LineOk(s, GetTok(s, i).next);
      if r.Ok? && Peeks(s, r.next, {')'}) {
        RedirsOk(s, GetTok(s, r.next).next, r.cmd, 0);
      }
    } else {
      RedirsOk(s, i, Exec([]), 0);
      var r := Redirs(s, i, Exec([]));
      if r.Ok? {
        ArgsOk(s, r.next, r.cmd, 0);
      }
    }
  }

  // ----- ending the words in place -----

  function Words(cmd: Cmd): (ws: set<Word>) {
    match cmd
    case Exec(argv) => set i | 0 <= i < |argv| :: argv[i]
    case Redir(c, f, _) => Words(c) + {f}
    case Pipe(l, r) => Words(l) + Words(r)
    case List(l, r) => Words(l) + Words(r)
    case Back(c) => Words(c)
  }

  ghost predicate IsEnd(cmd: Cmd, k: nat) {
    exists w :: w in Words(cmd) && w.eq == k
  }

  /** nulterminate writes a NUL behind every word, and nothing else. */
  method NulTerminate(buf: array<char>, cmd: Cmd)
    requires forall w :: w in Words(cmd) ==> w.eq < buf.Length
    modifies buf
    ensures forall k :: 0 <= k < buf.Length ==> buf[k] == if IsEnd(cmd, k) then NUL else old(buf[k])
    decreases cmd
  {
    match cmd
    case Exec(argv) =>
      var i := 0;
      while i < |argv|
        invariant 0 <= i <= |argv|
        invariant forall k :: 0 <= k < buf.Length ==>
                    buf[k] == if exists j :: 0 <= j < i && argv[j].eq == k then NUL else old(buf[k])
      {
        assert argv[i] in Words(cmd);
        buf[argv[i].eq] := NUL;
        i := i + 1;
      }
      assert forall k: nat :: IsEnd(cmd, k) <==> exists j :: 0 <= j < |argv| && argv[j].eq == k;
    case Redir(c, f, _) =>
      assert f in Words(cmd);
      NulTerminate(buf, c);
      buf[f.eq] := NUL;
    case Pipe(l, r) =>
      NulTerminate(buf, l);
      NulTerminate(buf, r);
    case List(l, r) =>
      NulTerminate(buf, l);
      NulTerminate(buf, r);
    case Back(c) =>
      NulTerminate(buf, c);
  }

  lemma {:induction false} AllWordsOk(s: string, cmd: Cmd, w: Word)
    requires CmdOk(s, cmd) && w in Words(cmd)
    ensures WordOk(s, w)
  {
    match cmd
    case Exec(argv) =>
    case Redir(c, f, _) => if w in Words(c) { AllWordsOk(s, c, w); }
    case Pipe(l, r) => if w in Words(l) { AllWordsOk(s, l, w); } else { AllWordsOk(s, r, w); }
    case List(l, r) => if w in Words(l) { AllWordsOk(s, l, w); } else { AllWordsOk(s, r, w); }
    case Back(c) => AllWordsOk(s, c, w);
  }

  /** The C string that starts at i. */
  function CString(b: seq<char>, i: nat): (r: string)
    requires i <= |b|
    decreases |b| - i
  {
    if i == |b| || b[i] == NUL then [] else [b[i]] + CString(b, i + 1)
  }

  lemma {:induction false} CStringIs(b: seq<char>, i: nat, j: nat)
    requires i <= j < |b| && b[j] == NUL && forall k :: i <= k < j ==> b[k] != NUL
    ensures CString(b, i) == b[i..j]
    decreases j - i
  {
    if i < j {
      CStringIs(b, i + 1, j);
      assert b[i..j] == [b[i]] + b[i + 1..j];
    }
  }

  /** No end of a word lies inside a word. */
  lemma EndsOutside(s: string, cmd: Cmd, w: Word, k: nat)
    requires CmdOk(s, cmd) && w in Words(cmd) && w.q <= k < w.eq
    ensures k < |s| && !IsEnd(cmd, k)
  {
    AllWordsOk(s, cmd, w);
    if v :| v in Words(cmd) && v.eq == k {
      AllWordsOk(s, cmd, v);
    }
  }

  /** parsecmd on a NUL-terminated buffer: if it accepts, every argument and file name, read as a C
      string, is the word the tokenizer delimited. */
  method ParseInPlace(buf: array<char>) returns (r: Result)
    requires buf.Length > 0 && buf[buf.Length - 1] == NUL
    requires forall k :: 0 <= k < buf.Length - 1 ==> buf[k] != NUL
    modifies buf
    ensures r == Command(old(buf[..buf.Length - 1]))
    ensures r.Fail? ==> buf[..] == old(buf[..])
    ensures r.Ok? ==> forall w :: w in Words(r.cmd) ==>
              w.q <= w.eq < buf.Length && CString(buf[..], w.q) == old(buf[..])[w.q..w.eq] != []
  {
    var s := buf[..buf.Length - 1];
    r := ParseCmd(s);
    if r.Ok? {
      LineOk(s, 0);
      forall w | w in Words(r.cmd) ensures WordOk(s, w) {
        AllWordsOk(s, r.cmd, w);
      }
      NulTerminate(buf, r.cmd);
      forall w | w in Words(r.cmd) ensures CString(buf[..], w.q) == old(buf[..])[w.q..w.eq] {
        forall k | w.q <= k < w.eq ensures buf[..][k] == old(buf[..])[k] != NUL {
          EndsOutside(s, r.cmd, w, k);
        }
        assert IsEnd(r.cmd, w.eq);
        CStringIs(buf[..], w.q, w.eq);
        assert buf[..][w.q..w.eq] == old(buf[..])[w.q..w.eq];
      }
    }
  }
}
