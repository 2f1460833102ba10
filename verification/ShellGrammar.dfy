/** The language of the shell as a grammar over lexemes, with the tree that each sentence means. The parser
    accepts exactly the sentences whose commands have fewer than MAXARGS arguments, and gives their trees. */
module ShellGrammar {
  import opened Shell

  // ----- lexemes -----

  /** A word, or a symbol; '+' is the doubled greater-than sign. */
  datatype Lexeme = Name(text: string) | Mark(c: char)

  /** What gettoken finds from position i on. */
  function Lexemes(s: string, i: nat): (ls: seq<Lexeme>)
    requires i <= |s|
    decreases |s| - i
  {
    var t := GetTok(s, i);
    if t.kind == NUL then [] else [LexemeOf(s, t)] + Lexemes(s, t.next)
  }

  function LexemeOf(s: string, t: Token): (l: Lexeme) {
    if t.kind == 'a' then Name(Text(s, t.word)) else Mark(t.kind)
  }

  lemma FirstIs(s: string, i: nat)
    requires i <= |s|
    ensures var t, ls := GetTok(s, i), Lexemes(s, i);
            && (ls == [] <==> t.kind == NUL)
            && (ls != [] ==> ls[0] == LexemeOf(s, t) && ls[1..] == Lexemes(s, t.next) && t.next > i)
  {
  }

  /** The next character tells what comes next. */
  lemma Ahead(s: string, i: nat)
    requires i <= |s|
    ensures var ls, c := Lexemes(s, i), At(s, Skip(s, i));
            && Lexemes(s, Skip(s, i)) == ls
            && (ls == [] <==> c == NUL)
            && (ls != [] ==> (ls[0].Name? <==> Plain(c)))
            && (ls != [] && ls[0].Mark? ==>
                  Symbol(c) && ls[0].c == if c == '>' && At(s, Skip(s, i) + 1) == '>' then '+' else c)
  {
    SkipTwice(s, i);
    hide Text;
  }

  /** No redirection is next. */
  predicate NoRedirect(ls: seq<Lexeme>) {
    ls != [] && ls[0].Mark? ==> ls[0].c != '<' && ls[0].c != '>' && ls[0].c != '+'
  }

  predicate Starts(ls: seq<Lexeme>, c: char) {
    ls != [] && ls[0] == Mark(c)
  }

  /** A simple command ends here. */
  predicate Ends(ls: seq<Lexeme>) {
    ls == [] || Starts(ls, '|') || Starts(ls, '&') || Starts(ls, ';') || Starts(ls, ')')
  }

  /** What peek says about each symbol the parser looks for. */
  lemma Peeked(s: string, i: nat)
    requires i <= |s|
    ensures var ls := Lexemes(s, i);
            && (Peeks(s, i, {'('}) <==> Starts(ls, '(')) && (Peeks(s, i, {')'}) <==> Starts(ls, ')'))
            && (Peeks(s, i, {'|'}) <==> Starts(ls, '|')) && (Peeks(s, i, {'&'}) <==> Starts(ls, '&'))
            && (Peeks(s, i, {';'}) <==> Starts(ls, ';')) && (Peeks(s, i, {'<', '>'}) <==> !NoRedirect(ls))
            && (Peeks(s, i, {'|', ')', '&', ';'}) <==> ls != [] && Ends(ls))
  {
    Ahead(s, i);
    hide Lexemes;
  }

  // ----- the grammar -----

  datatype Sign = In | Out | Append

  datatype Redirect = Redirect(sign: Sign, file: string)

  datatype Item = Arg(word: string) | To(redirect: Redirect)

  /** Words and redirections in any order, or a sentence in parentheses with redirections behind. */
  datatype Term = Flat(items: seq<Item>) | Group(sentence: Sentence, redirects: seq<Redirect>)

  /** Terms with bars between. */
  datatype Chain = Single(term: Term) | Into(term: Term, rest: Chain)

  /** Chains, each with any number of ampersands behind, and semicolons between. */
  datatype Sentence = Final(chain: Chain, backs: nat) | Then(chain: Chain, backs: nat, rest: Sentence)

  function SignChar(sign: Sign): (c: char) {
    match sign case In => '<' case Out => '>' case Append => '+'
  }

  function SpellRedirect(r: Redirect): (ls: seq<Lexeme>) {
    [Mark(SignChar(r.sign)), Name(r.file)]
  }

  function SpellRedirects(rs: seq<Redirect>): (ls: seq<Lexeme>) {
    if rs == [] then [] else SpellRedirect(rs[0]) + SpellRedirects(rs[1..])
  }

  function SpellItem(x: Item): (ls: seq<Lexeme>) {
    match x case Arg(w) => [Name(w)] case To(r) => SpellRedirect(r)
  }

  function SpellItems(items: seq<Item>): (ls: seq<Lexeme>) {
    if items == [] then [] else SpellItem(items[0]) + SpellItems(items[1..])
  }

  function SpellTerm(t: Term): (ls: seq<Lexeme>) {
    match t
    case Flat(items) => SpellItems(items)
    case Group(x, rs) => [Mark('(')] + SpellSentence(x) + [Mark(')')] + SpellRedirects(rs)
  }

  function SpellChain(c: Chain): (ls: seq<Lexeme>) {
    match c
    case Single(t) => SpellTerm(t)
    case Into(t, rest) => SpellTerm(t) + [Mark('|')] + SpellChain(rest)
  }

  function SpellBacks(n: nat): (ls: seq<Lexeme>) {
    if n == 0 then [] else [Mark('&')] + SpellBacks(n - 1)
  }

  function SpellSentence(x: Sentence): (ls: seq<Lexeme>) {
    match x
    case Final(c, n) => SpellChain(c) + SpellBacks(n)
    case Then(c, n, rest) => SpellChain(c) + SpellBacks(n) + [Mark(';')] + SpellSentence(rest)
  }

  function ArgsOf(items: seq<Item>): (args: seq<string>) {
    if items == [] then [] else (if items[0].Arg? then [items[0].word] else []) + ArgsOf(items[1..])
  }

  function RedirectsOf(items: seq<Item>): (rs: seq<Redirect>) {
    if items == [] then [] else (if items[0].To? then [items[0].redirect] else []) + RedirectsOf(items[1..])
  }

  /** No command has MAXARGS arguments. */
  predicate Fits(t: Term) {
    match t
    case Flat(items) => |ArgsOf(items)| < MAXARGS
    case Group(x, _) => SentenceFits(x)
  }

  predicate ChainFits(c: Chain) {
    Fits(c.term) && (c.Into? ==> ChainFits(c.rest))
  }

  predicate SentenceFits(x: Sentence) {
    ChainFits(x.chain) && (x.Then? ==> SentenceFits(x.rest))
  }

  // ----- what a sentence means -----

  /** A command by its words rather than by where they stand. */
  datatype Tree =
    | Run(args: seq<string>)
    | Redirected(tree: Tree, file: string, mode: Mode)
    | Piped(left: Tree, right: Tree)
    | Sequence(left: Tree, right: Tree)
    | Background(tree: Tree)

  function Meaning(s: string, cmd: Cmd): (t: Tree) {
    match cmd
    case Exec(argv) => Run(seq(|argv|, i requires 0 <= i < |argv| => Text(s, argv[i])))
    case Redir(c, f, m) => Redirected(Meaning(s, c), Text(s, f), m)
    case Pipe(l, r) => Piped(Meaning(s, l), Meaning(s, r))
    case List(l, r) => Sequence(Meaning(s, l), Meaning(s, r))
    case Back(c) => Background(Meaning(s, c))
  }

  /** Both > and >> open the file for output, without appending. */
  function ModeOf(sign: Sign): (m: Mode) {
    if sign == In then Input else Output
  }

  /** The redirections around t, the first one innermost. */
  function Wrapped(t: Tree, rs: seq<Redirect>): (r: Tree) {
    if rs == [] then t
    else
      var last := rs[|rs| - 1];
      Redirected(Wrapped(t, rs[..|rs| - 1]), last.file, ModeOf(last.sign))
  }

  function Backed(t: Tree, n: nat): (r: Tree) {
    if n == 0 then t else Background(Backed(t, n - 1))
  }

  /** All the words, in order, as one command, inside all the redirections, in order. */
  function TermTree(t: Term): (r: Tree) {
    match t
    case Flat(items) => Wrapped(Run(ArgsOf(items)), RedirectsOf(items))
    case Group(x, rs) => Wrapped(SentenceTree(x), rs)
  }

  function ChainTree(c: Chain): (r: Tree) {
    match c
    case Single(t) => TermTree(t)
    case Into(t, rest) => Piped(TermTree(t), ChainTree(rest))
  }

  function SentenceTree(x: Sentence): (r: Tree) {
    match x
    case Final(c, n) => Backed(ChainTree(c), n)
    case Then(c, n, rest) => Sequence(Backed(ChainTree(c), n), SentenceTree(rest))
  }

  // ----- one step of the parser -----

  /** What is left of parseexec: redirections, then the loop over the words. */
  function Remaining(s: string, i: nat, cmd: Cmd, argc: nat): (r: Result)
    requires i <= |s|
    ensures r.Ok? ==> i <= r.next <= |s|
  {
    var r := Redirs(s, i, cmd);
    if r.Fail? then r else Args(s, r.next, r.cmd, argc)
  }

  lemma RedirStep(s: string, i: nat, cmd: Cmd, r: Redirect, rest: seq<Lexeme>) returns (w: Word, k: nat)
    requires i <= |s| && Lexemes(s, i) == SpellRedirect(r) + rest
    ensures i < k <= |s| && Text(s, w) == r.file && Lexemes(s, k) == rest
    ensures Redirs(s, i, cmd) == Redirs(s, k, Redir(cmd, w, ModeOf(r.sign)))
  {
    var t := GetTok(s, i);
    FirstIs(s, i);
    FirstIs(s, t.next);
    Peeked(s, i);
    w, k := GetTok(s, t.next).word, GetTok(s, t.next).next;
    hide GetTok, Lexemes, Peeks;
  }

  lemma RemainingSame(s: string, i: nat, k: nat, cmd: Cmd, cmd': Cmd, argc: nat)
    requires i <= |s| && k <= |s| && Redirs(s, i, cmd) == Redirs(s, k, cmd')
    ensures Remaining(s, i, cmd, argc) == Remaining(s, k, cmd', argc)
  {
    hide Redirs, Args;
  }

  lemma RedirsDone(s: string, i: nat, cmd: Cmd)
    requires i <= |s| && NoRedirect(Lexemes(s, i))
    ensures Redirs(s, i, cmd) == Ok(cmd, Skip(s, i)) && Lexemes(s, Skip(s, i)) == Lexemes(s, i)
  {
    Peeked(s, i);
    Ahead(s, i);
    hide GetTok, Lexemes, Peeks;
  }

  lemma ArgStep(s: string, i: nat, cmd: Cmd, argc: nat)
    requires i <= |s| && Lexemes(s, i) != [] && Lexemes(s, i)[0].Name? && argc + 1 < MAXARGS
    ensures var t := GetTok(s, i);
            && Lexemes(s, i)[0].text == Text(s, t.word) && t.next > i && Lexemes(s, t.next) == Lexemes(s, i)[1..]
            && Remaining(s, i, cmd, argc) == Remaining(s, t.next, AddArg(cmd, t.word), argc + 1)
  {
    var j := Skip(s, i);
    RedirsDone(s, i, cmd);
    SkipTwice(s, i);
    FirstIs(s, i);
    Peeked(s, j);
    hide GetTok, Lexemes, Peeks, Redirs;
  }

  lemma ArgsDone(s: string, i: nat, cmd: Cmd, argc: nat)
    requires i <= |s| && Ends(Lexemes(s, i))
    ensures Remaining(s, i, cmd, argc).Ok? && Remaining(s, i, cmd, argc).cmd == cmd
    ensures Lexemes(s, Remaining(s, i, cmd, argc).next) == Lexemes(s, i)
  {
    var j := Skip(s, i);
    RedirsDone(s, i, cmd);
    FirstIs(s, j);
    Peeked(s, j);
    Ahead(s, j);
    EndStays(s, j);
    hide GetTok, Lexemes, Peeks, Redirs;
  }

  lemma EndStays(s: string, i: nat)
    requires i <= |s|
    ensures Lexemes(s, i) == [] ==> Lexemes(s, GetTok(s, i).next) == []
  {
    SkipTwice(s, i);
  }

  // ----- trees, step by step -----

  lemma RedirMeans(s: string, cmd: Cmd, w: Word, t: Tree, done: seq<Redirect>, r: Redirect)
    requires Meaning(s, cmd) == Wrapped(t, done) && Text(s, w) == r.file
    ensures Meaning(s, Redir(cmd, w, ModeOf(r.sign))) == Wrapped(t, done + [r])
  {
    assert (done + [r])[..|done|] == done;
  }

  /** Adding an argument below the redirections. */
  lemma {:induction false} AddArgMeans(s: string, cmd: Cmd, w: Word, args: seq<string>, rs: seq<Redirect>)
    requires Meaning(s, cmd) == Wrapped(Run(args), rs)
    ensures Meaning(s, AddArg(cmd, w)) == Wrapped(Run(args + [Text(s, w)]), rs)
  {
    hide Text;
    if rs == [] {
      var argv := cmd.argv;
      assert Meaning(s, Exec(argv + [w])).args == args + [Text(s, w)];
    } else {
      AddArgMeans(s, cmd.cmd, w, args, rs[..|rs| - 1]);
    }
  }

  // ----- every sentence is parsed -----

  lemma {:induction false} RedirsRead(s: string, i: nat, cmd: Cmd, t: Tree, done: seq<Redirect>, rs: seq<Redirect>,
                                      rest: seq<Lexeme>)
    returns (c: Cmd, j: nat)
    requires i <= |s| && Lexemes(s, i) == SpellRedirects(rs) + rest && NoRedirect(rest)
    requires Meaning(s, cmd) == Wrapped(t, done)
    ensures j <= |s| && Redirs(s, i, cmd) == Ok(c, j) && Lexemes(s, j) == rest && Meaning(s, c) == Wrapped(t, done + rs)
    decreases |rs|
  {
    hide *;
    RedirectsApart(done, rs, rest);
    if rs == [] {
      RedirsDone(s, i, cmd);
      c, j := cmd, Skip(s, i);
    } else {
      var w, k := RedirStep(s, i, cmd, rs[0], SpellRedirects(rs[1..]) + rest);
      RedirMeans(s, cmd, w, t, done, rs[0]);
      c, j := RedirsRead(s, k, Redir(cmd, w, ModeOf(rs[0].sign)), t, done + [rs[0]], rs[1..], rest);
    }
  }

  lemma {:induction false} RedirectsApart(done: seq<Redirect>, rs: seq<Redirect>, rest: seq<Lexeme>)
    ensures if rs == [] then SpellRedirects(rs) + rest == rest && done + rs == done
            else SpellRedirects(rs) + rest == SpellRedirect(rs[0]) + (SpellRedirects(rs[1..]) + rest)
                 && done + rs == done + [rs[0]] + rs[1..]
  {
  }

  lemma {:induction false} ItemsRead(s: string, i: nat, cmd: Cmd, args: seq<string>, rs: seq<Redirect>,
                                     items: seq<Item>, rest: seq<Lexeme>)
    returns (c: Cmd, j: nat)
    requires i <= |s| && Lexemes(s, i) == SpellItems(items) + rest && Ends(rest)
    requires Meaning(s, cmd) == Wrapped(Run(args), rs) && |args| + |ArgsOf(items)| < MAXARGS
    ensures j <= |s| && Remaining(s, i, cmd, |args|) == Ok(c, j) && Lexemes(s, j) == rest
    ensures Meaning(s, c) == Wrapped(Run(args + ArgsOf(items)), rs + RedirectsOf(items))
    decreases |items|
  {
    hide *;
    if items == [] {
      NoItems(args, rs, rest);
      ArgsDone(s, i, cmd, |args|);
      c, j := Remaining(s, i, cmd, |args|).cmd, Remaining(s, i, cmd, |args|).next;
    } else {
      ItemsApart(args, rs, items, rest);
      var tail := SpellItems(items[1..]) + rest;
      match items[0]
      case Arg(word) =>
        ArgStep(s, i, cmd, |args|);
        var t := GetTok(s, i);
        AddArgMeans(s, cmd, t.word, args, rs);
        c, j := ItemsRead(s, t.next, AddArg(cmd, t.word), args + [word], rs, items[1..], rest);
      case To(r) =>
        var w, k := RedirStep(s, i, cmd, r, tail);
        RedirMeans(s, cmd, w, Run(args), rs, r);
        RemainingSame(s, i, k, cmd, Redir(cmd, w, ModeOf(r.sign)), |args|);
        c, j := ItemsRead(s, k, Redir(cmd, w, ModeOf(r.sign)), args, rs + [r], items[1..], rest);
    }
  }

  lemma NoItems(args: seq<string>, rs: seq<Redirect>, rest: seq<Lexeme>)
    ensures SpellItems([]) + rest == rest && args + ArgsOf([]) == args && rs + RedirectsOf([]) == rs
            && |ArgsOf([])| == 0
  {
  }

  lemma {:induction false} ItemsApart(args: seq<string>, rs: seq<Redirect>, items: seq<Item>, rest: seq<Lexeme>)
    requires items != []
    ensures var tail := SpellItems(items[1..]) + rest;
            match items[0]
            case Arg(w) =>
              && SpellItems(items) + rest == [Name(w)] + tail && (SpellItems(items) + rest)[1..] == tail
              && args + ArgsOf(items) == args + [w] + ArgsOf(items[1..])
              && RedirectsOf(items) == RedirectsOf(items[1..])
              && |ArgsOf(items)| == 1 + |ArgsOf(items[1..])|
            case To(r) =>
              && SpellItems(items) + rest == SpellRedirect(r) + tail
              && rs + RedirectsOf(items) == rs + [r] + RedirectsOf(items[1..]) && ArgsOf(items) == ArgsOf(items[1..])
  {
    FirstItem(items);
    Regroup(SpellItem(items[0]), SpellItems(items[1..]), rest);
    hide SpellItems, ArgsOf, RedirectsOf, SpellRedirect;
    match items[0] {
      case Arg(w) => Regroup(args, [w], ArgsOf(items[1..]));
      case To(r) => Regroup(rs, [r], RedirectsOf(items[1..]));
    }
  }

  lemma {:induction false} FirstItem(items: seq<Item>)
    requires items != []
    ensures SpellItems(items) == SpellItem(items[0]) + SpellItems(items[1..])
    ensures match items[0]
            case Arg(w) => ArgsOf(items) == [w] + ArgsOf(items[1..]) && RedirectsOf(items) == RedirectsOf(items[1..])
            case To(r) => RedirectsOf(items) == [r] + RedirectsOf(items[1..]) && ArgsOf(items) == ArgsOf(items[1..])
  {
    hide SpellItem;
  }

  lemma Regroup<T>(a: seq<T>, b: seq<T>, c: seq<T>)
    ensures (a + b) + c == a + (b + c)
  {
  }

  lemma {:induction false} TermRead(s: string, i: nat, t: Term, rest: seq<Lexeme>) returns (c: Cmd, j: nat)
    requires i <= |s| && Lexemes(s, i) == SpellTerm(t) + rest && Ends(rest) && Fits(t)
    ensures i <= j <= |s| && Simple(s, i) == Ok(c, j) && Lexemes(s, j) == rest && Meaning(s, c) == TermTree(t)
    decreases t
  {
    hide *;
    match t
    case Flat(items) =>
      FlatParts(s, items, rest);
      FlatStart(s, i, items, rest);
      c, j := ItemsRead(s, i, Exec([]), [], [], items, rest);
    case Group(x, rs) =>
      GroupParts(x, rs, rest);
      var next := OpenStep(s, i);
      var a, k := SentenceRead(s, next, x, GroupTail(rs, rest));
      var after := CloseStep(s, i, next, a, k);
      NotWrapped(SentenceTree(x), rs);
      c, j := RedirsRead(s, after, a, SentenceTree(x), [], rs, rest);
  }

  lemma {:induction false} FlatParts(s: string, items: seq<Item>, rest: seq<Lexeme>)
    ensures SpellTerm(Flat(items)) == SpellItems(items) && (Fits(Flat(items)) <==> |ArgsOf(items)| < MAXARGS)
    ensures TermTree(Flat(items)) == Wrapped(Run(ArgsOf(items)), RedirectsOf(items))
    ensures Meaning(s, Exec([])) == Wrapped(Run([]), []) && MAXARGS > 0
    ensures [] + ArgsOf(items) == ArgsOf(items) && [] + RedirectsOf(items) == RedirectsOf(items)
  {
    hide ArgsOf, RedirectsOf, SpellItems;
  }

  /** What follows the sentence in a group. */
  function GroupTail(rs: seq<Redirect>, rest: seq<Lexeme>): (ls: seq<Lexeme>) {
    [Mark(')')] + (SpellRedirects(rs) + rest)
  }

  lemma {:induction false} GroupParts(x: Sentence, rs: seq<Redirect>, rest: seq<Lexeme>)
    ensures var all := SpellTerm(Group(x, rs)) + rest;
            all == [Mark('(')] + (SpellSentence(x) + GroupTail(rs, rest)) && Starts(all, '(')
            && all[1..] == SpellSentence(x) + GroupTail(rs, rest)
    ensures Starts(GroupTail(rs, rest), ')') && GroupTail(rs, rest)[1..] == SpellRedirects(rs) + rest
    ensures (Fits(Group(x, rs)) <==> SentenceFits(x)) && TermTree(Group(x, rs)) == Wrapped(SentenceTree(x), rs)
    ensures Ends(rest) ==> NoRedirect(rest)
  {
    hide SpellSentence, SpellRedirects, SentenceFits, SentenceTree, Wrapped;
  }

  /** parseexec and parseblock, at an opening parenthesis. */
  lemma OpenStep(s: string, i: nat) returns (next: nat)
    requires i <= |s| && Starts(Lexemes(s, i), '(')
    ensures i < next <= |s| && Lexemes(s, next) == Lexemes(s, i)[1..] && next == GetTok(s, i).next
    ensures Simple(s, i).Ok? ==> Line(s, next).Ok?
  {
    Peeked(s, i);
    FirstIs(s, i);
    hide Lexemes, GetTok, Peeks, Line, Redirs;
    assert Simple(s, i) == Block(s, i);
    next := GetTok(s, i).next;
  }

  lemma CloseStep(s: string, i: nat, next: nat, a: Cmd, k: nat) returns (after: nat)
    requires i < next <= k <= |s| && Starts(Lexemes(s, i), '(') && next == GetTok(s, i).next
    requires Line(s, next) == Ok(a, k)
    requires Simple(s, i).Ok? || Starts(Lexemes(s, k), ')')
    ensures k < after <= |s| && Starts(Lexemes(s, k), ')') && Lexemes(s, after) == Lexemes(s, k)[1..]
    ensures Simple(s, i) == Redirs(s, after, a)
  {
    Peeked(s, i);
    Peeked(s, k);
    FirstIs(s, k);
    hide Lexemes, GetTok, Peeks, Line, Redirs;
    after := GetTok(s, k).next;
  }

  lemma NotWrapped(t: Tree, rs: seq<Redirect>)
    ensures Wrapped(t, []) == t && [] + rs == rs
  {
  }

  /** A command without parentheses is no block. */
  lemma {:induction false} FlatStart(s: string, i: nat, items: seq<Item>, rest: seq<Lexeme>)
    requires i <= |s| && Lexemes(s, i) == SpellItems(items) + rest && Ends(rest)
    ensures Simple(s, i) == Remaining(s, i, Exec([]), 0)
  {
    assert items != [] ==> (SpellItems(items) + rest)[0] == SpellItem(items[0])[0];
    hide Lexemes;
    NotBlock(s, i);
  }

  lemma {:induction false} ChainRead(s: string, i: nat, x: Chain, rest: seq<Lexeme>) returns (c: Cmd, j: nat)
    requires i <= |s| && Lexemes(s, i) == SpellChain(x) + rest && Ends(rest) && !Starts(rest, '|') && ChainFits(x)
    ensures i <= j <= |s| && Pipeline(s, i) == Ok(c, j) && Lexemes(s, j) == rest && Meaning(s, c) == ChainTree(x)
    decreases x
  {
    hide *;
    ChainParts(x);
    ChainApart(x, rest);
    var tail := ChainTail(x, rest);
    var a, k := TermRead(s, i, x.term, tail);
    if x.Into? {
      var next := BarStep(s, i, k, a);
      var b, e := ChainRead(s, next, x.rest, rest);
      c, j := Pipe(a, b), e;
      MeaningPipe(s, a, b);
    } else {
      BarNone(s, i, k, a);
      c, j := a, Skip(s, k);
    }
  }

  /** What follows the first term. */
  function ChainTail(x: Chain, rest: seq<Lexeme>): (ls: seq<Lexeme>) {
    if x.Into? then [Mark('|')] + (SpellChain(x.rest) + rest) else rest
  }

  lemma {:induction false} ChainApart(x: Chain, rest: seq<Lexeme>)
    ensures SpellChain(x) + rest == SpellTerm(x.term) + ChainTail(x, rest)
    ensures if x.Into? then Starts(ChainTail(x, rest), '|') && ChainTail(x, rest)[1..] == SpellChain(x.rest) + rest
            else ChainTail(x, rest) == rest
    ensures Ends(rest) ==> Ends(ChainTail(x, rest))
  {
    hide SpellTerm;
  }

  lemma {:induction false} ChainParts(x: Chain)
    ensures ChainFits(x) <==> Fits(x.term) && (x.Into? ==> ChainFits(x.rest))
    ensures ChainTree(x) == if x.Into? then Piped(TermTree(x.term), ChainTree(x.rest)) else TermTree(x.term)
  {
    hide Fits, TermTree;
  }

  lemma MeaningPipe(s: string, a: Cmd, b: Cmd)
    ensures Meaning(s, Pipe(a, b)) == Piped(Meaning(s, a), Meaning(s, b))
  {
    hide Text;
  }

  /** parsepipe, at a bar and elsewhere. */
  lemma BarStep(s: string, i: nat, k: nat, a: Cmd) returns (next: nat)
    requires i <= k <= |s| && Simple(s, i) == Ok(a, k) && Starts(Lexemes(s, k), '|')
    ensures k < next <= |s| && Lexemes(s, next) == Lexemes(s, k)[1..]
    ensures var r := Pipeline(s, next); Pipeline(s, i) == if r.Fail? then r else Ok(Pipe(a, r.cmd), r.next)
  {
    Peeked(s, k);
    FirstIs(s, k);
    hide Lexemes, Simple, GetTok, Peeks;
    next := GetTok(s, k).next;
  }

  lemma BarNone(s: string, i: nat, k: nat, a: Cmd)
    requires i <= k <= |s| && Simple(s, i) == Ok(a, k) && !Starts(Lexemes(s, k), '|')
    ensures Pipeline(s, i) == Ok(a, Skip(s, k)) && Lexemes(s, Skip(s, k)) == Lexemes(s, k)
  {
    Peeked(s, k);
    Ahead(s, k);
    hide Lexemes, Simple, GetTok, Peeks;
  }

  lemma {:induction false} BacksRead(s: string, i: nat, cmd: Cmd, n: nat, rest: seq<Lexeme>)
    requires i <= |s| && Lexemes(s, i) == SpellBacks(n) + rest && !Starts(rest, '&')
    ensures var r := Backs(s, i, cmd);
            Lexemes(s, r.next) == rest && Meaning(s, r.cmd) == Backed(Meaning(s, cmd), n)
    decreases n
  {
    hide *;
    BacksApart(n, rest);
    if n > 0 {
      var next := BackStep(s, i, cmd);
      BacksRead(s, next, Back(cmd), n - 1, rest);
      BackedInside(s, cmd, n);
    } else {
      BackNone(s, i, cmd);
      NotBacked(Meaning(s, cmd));
    }
  }

  lemma {:induction false} BacksApart(n: nat, rest: seq<Lexeme>)
    ensures if n > 0 then
              && SpellBacks(n) + rest == [Mark('&')] + (SpellBacks(n - 1) + rest) && Starts(SpellBacks(n) + rest, '&')
              && (SpellBacks(n) + rest)[1..] == SpellBacks(n - 1) + rest
            else SpellBacks(n) + rest == rest
  {
  }

  /** parseline, at an ampersand and elsewhere. */
  lemma BackStep(s: string, i: nat, cmd: Cmd) returns (next: nat)
    requires i <= |s| && Starts(Lexemes(s, i), '&')
    ensures i < next <= |s| && Lexemes(s, next) == Lexemes(s, i)[1..] && Backs(s, i, cmd) == Backs(s, next, Back(cmd))
  {
    Peeked(s, i);
    FirstIs(s, i);
    hide Lexemes, GetTok, Peeks;
    next := GetTok(s, i).next;
  }

  lemma BackNone(s: string, i: nat, cmd: Cmd)
    requires i <= |s| && !Starts(Lexemes(s, i), '&')
    ensures Backs(s, i, cmd) == Ok(cmd, Skip(s, i)) && Lexemes(s, Skip(s, i)) == Lexemes(s, i)
  {
    Peeked(s, i);
    Ahead(s, i);
    hide Lexemes, GetTok, Peeks;
  }

  lemma {:induction false} NotBacked(t: Tree)
    ensures Backed(t, 0) == t
  {
  }

  lemma BackedInside(s: string, cmd: Cmd, n: nat)
    requires n > 0
    ensures Backed(Meaning(s, cmd), n) == Backed(Meaning(s, Back(cmd)), n - 1)
  {
    BackedTwice(Meaning(s, cmd), n);
  }

  lemma {:induction false} BackedTwice(t: Tree, n: nat)
    requires n > 0
    ensures Backed(t, n) == Backed(Background(t), n - 1)
  {
    if n > 1 {
      BackedTwice(t, n - 1);
    }
  }

  lemma {:induction false} SentenceRead(s: string, i: nat, x: Sentence, rest: seq<Lexeme>) returns (c: Cmd, j: nat)
    requires i <= |s| && Lexemes(s, i) == SpellSentence(x) + rest && SentenceFits(x)
    requires rest == [] || Starts(rest, ')')
    ensures i <= j <= |s| && Line(s, i) == Ok(c, j) && Lexemes(s, j) == rest && Meaning(s, c) == SentenceTree(x)
    decreases x
  {
    hide *;
    SentenceParts(x);
    SentenceApart(x, rest);
    var tail := SentenceTail(x, rest);
    var a, k := ChainRead(s, i, x.chain, SpellBacks(x.backs) + tail);
    BacksRead(s, k, a, x.backs, tail);
    var b := Backs(s, k, a);
    if x.Then? {
      var next := SemicolonStep(s, i, k, a);
      var d, e := SentenceRead(s, next, x.rest, rest);
      c, j := List(b.cmd, d), e;
      MeaningList(s, b.cmd, d);
    } else {
      SemicolonNone(s, i, k, a);
      c, j := b.cmd, b.next;
    }
  }

  /** What follows the first chain and its ampersands. */
  function SentenceTail(x: Sentence, rest: seq<Lexeme>): (ls: seq<Lexeme>) {
    if x.Then? then [Mark(';')] + (SpellSentence(x.rest) + rest) else rest
  }

  lemma {:induction false} SentenceSpelled(x: Sentence, rest: seq<Lexeme>)
    ensures SpellSentence(x) + rest == SpellChain(x.chain) + (SpellBacks(x.backs) + SentenceTail(x, rest))
    ensures SentenceTail(x, rest) == if x.Then? then [Mark(';')] + (SpellSentence(x.rest) + rest) else rest
  {
    hide SpellChain, SpellBacks;
  }

  lemma {:induction false} SentenceApart(x: Sentence, rest: seq<Lexeme>)
    requires rest == [] || Starts(rest, ')')
    ensures var tail := SentenceTail(x, rest);
            && SpellSentence(x) + rest == SpellChain(x.chain) + (SpellBacks(x.backs) + tail)
            && Ends(SpellBacks(x.backs) + tail) && !Starts(SpellBacks(x.backs) + tail, '|') && !Starts(tail, '&')
            && if x.Then? then Starts(tail, ';') && tail[1..] == SpellSentence(x.rest) + rest
               else tail == rest && !Starts(tail, ';')
  {
    hide SpellChain, SpellSentence, SpellBacks;
    SentenceSpelled(x, rest);
    BacksApart(x.backs, SentenceTail(x, rest));
  }

  lemma {:induction false} SentenceParts(x: Sentence)
    ensures SentenceFits(x) <==> ChainFits(x.chain) && (x.Then? ==> SentenceFits(x.rest))
    ensures var first := Backed(ChainTree(x.chain), x.backs);
            SentenceTree(x) == if x.Then? then Sequence(first, SentenceTree(x.rest)) else first
  {
    hide ChainFits, ChainTree, Backed;
  }

  lemma MeaningList(s: string, a: Cmd, b: Cmd)
    ensures Meaning(s, List(a, b)) == Sequence(Meaning(s, a), Meaning(s, b))
  {
    hide Text;
  }

  /** parseline, at a semicolon and elsewhere. */
  lemma SemicolonStep(s: string, i: nat, k: nat, a: Cmd) returns (next: nat)
    requires i <= k <= |s| && Pipeline(s, i) == Ok(a, k) && Starts(Lexemes(s, Backs(s, k, a).next), ';')
    ensures k < next <= |s| && Lexemes(s, next) == Lexemes(s, Backs(s, k, a).next)[1..]
    ensures var b, r := Backs(s, k, a), Line(s, next);
            Line(s, i) == if r.Fail? then r else Ok(List(b.cmd, r.cmd), r.next)
  {
    var b := Backs(s, k, a);
    Peeked(s, b.next);
    FirstIs(s, b.next);
    hide Lexemes, Pipeline, GetTok, Peeks, Backs;
    next := GetTok(s, b.next).next;
  }

  lemma SemicolonNone(s: string, i: nat, k: nat, a: Cmd)
    requires i <= k <= |s| && Pipeline(s, i) == Ok(a, k) && !Starts(Lexemes(s, Backs(s, k, a).next), ';')
    ensures Line(s, i) == Backs(s, k, a)
  {
    Peeked(s, Backs(s, k, a).next);
    hide Lexemes, Pipeline, GetTok, Peeks, Backs;
  }

  /** Every sentence that fits is accepted and gives its tree. */
  lemma Complete(s: string, x: Sentence) returns (c: Cmd)
    requires NUL !in s && Lexemes(s, 0) == SpellSentence(x) && SentenceFits(x)
    ensures Command(s) == Ok(c, |s|) && Meaning(s, c) == SentenceTree(x)
  {
    hide SpellSentence, Line, SentenceFits, SentenceTree;
    assert SpellSentence(x) + [] == SpellSentence(x);
    var j;
    c, j := SentenceRead(s, 0, x, []);
    Ahead(s, j);
    assert At(s, Skip(s, j)) == NUL;
  }

  // ----- nothing else is accepted -----

  lemma {:induction false} RedirsAccepted(s: string, i: nat, cmd: Cmd, t: Tree, done: seq<Redirect>)
    returns (rs: seq<Redirect>)
    requires i <= |s| && Redirs(s, i, cmd).Ok? && Meaning(s, cmd) == Wrapped(t, done)
    ensures var r := Redirs(s, i, cmd);
            && Lexemes(s, i) == SpellRedirects(rs) + Lexemes(s, r.next) && NoRedirect(Lexemes(s, r.next))
            && Meaning(s, r.cmd) == Wrapped(t, done + rs)
    decreases |s| - i
  {
    hide *;
    if NoRedirect(Lexemes(s, i)) {
      rs := [];
      RedirectsApart(done, rs, Lexemes(s, i));
      RedirsDone(s, i, cmd);
    } else {
      var r, tail := RedirectNext(s, i, cmd);
      var w, k := RedirStep(s, i, cmd, r, tail);
      RedirMeans(s, cmd, w, t, done, r);
      var more := RedirsAccepted(s, k, Redir(cmd, w, ModeOf(r.sign)), t, done + [r]);
      rs := [r] + more;
      assert rs[1..] == more;
      RedirectsApart(done, rs, Lexemes(s, Redirs(s, i, cmd).next));
    }
  }

  /** Where parseredirs goes on, a redirection is next. */
  lemma RedirectNext(s: string, i: nat, cmd: Cmd) returns (r: Redirect, tail: seq<Lexeme>)
    requires i <= |s| && Redirs(s, i, cmd).Ok? && !NoRedirect(Lexemes(s, i))
    ensures Lexemes(s, i) == SpellRedirect(r) + tail
  {
    hide GetTok, Lexemes, Redirs, NoRedirect, Text;
    SignAndFile(s, i, cmd);
    var t := GetTok(s, i);
    var f := GetTok(s, t.next);
    r := Redirect(if t.kind == '<' then In else if t.kind == '>' then Out else Append, Text(s, f.word));
    tail := Lexemes(s, f.next);
  }

  lemma SignAndFile(s: string, i: nat, cmd: Cmd)
    requires i <= |s| && Redirs(s, i, cmd).Ok? && !NoRedirect(Lexemes(s, i))
    ensures var t := GetTok(s, i);
            var f := GetTok(s, t.next);
            && (t.kind == '<' || t.kind == '>' || t.kind == '+')
            && Lexemes(s, i) == [Mark(t.kind), Name(Text(s, f.word))] + Lexemes(s, f.next)
  {
    Peeked(s, i);
    FirstIs(s, i);
    FirstIs(s, GetTok(s, i).next);
    hide GetTok, Lexemes, Peeks, Text;
    var t := GetTok(s, i);
    assert Lexemes(s, i) == [Lexemes(s, i)[0]] + Lexemes(s, t.next);
    assert Lexemes(s, t.next) == [Lexemes(s, t.next)[0]] + Lexemes(s, GetTok(s, t.next).next);
  }

  lemma {:induction false} ItemsAccepted(s: string, i: nat, cmd: Cmd, args: seq<string>, rs: seq<Redirect>)
    returns (items: seq<Item>)
    requires i <= |s| && Remaining(s, i, cmd, |args|).Ok? && Meaning(s, cmd) == Wrapped(Run(args), rs)
    requires |args| < MAXARGS
    ensures var r := Remaining(s, i, cmd, |args|);
            && Lexemes(s, i) == SpellItems(items) + Lexemes(s, r.next) && Ends(Lexemes(s, r.next))
            && |args| + |ArgsOf(items)| < MAXARGS
            && Meaning(s, r.cmd) == Wrapped(Run(args + ArgsOf(items)), rs + RedirectsOf(items))
    decreases |s| - i
  {
    hide *;
    if !NoRedirect(Lexemes(s, i)) {
      RemainingRedirs(s, i, cmd, |args|);
      var r, tail := RedirectNext(s, i, cmd);
      var w, k := RedirStep(s, i, cmd, r, tail);
      RedirMeans(s, cmd, w, Run(args), rs, r);
      RemainingSame(s, i, k, cmd, Redir(cmd, w, ModeOf(r.sign)), |args|);
      var more := ItemsAccepted(s, k, Redir(cmd, w, ModeOf(r.sign)), args, rs + [r]);
      items := [To(r)] + more;
      assert items[1..] == more;
      ItemsApart(args, rs, items, Lexemes(s, Remaining(s, i, cmd, |args|).next));
    } else if Ends(Lexemes(s, i)) {
      items := [];
      NoItems(args, rs, Lexemes(s, i));
      ArgsDone(s, i, cmd, |args|);
    } else {
      NameNext(s, i, cmd, |args|);
      ArgStep(s, i, cmd, |args|);
      var t := GetTok(s, i);
      AddArgMeans(s, cmd, t.word, args, rs);
      var more := ItemsAccepted(s, t.next, AddArg(cmd, t.word), args + [Text(s, t.word)], rs);
      items := [Arg(Text(s, t.word))] + more;
      assert items[1..] == more;
      assert Lexemes(s, i) == [Lexemes(s, i)[0]] + Lexemes(s, i)[1..];
      ItemsApart(args, rs, items, Lexemes(s, Remaining(s, i, cmd, |args|).next));
    }
  }

  lemma RemainingRedirs(s: string, i: nat, cmd: Cmd, argc: nat)
    requires i <= |s| && Remaining(s, i, cmd, argc).Ok?
    ensures Redirs(s, i, cmd).Ok?
  {
    hide Redirs, Args;
  }

  /** Where parseexec's loop goes on, a word is next, and there is room for it. */
  lemma NameNext(s: string, i: nat, cmd: Cmd, argc: nat)
    requires i <= |s| && Remaining(s, i, cmd, argc).Ok? && NoRedirect(Lexemes(s, i)) && !Ends(Lexemes(s, i))
    ensures Lexemes(s, i) != [] && Lexemes(s, i)[0].Name? && argc + 1 < MAXARGS
  {
    var j := Skip(s, i);
    RedirsDone(s, i, cmd);
    FirstIs(s, j);
    Peeked(s, j);
    hide GetTok, Lexemes, Peeks, Redirs;
  }

  lemma {:induction false} TermAccepted(s: string, i: nat) returns (t: Term)
    requires i <= |s| && Simple(s, i).Ok?
    ensures var r := Simple(s, i);
            && Lexemes(s, i) == SpellTerm(t) + Lexemes(s, r.next) && Fits(t) && Meaning(s, r.cmd) == TermTree(t)
            && NoRedirect(Lexemes(s, r.next)) && (t.Flat? ==> Ends(Lexemes(s, r.next)))
    decreases |s| - i, 1
  {
    hide *;
    if Starts(Lexemes(s, i), '(') {
      var next := OpenStep(s, i);
      var x := SentenceAccepted(s, next);
      var r := Line(s, next);
      var after := CloseStep(s, i, next, r.cmd, r.next);
      NotWrapped(SentenceTree(x), []);
      var rs := RedirsAccepted(s, after, r.cmd, SentenceTree(x), []);
      t := Group(x, rs);
      NotWrapped(SentenceTree(x), rs);
      StartsWith(Lexemes(s, i), '(');
      StartsWith(Lexemes(s, r.next), ')');
      var rest := Lexemes(s, Simple(s, i).next);
      GroupParts(x, rs, rest);
      StartsWith(GroupTail(rs, rest), ')');
    } else {
      NotBlock(s, i);
      FlatParts(s, [], []);
      var items := ItemsAccepted(s, i, Exec([]), [], []);
      t := Flat(items);
      FlatParts(s, items, []);
      EndsPlain(Lexemes(s, Simple(s, i).next));
    }
  }

  lemma NotBlock(s: string, i: nat)
    requires i <= |s| && !Starts(Lexemes(s, i), '(')
    ensures Simple(s, i) == Remaining(s, i, Exec([]), 0)
  {
    Peeked(s, i);
    hide Lexemes, Redirs, Args, Block, Peeks;
  }

  lemma EndsPlain(ls: seq<Lexeme>)
    requires Ends(ls)
    ensures NoRedirect(ls)
  {
  }

  lemma {:induction false} ChainAccepted(s: string, i: nat) returns (x: Chain)
    requires i <= |s| && Pipeline(s, i).Ok?
    ensures var r := Pipeline(s, i);
            && Lexemes(s, i) == SpellChain(x) + Lexemes(s, r.next) && ChainFits(x) && Meaning(s, r.cmd) == ChainTree(x)
    decreases |s| - i, 2
  {
    hide *;
    SimpleFirst(s, i);
    var t := TermAccepted(s, i);
    var p := Simple(s, i);
    if Starts(Lexemes(s, p.next), '|') {
      var next := BarStep(s, i, p.next, p.cmd);
      var rest := ChainAccepted(s, next);
      x := Into(t, rest);
      MeaningPipe(s, p.cmd, Pipeline(s, next).cmd);
      StartsWith(Lexemes(s, p.next), '|');
    } else {
      BarNone(s, i, p.next, p.cmd);
      x := Single(t);
    }
    ChainParts(x);
    ChainApart(x, Lexemes(s, Pipeline(s, i).next));
    ChainTailIs(x, Lexemes(s, Pipeline(s, i).next));
  }

  lemma SimpleFirst(s: string, i: nat)
    requires i <= |s| && Pipeline(s, i).Ok?
    ensures Simple(s, i).Ok?
  {
    hide Simple, GetTok;
  }

  lemma StartsWith(ls: seq<Lexeme>, c: char)
    requires Starts(ls, c)
    ensures ls == [Mark(c)] + ls[1..]
  {
  }

  lemma ChainTailIs(x: Chain, rest: seq<Lexeme>)
    ensures ChainTail(x, rest) == if x.Into? then [Mark('|')] + (SpellChain(x.rest) + rest) else rest
  {
  }

  lemma {:induction false} BacksAccepted(s: string, i: nat, cmd: Cmd) returns (n: nat)
    requires i <= |s|
    ensures var r := Backs(s, i, cmd);
            Lexemes(s, i) == SpellBacks(n) + Lexemes(s, r.next) && Meaning(s, r.cmd) == Backed(Meaning(s, cmd), n)
    decreases |s| - i
  {
    hide *;
    if Starts(Lexemes(s, i), '&') {
      var next := BackStep(s, i, cmd);
      var m := BacksAccepted(s, next, Back(cmd));
      n := m + 1;
      BackedInside(s, cmd, n);
      StartsWith(Lexemes(s, i), '&');
    } else {
      n := 0;
      BackNone(s, i, cmd);
      NotBacked(Meaning(s, cmd));
    }
    BacksApart(n, Lexemes(s, Backs(s, i, cmd).next));
  }

  lemma {:induction false} SentenceAccepted(s: string, i: nat) returns (x: Sentence)
    requires i <= |s| && Line(s, i).Ok?
    ensures var r := Line(s, i);
            && Lexemes(s, i) == SpellSentence(x) + Lexemes(s, r.next) && SentenceFits(x)
            && Meaning(s, r.cmd) == SentenceTree(x)
    decreases |s| - i, 3
  {
    hide *;
    PipelineFirst(s, i);
    var c := ChainAccepted(s, i);
    var p := Pipeline(s, i);
    var n := BacksAccepted(s, p.next, p.cmd);
    var b := Backs(s, p.next, p.cmd);
    if Starts(Lexemes(s, b.next), ';') {
      var next := SemicolonStep(s, i, p.next, p.cmd);
      var rest := SentenceAccepted(s, next);
      x := Then(c, n, rest);
      MeaningList(s, b.cmd, Line(s, next).cmd);
      StartsWith(Lexemes(s, b.next), ';');
    } else {
      SemicolonNone(s, i, p.next, p.cmd);
      x := Final(c, n);
    }
    SentenceParts(x);
    SentenceSpelled(x, Lexemes(s, Line(s, i).next));
  }

  lemma PipelineFirst(s: string, i: nat)
    requires i <= |s| && Line(s, i).Ok?
    ensures Pipeline(s, i).Ok?
  {
    hide Pipeline, GetTok;
  }

  /** What is accepted is a sentence that fits, and the command means what the sentence does. */
  lemma Sound(s: string) returns (x: Sentence)
    requires Command(s).Ok?
    ensures Lexemes(s, 0) == SpellSentence(x) && SentenceFits(x) && Meaning(s, Command(s).cmd) == SentenceTree(x)
  {
    hide SpellSentence, Line, SentenceFits, SentenceTree;
    x := SentenceAccepted(s, 0);
    Ahead(s, Line(s, 0).next);
    assert SpellSentence(x) + [] == SpellSentence(x);
  }

  /** The parser accepts a line exactly if its lexemes are a sentence that fits. */
  lemma AcceptsExactly(s: string)
    requires NUL !in s
    ensures Command(s).Ok? <==> exists x :: SpellSentence(x) == Lexemes(s, 0) && SentenceFits(x)
  {
    hide Command, SpellSentence, SentenceFits, SentenceTree;
    if Command(s).Ok? {
      var x := Sound(s);
    }
    if x :| SpellSentence(x) == Lexemes(s, 0) && SentenceFits(x) {
      var c := Complete(s, x);
    }
  }

  // ----- writing a sentence and reading it back -----

  predicate PlainWord(w: string) {
    w != [] && forall i :: 0 <= i < |w| ==> Plain(w[i])
  }

  predicate LexemeOk(l: Lexeme) {
    match l case Name(w) => PlainWord(w) case Mark(c) => Symbol(c) || c == '+'
  }

  function Spelling(l: Lexeme): (r: string) {
    match l case Name(w) => w case Mark(c) => if c == '+' then ">>" else [c]
  }

  /** Without a blank between, a and b would read as something else. */
  predicate NeedBlank(a: Lexeme, b: Lexeme) {
    (a.Name? && b.Name?) || (a == Mark('>') && (b == Mark('>') || b == Mark('+')))
  }

  predicate Blank(g: string) {
    forall k :: 0 <= k < |g| ==> White(g[k])
  }

  /** Lexemes with blanks before, between and behind. */
  function Written(ls: seq<Lexeme>, gaps: seq<string>): (r: string)
    requires |gaps| == |ls| + 1
  {
    if ls == [] then gaps[0] else gaps[0] + (Spelling(ls[0]) + Written(ls[1..], gaps[1..]))
  }

  predicate Spaced(ls: seq<Lexeme>, gaps: seq<string>) {
    && |gaps| == |ls| + 1 && (forall k :: 0 <= k < |gaps| ==> Blank(gaps[k]))
    && (forall k :: 1 <= k < |ls| && NeedBlank(ls[k - 1], ls[k]) ==> gaps[k] != [])
  }

  predicate AllOk(ls: seq<Lexeme>) {
    forall k :: 0 <= k < |ls| ==> LexemeOk(ls[k])
  }

  lemma {:induction false} SkipBlanks(s: string, i: nat, j: nat)
    requires i <= j <= |s| && (forall k :: i <= k < j ==> White(s[k])) && (j < |s| ==> !White(s[j]))
    ensures Skip(s, i) == j
    decreases j - i
  {
    if i < j {
      SkipBlanks(s, i + 1, j);
    }
  }

  lemma {:induction false} PlainRun(s: string, i: nat, j: nat)
    requires i <= j <= |s| && (forall k :: i <= k < j ==> Plain(s[k])) && (j < |s| ==> White(s[j]) || Symbol(s[j]))
    ensures WordEnd(s, i) == j
    decreases j - i
  {
    if i < j {
      PlainRun(s, i + 1, j);
    }
  }

  /** Whether what is written ends a word, and a greater-than sign, that stands before it. */
  lemma {:induction false} WrittenStart(ls: seq<Lexeme>, gaps: seq<string>)
    requires |gaps| == |ls| + 1 && Blank(gaps[0]) && AllOk(ls)
    ensures var r := Written(ls, gaps);
            && (r == [] ==> gaps[0] == [] && ls == [])
            && (r != [] && gaps[0] != [] ==> White(r[0]))
            && (r != [] && gaps[0] == [] ==>
                  && ls != [] && !White(r[0]) && r[0] != NUL && (Symbol(r[0]) <==> ls[0].Mark?)
                  && (r[0] == '>' <==> ls[0] == Mark('>') || ls[0] == Mark('+')))
  {
    if ls != [] {
      assert LexemeOk(ls[0]);
      assert ls[0].Name? ==> Plain(Spelling(ls[0])[0]);
    }
  }

  /** The token at q that spells l, where something else follows. */
  lemma TokenAt(s: string, i: nat, q: nat, l: Lexeme)
    requires i <= q && q + |Spelling(l)| <= |s| && s[q..q + |Spelling(l)|] == Spelling(l) && LexemeOk(l)
    requires forall k :: i <= k < q ==> White(s[k])
    requires var e := q + |Spelling(l)|;
             && (l.Name? && e < |s| ==> White(s[e]) || Symbol(s[e])) && (l == Mark('>') ==> At(s, e) != '>')
    ensures var t := GetTok(s, i);
            t.kind != NUL && LexemeOf(s, t) == l && t.next == Skip(s, q + |Spelling(l)|)
  {
    var e := q + |Spelling(l)|;
    forall k | 0 <= k < |Spelling(l)| ensures s[q + k] == Spelling(l)[k] {
      assert s[q..e][k] == Spelling(l)[k];
    }
    assert s[q + 0] == Spelling(l)[0];
    SkipBlanks(s, i, q);
    if l.Name? {
      PlainRun(s, q, e);
      assert Text(s, Word(q, e)) == l.text;
    } else if l.c == '+' {
      assert s[q + 1] == '>';
    }
  }

  lemma {:induction false} ReadsBack(s: string, i: nat, ls: seq<Lexeme>, gaps: seq<string>)
    requires i <= |s| && Spaced(ls, gaps) && AllOk(ls) && s[i..] == Written(ls, gaps)
    ensures Lexemes(s, i) == ls
    decreases |ls|
  {
    hide *;
    SpacedLength(ls, gaps);
    var q := i + |gaps[0]|;
    WrittenGap(s, i, ls, gaps);
    if ls == [] {
      NothingLeft(s, i);
    } else {
      var l, e := ls[0], q + |Spelling(ls[0])|;
      WrittenParts(s, i, ls, gaps);
      SpacedRest(ls, gaps);
      ReadsBack(s, e, ls[1..], gaps[1..]);
      Apart(ls, gaps);
      BehindIt(s, e, Written(ls[1..], gaps[1..]));
      TokenAt(s, i, q, l);
      FirstIs(s, i);
      Ahead(s, e);
      assert Lexemes(s, i) == [Lexemes(s, i)[0]] + Lexemes(s, i)[1..];
    }
  }

  lemma {:induction false} WrittenGap(s: string, i: nat, ls: seq<Lexeme>, gaps: seq<string>)
    requires i <= |s| && Spaced(ls, gaps) && s[i..] == Written(ls, gaps)
    ensures var q := i + |gaps[0]|;
            q <= |s| && (forall k :: i <= k < q ==> White(s[k])) && (ls == [] ==> q == |s|)
  {
    assert Blank(gaps[0]);
    forall k | i <= k < i + |gaps[0]| ensures White(s[k]) {
      assert s[k] == s[i..][k - i] == gaps[0][k - i];
    }
  }

  lemma NothingLeft(s: string, i: nat)
    requires i <= |s| && forall k :: i <= k < |s| ==> White(s[k])
    ensures Lexemes(s, i) == []
  {
    SkipBlanks(s, i, |s|);
  }

  /** Where the first lexeme stands, and what follows it. */
  lemma {:induction false} WrittenParts(s: string, i: nat, ls: seq<Lexeme>, gaps: seq<string>)
    requires i <= |s| && ls != [] && |gaps| == |ls| + 1 && AllOk(ls) && s[i..] == Written(ls, gaps)
    ensures var q := i + |gaps[0]|;
            var e := q + |Spelling(ls[0])|;
            e <= |s| && s[q..e] == Spelling(ls[0]) && s[e..] == Written(ls[1..], gaps[1..]) && LexemeOk(ls[0])
  {
    var q, word, tail := i + |gaps[0]|, Spelling(ls[0]), Written(ls[1..], gaps[1..]);
    var e := q + |word|;
    assert s[i..] == gaps[0] + (word + tail);
    hide Written, Spelling;
    assert s[q..] == s[i..][|gaps[0]|..] == word + tail;
    assert s[e..] == s[q..][|word|..] == tail;
    assert s[q..e] == s[q..][..|word|] == word;
  }

  lemma BehindIt(s: string, e: nat, tail: string)
    requires e <= |s| && s[e..] == tail
    ensures if e < |s| then tail != [] && s[e] == tail[0] && At(s, e) == s[e] else tail == [] && At(s, e) == NUL
    ensures At(s, e) == '>' ==> e < |s|
  {
  }

  lemma {:induction false} SpacedRest(ls: seq<Lexeme>, gaps: seq<string>)
    requires ls != [] && Spaced(ls, gaps) && AllOk(ls)
    ensures Spaced(ls[1..], gaps[1..]) && AllOk(ls[1..])
  {
    forall k | 1 <= k < |ls[1..]| && NeedBlank(ls[1..][k - 1], ls[1..][k]) ensures gaps[1..][k] != [] {
      var next := k + 1;
      assert NeedBlank(ls[next - 1], ls[next]);
    }
  }

  /** What is written behind the first lexeme does not run into it. */
  lemma {:induction false} Apart(ls: seq<Lexeme>, gaps: seq<string>)
    requires ls != [] && Spaced(ls, gaps) && AllOk(ls)
    ensures var tail := Written(ls[1..], gaps[1..]);
            && (ls[0].Name? && tail != [] ==> White(tail[0]) || Symbol(tail[0]))
            && (ls[0] == Mark('>') && tail != [] ==> tail[0] != '>')
  {
    SpacedRest(ls, gaps);
    WrittenStart(ls[1..], gaps[1..]);
    assert |ls| > 1 ==> (NeedBlank(ls[1 - 1], ls[1]) ==> gaps[1] != []);
    hide Written;
  }

  lemma {:induction false} NoNuls(ls: seq<Lexeme>, gaps: seq<string>)
    requires Spaced(ls, gaps) && AllOk(ls)
    ensures NUL !in Written(ls, gaps)
    decreases |ls|
  {
    assert Blank(gaps[0]);
    if ls != [] {
      assert LexemeOk(ls[0]);
      SpacedRest(ls, gaps);
      NoNuls(ls[1..], gaps[1..]);
      assert NUL !in Spelling(ls[0]);
    }
  }

  /** A sentence that fits, written with any blanks, is parsed back to its tree. */
  lemma SentenceParses(x: Sentence, gaps: seq<string>) returns (c: Cmd)
    requires SentenceFits(x) && AllOk(SpellSentence(x)) && Spaced(SpellSentence(x), gaps)
    ensures var s := Written(SpellSentence(x), gaps); Command(s) == Ok(c, |s|) && Meaning(s, c) == SentenceTree(x)
  {
    hide *;
    SpacedLength(SpellSentence(x), gaps);
    var s := Written(SpellSentence(x), gaps);
    assert s[0..] == s;
    ReadsBack(s, 0, SpellSentence(x), gaps);
    NoNuls(SpellSentence(x), gaps);
    c := Complete(s, x);
  }

  lemma SpacedLength(ls: seq<Lexeme>, gaps: seq<string>)
    requires Spaced(ls, gaps)
    ensures |gaps| == |ls| + 1
  {
  }

  /** Words and redirections in any order make one command with the words in order, inside the redirections
      in order. */
  lemma CommandParses(items: seq<Item>, gaps: seq<string>) returns (c: Cmd)
    requires |ArgsOf(items)| < MAXARGS && AllOk(SpellItems(items)) && Spaced(SpellItems(items), gaps)
    ensures var s := Written(SpellItems(items), gaps);
            Command(s) == Ok(c, |s|) && Meaning(s, c) == Wrapped(Run(ArgsOf(items)), RedirectsOf(items))
  {
    hide *;
    SpacedLength(SpellItems(items), gaps);
    FlatParts([], items, []);
    SingleIs(Flat(items), 0);
    c := SentenceParses(Final(Single(Flat(items)), 0), gaps);
  }

  // Sentences of one or two terms.

  lemma {:induction false} SingleIs(t: Term, n: nat)
    requires n <= 1
    ensures var x := Final(Single(t), n);
            && SpellSentence(x) == SpellTerm(t) + (if n == 1 then [Mark('&')] else [])
            && (n == 0 ==> SpellSentence(x) == SpellTerm(t))
            && (SentenceFits(x) <==> Fits(t))
            && SentenceTree(x) == if n == 1 then Background(TermTree(t)) else TermTree(t)
  {
    hide SpellTerm, Fits, TermTree;
    assert SpellChain(Single(t)) == SpellTerm(t);
    assert n == 1 ==> SpellBacks(1) == [Mark('&')] + SpellBacks(0);
    assert SpellTerm(t) + [] == SpellTerm(t);
    assert ChainFits(Single(t)) == Fits(t) && ChainTree(Single(t)) == TermTree(t);
    assert n == 1 ==> Backed(TermTree(t), 1) == Background(Backed(TermTree(t), 0));
    hide SpellChain, SpellBacks, ChainFits, ChainTree;
  }

  lemma {:induction false} IntoIs(t: Term, u: Term)
    ensures var x := Final(Into(t, Single(u)), 0);
            && SpellSentence(x) == SpellTerm(t) + [Mark('|')] + SpellTerm(u)
            && (SentenceFits(x) <==> Fits(t) && Fits(u)) && SentenceTree(x) == Piped(TermTree(t), TermTree(u))
  {
    hide *;
    var c := Into(t, Single(u));
    ChainParts(c);
    ChainParts(Single(u));
    SentenceParts(Final(c, 0));
    NotBacked(ChainTree(c));
    IntoSpelled(t, u);
  }

  lemma {:induction false} IntoSpelled(t: Term, u: Term)
    ensures SpellSentence(Final(Into(t, Single(u)), 0)) == SpellTerm(t) + [Mark('|')] + SpellTerm(u)
  {
    hide SpellTerm;
    assert SpellChain(Single(u)) == SpellTerm(u);
    var c := Into(t, Single(u));
    assert SpellChain(c) == SpellTerm(t) + [Mark('|')] + SpellChain(Single(u));
    hide SpellChain;
    assert SpellChain(c) + [] == SpellChain(c);
  }

  lemma {:induction false} ThenIs(t: Term, u: Term)
    ensures var x := Then(Single(t), 0, Final(Single(u), 0));
            && SpellSentence(x) == SpellTerm(t) + [Mark(';')] + SpellTerm(u)
            && (SentenceFits(x) <==> Fits(t) && Fits(u)) && SentenceTree(x) == Sequence(TermTree(t), TermTree(u))
  {
    hide *;
    var x := Then(Single(t), 0, Final(Single(u), 0));
    SingleIs(u, 0);
    ChainParts(Single(t));
    SentenceParts(x);
    NotBacked(ChainTree(Single(t)));
    ThenSpelled(t, Final(Single(u), 0));
  }

  lemma {:induction false} ThenSpelled(t: Term, rest: Sentence)
    ensures SpellSentence(Then(Single(t), 0, rest)) == SpellTerm(t) + [Mark(';')] + SpellSentence(rest)
  {
    hide SpellTerm;
    assert SpellChain(Single(t)) == SpellTerm(t);
    assert SpellBacks(0) == [] && SpellTerm(t) + [] == SpellTerm(t);
    hide SpellChain, SpellBacks;
    assert SpellSentence(Then(Single(t), 0, rest)) ==
        SpellChain(Single(t)) + SpellBacks(0) + [Mark(';')] + SpellSentence(rest);
  }

  predicate Printable(t: Tree) {
    match t
    case Run(args) => |args| < MAXARGS && forall i :: 0 <= i < |args| ==> PlainWord(args[i])
    case Redirected(u, f, _) => Printable(u) && PlainWord(f)
    case Piped(l, r) => Printable(l) && Printable(r)
    case Sequence(l, r) => Printable(l) && Printable(r)
    case Background(u) => Printable(u)
  }

  function ItemsFor(args: seq<string>): (items: seq<Item>) {
    if args == [] then [] else [Arg(args[0])] + ItemsFor(args[1..])
  }

  /** A tree as a sentence, with parentheses around every part. */
  function Canonical(t: Tree): (x: Sentence) {
    match t
    case Run(args) => Final(Single(Flat(ItemsFor(args))), 0)
    case Redirected(u, f, m) =>
      Final(Single(Group(Canonical(u), [Redirect(if m == Input then In else Out, f)])), 0)
    case Piped(l, r) => Final(Into(Group(Canonical(l), []), Single(Group(Canonical(r), []))), 0)
    case Sequence(l, r) => Then(Single(Group(Canonical(l), [])), 0, Final(Single(Group(Canonical(r), [])), 0))
    case Background(u) => Final(Single(Group(Canonical(u), [])), 1)
  }

  lemma {:induction false} ItemsForAre(args: seq<string>)
    ensures ArgsOf(ItemsFor(args)) == args && RedirectsOf(ItemsFor(args)) == []
    ensures (forall i :: 0 <= i < |args| ==> PlainWord(args[i])) ==> AllOk(SpellItems(ItemsFor(args)))
  {
    if args != [] {
      ItemsForAre(args[1..]);
      assert ItemsFor(args)[1..] == ItemsFor(args[1..]);
      assert SpellItems(ItemsFor(args)) == [Name(args[0])] + SpellItems(ItemsFor(args[1..]));
    }
  }

  lemma {:induction false} CanonicalIs(t: Tree)
    requires Printable(t)
    ensures SentenceTree(Canonical(t)) == t && SentenceFits(Canonical(t)) && AllOk(SpellSentence(Canonical(t)))
  {
    match t
    case Run(args) =>
      RunIs(args);
    case Redirected(u, f, m) =>
      CanonicalIs(u);
      hide *;
      GroupIs(Canonical(u), [Redirect(if m == Input then In else Out, f)]);
      SingleIs(Group(Canonical(u), [Redirect(if m == Input then In else Out, f)]), 0);
      CanonicalParts(t);
    case Piped(l, r) =>
      CanonicalIs(l);
      CanonicalIs(r);
      hide *;
      GroupIs(Canonical(l), []);
      GroupIs(Canonical(r), []);
      IntoIs(Group(Canonical(l), []), Group(Canonical(r), []));
      AllJoined(SpellTerm(Group(Canonical(l), [])), Mark('|'), SpellTerm(Group(Canonical(r), [])));
      CanonicalParts(t);
    case Sequence(l, r) =>
      CanonicalIs(l);
      CanonicalIs(r);
      hide *;
      GroupIs(Canonical(l), []);
      GroupIs(Canonical(r), []);
      ThenIs(Group(Canonical(l), []), Group(Canonical(r), []));
      AllJoined(SpellTerm(Group(Canonical(l), [])), Mark(';'), SpellTerm(Group(Canonical(r), [])));
      CanonicalParts(t);
    case Background(u) =>
      CanonicalIs(u);
      hide *;
      GroupIs(Canonical(u), []);
      SingleIs(Group(Canonical(u), []), 1);
      AllJoined(SpellTerm(Group(Canonical(u), [])), Mark('&'), []);
      CanonicalParts(t);
  }

  lemma {:induction false} CanonicalParts(t: Tree)
    requires Printable(t)
    ensures match t
            case Run(args) => Canonical(t) == Final(Single(Flat(ItemsFor(args))), 0)
            case Redirected(u, f, m) =>
              && Canonical(t) == Final(Single(Group(Canonical(u), [Redirect(if m == Input then In else Out, f)])), 0)
              && ModeOf(if m == Input then In else Out) == m
            case Piped(l, r) =>
              Canonical(t) == Final(Into(Group(Canonical(l), []), Single(Group(Canonical(r), []))), 0)
            case Sequence(l, r) =>
              Canonical(t) == Then(Single(Group(Canonical(l), [])), 0, Final(Single(Group(Canonical(r), [])), 0))
            case Background(u) => Canonical(t) == Final(Single(Group(Canonical(u), [])), 1)
  {
  }

  lemma AllJoined(a: seq<Lexeme>, m: Lexeme, b: seq<Lexeme>)
    requires m == Mark('|') || m == Mark(';') || m == Mark('&')
    ensures AllOk(a) && AllOk(b) ==> AllOk(a + [m] + b)
    ensures a + [m] + [] == a + [m]
  {
  }

  lemma {:induction false} RunIs(args: seq<string>)
    requires Printable(Run(args))
    ensures var x := Canonical(Run(args)); SentenceTree(x) == Run(args) && SentenceFits(x) && AllOk(SpellSentence(x))
  {
    ItemsForAre(args);
    hide SpellItems, ArgsOf, RedirectsOf, AllOk, SentenceTree, SpellSentence, SentenceFits;
    SingleIs(Flat(ItemsFor(args)), 0);
  }

  lemma {:induction false} GroupIs(x: Sentence, rs: seq<Redirect>)
    requires AllOk(SpellSentence(x)) && |rs| <= 1 && (|rs| == 1 ==> PlainWord(rs[0].file))
    ensures AllOk(SpellTerm(Group(x, rs))) && (Fits(Group(x, rs)) <==> SentenceFits(x))
    ensures TermTree(Group(x, rs)) == if rs == [] then SentenceTree(x)
                                      else Redirected(SentenceTree(x), rs[0].file, ModeOf(rs[0].sign))
  {
    GroupParts(x, rs, []);
    hide SpellSentence, SentenceTree, SentenceFits, SpellTerm, TermTree;
    if |rs| == 1 {
      assert rs[1..] == [] && rs[..|rs| - 1] == [];
      assert SpellRedirects(rs[1..]) == [];
      assert SpellRedirects(rs) == SpellRedirect(rs[0]) + SpellRedirects(rs[1..]);
    }
    assert SpellTerm(Group(x, rs)) + [] == SpellTerm(Group(x, rs));
  }

  /** Parsing the parenthesised writing of a command tree, with any blanks, gives that tree back. */
  lemma {:induction false} RoundTrip(t: Tree, gaps: seq<string>) returns (c: Cmd)
    requires Printable(t) && Spaced(SpellSentence(Canonical(t)), gaps)
    ensures var s := Written(SpellSentence(Canonical(t)), gaps); Command(s) == Ok(c, |s|) && Meaning(s, c) == t
  {
    CanonicalIs(t);
    hide SpellSentence, Canonical, SentenceFits, SentenceTree, AllOk, Spaced;
    c := SentenceParses(Canonical(t), gaps);
  }

  // ----- the doubled greater-than sign -----

  predicate Reads(s: string, i: nat, w: string) {
    i + |w| <= |s| && s[i..i + |w|] == w
  }

  /** `n` greater-than signs, one or two, then perhaps blanks, then a file name and whatever ends it. */
  predicate Opens(s: string, j: nat, n: nat, f: string) {
    && 1 <= n <= 2 && j + n <= |s| && s[j] == '>' && (n == 2 <==> At(s, j + 1) == '>')
    && var k := Skip(s, j + n);
    PlainWord(f) && Reads(s, k, f) && (k + |f| < |s| ==> White(s[k + |f|]) || Symbol(s[k + |f|]))
  }

  lemma WordHere(s: string, k: nat, f: string)
    requires PlainWord(f) && Reads(s, k, f) && (k + |f| < |s| ==> White(s[k + |f|]) || Symbol(s[k + |f|]))
    ensures GetTok(s, k) == Token('a', Word(k, k + |f|), Skip(s, k + |f|)) && Text(s, Word(k, k + |f|)) == f
  {
    forall m | 0 <= m < |f| ensures s[k + m] == f[m] {
      assert s[k..k + |f|][m] == f[m];
    }
    assert Plain(s[k + 0]);
    PlainRun(s, k, k + |f|);
  }

  lemma SignHere(s: string, j: nat, n: nat)
    requires 1 <= n <= 2 && j + n <= |s| && s[j] == '>' && (n == 2 <==> At(s, j + 1) == '>')
    ensures GetTok(s, j) == Token(if n == 2 then '+' else '>', Word(j, j + n), Skip(s, j + n))
    ensures Peeks(s, j, {'<', '>'})
  {
  }

  /** A doubled > opens the file exactly as a single one does, whatever follows: nothing is appended. */
  lemma AppendRule(s: string, j: nat, n: nat, d: Cmd, f: string)
    requires Opens(s, j, n, f)
    ensures var k := Skip(s, j + n);
            var e := Skip(s, k + |f|);
            Redirs(s, j, d) == Redirs(s, e, Redir(d, Word(k, k + |f|), Output)) && Text(s, Word(k, k + |f|)) == f
  {
    var k := Skip(s, j + n);
    WordHere(s, k, f);
    SignHere(s, j, n);
    hide GetTok, Reads, Peeks;
  }
}
