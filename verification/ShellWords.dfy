/** Which words of a line the shell makes arguments and which file names, and in what order: said of the
    text and the tree alone. */
module ShellWords {
  import opened ShellSyntax

  /** A character that can be part of a word. */
  predicate Plain(c: char) {
    c != '\0' && c !in " \t\r\n\U{00000B}" && c !in "<|>&;()"
  }

  /** The words of the text: its longest runs of such characters. */
  predicate WordOf(s: string, sp: Span) {
    && sp.q < sp.eq <= |s| && (forall k :: sp.q <= k < sp.eq ==> Plain(s[k]))
    && (sp.q > 0 ==> !Plain(s[sp.q - 1])) && (sp.eq < |s| ==> !Plain(s[sp.eq]))
  }

  /** The arguments and file names of a tree, as often as they are in it. */
  function Spans(n: Node): multiset<Span> {
    match n
    case Exec(args) => multiset(args)
    case Redir(cmd, file, _, _) => Spans(cmd) + multiset{file}
    case Pipe(left, right) => Spans(left) + Spans(right)
    case List(left, right) => Spans(left) + Spans(right)
    case Back(cmd) => Spans(cmd)
  }

  /** The arguments of each command stand in the order of the text, and so do redirections around one
      another; what is left of a pipe or a semicolon comes before what is right of it. */
  ghost predicate InOrder(n: Node) {
    match n
    case Exec(args) => forall j, k :: 0 <= j < k < |args| ==> args[j].eq <= args[k].q
    case Redir(cmd, file, _, _) => InOrder(cmd) && (cmd.Redir? ==> cmd.file.eq <= file.q)
    case Pipe(left, right) => InOrder(left) && InOrder(right) && Precede(left, right)
    case List(left, right) => InOrder(left) && InOrder(right) && Precede(left, right)
    case Back(cmd) => InOrder(cmd)
  }

  ghost predicate Precede(left: Node, right: Node) {
    forall a, b :: a in Spans(left) && b in Spans(right) ==> a.eq <= b.q
  }

  /** The last character before q that is not white space, or NUL. */
  function Before(s: string, q: nat): char
    requires q <= |s|
  {
    if q == 0 then '\0' else if s[q - 1] in " \t\r\n\U{00000B}" then Before(s, q - 1) else s[q - 1]
  }

  /** File names are the words behind < and >, with the mode and the descriptor of that sign, and the
      arguments are the other words. */
  ghost predicate Roles(s: string, n: Node) {
    match n
    case Exec(args) => forall k :: 0 <= k < |args| ==> args[k].q <= |s| && Before(s, args[k].q) !in "<>"
    case Redir(cmd, file, mode, fd) =>
      && Roles(s, cmd) && file.q <= |s|
      && (if fd == 0 then mode == 0 && Before(s, file.q) == '<' else fd == 1 && mode == 0x201 && Before(s, file.q) == '>')
    case Pipe(left, right) => Roles(s, left) && Roles(s, right)
    case List(left, right) => Roles(s, left) && Roles(s, right)
    case Back(cmd) => Roles(s, cmd)
  }

  predicate AtMostNine(n: Node) {
    match n
    case Exec(args) => |args| <= 9
    case Redir(cmd, _, _, _) => AtMostNine(cmd)
    case Pipe(left, right) => AtMostNine(left) && AtMostNine(right)
    case List(left, right) => AtMostNine(left) && AtMostNine(right)
    case Back(cmd) => AtMostNine(cmd)
  }

  // ------------------------------------------------------ parts of the text

  lemma PlainIs(c: char)
    ensures Plain(c) <==> WordChar(c)
  {}

  /** No word goes on across position i. */
  predicate Break(s: string, i: nat) {
    i == 0 || i >= |s| || !Plain(s[i - 1]) || !Plain(s[i])
  }

  /** The words between i and j. */
  ghost function Region(s: string, i: nat, j: nat): set<Span> {
    set q: nat, e: nat | i <= q < e <= j && WordOf(s, Span(q, e)) :: Span(q, e)
  }

  lemma RegionHas(s: string, i: nat, j: nat, sp: Span)
    ensures sp in Region(s, i, j) <==> i <= sp.q && sp.eq <= j && WordOf(s, sp)
  {
    assert sp == Span(sp.q, sp.eq);
  }

  lemma RegionSplit(s: string, i: nat, k: nat, j: nat)
    requires i <= k <= j <= |s| && Break(s, k)
    ensures multiset(Region(s, i, j)) == multiset(Region(s, i, k)) + multiset(Region(s, k, j))
  {
    hide WordOf, Region;
    forall sp ensures sp in Region(s, i, j) <==> sp in Region(s, i, k) || sp in Region(s, k, j) {
      RegionHas(s, i, j, sp);
      RegionHas(s, i, k, sp);
      RegionHas(s, k, j, sp);
      if WordOf(s, sp) && sp.q < k < sp.eq {
        WordUnbroken(s, sp, k);
      }
    }
    forall sp ensures !(sp in Region(s, i, k) && sp in Region(s, k, j)) {
      RegionHas(s, i, k, sp);
      RegionHas(s, k, j, sp);
      WordNotEmpty(s, sp);
    }
    assert Region(s, i, j) == Region(s, i, k) + Region(s, k, j);
  }

  lemma WordNotEmpty(s: string, sp: Span)
    ensures WordOf(s, sp) ==> sp.q < sp.eq
  {}

  lemma WordUnbroken(s: string, sp: Span, k: nat)
    requires WordOf(s, sp) && sp.q < k < sp.eq
    ensures !Break(s, k)
  {}

  lemma RegionNone(s: string, i: nat, j: nat)
    requires i <= j <= |s| && forall k :: i <= k < j ==> !Plain(s[k])
    ensures multiset(Region(s, i, j)) == multiset{}
  {
    hide Plain, WordOf, Region;
    forall sp ensures sp !in Region(s, i, j) {
      RegionHas(s, i, j, sp);
      Inside(s, sp, sp.q);
    }
    assert Region(s, i, j) == {};
  }

  lemma Inside(s: string, sp: Span, k: nat)
    ensures WordOf(s, sp) && sp.q <= k < sp.eq ==> k < |s| && Plain(s[k])
    ensures WordOf(s, sp) ==> sp.q < sp.eq <= |s|
  {}

  lemma Edges(s: string, sp: Span)
    ensures WordOf(s, sp) && sp.q > 0 ==> !Plain(s[sp.q - 1])
    ensures WordOf(s, sp) && sp.eq < |s| ==> !Plain(s[sp.eq])
  {}

  lemma RegionOne(s: string, sp: Span)
    requires WordOf(s, sp)
    ensures multiset(Region(s, sp.q, sp.eq)) == multiset{sp}
  {
    hide Plain, WordOf, Region;
    forall x ensures x in Region(s, sp.q, sp.eq) <==> x == sp {
      RegionHas(s, sp.q, sp.eq, x);
      Edges(s, x);
      Inside(s, x, x.q);
      Inside(s, sp, x.eq);
      Inside(s, sp, if x.q > 0 then x.q - 1 else 0);
    }
    assert Region(s, sp.q, sp.eq) == {sp};
  }

  // ----------------------------------------------------------------- tokens

  lemma SkipBreak(s: string, i: nat)
    requires Text(s) && i <= |s| && Break(s, i)
    ensures Break(s, Skip(s, i)) && multiset(Region(s, i, Skip(s, i))) == multiset{}
  {
    hide Plain;
    forall k | i <= k < Skip(s, i) ensures !Plain(s[k]) {
      PlainIs(s[k]);
    }
    RegionNone(s, i, Skip(s, i));
  }

  lemma SkipBefore(s: string, i: nat)
    requires i <= |s|
    ensures Before(s, Skip(s, i)) == Before(s, i)
    decreases |s| - i
  {
    if i < |s| && Space(s[i]) {
      SkipBefore(s, i + 1);
    }
  }

  /** Where the reading of a token that is there stops: its last character, and what words it adds. */
  lemma TokenRead(s: string, i: nat)
    requires Text(s) && i <= |s| && Break(s, i)
    ensures var t := GetToken(s, i);
            && t.next <= |s| && Break(s, t.next)
            && multiset(Region(s, i, t.next)) == (if t.tok == 'a' then multiset{t.span} else multiset{})
            && (t.tok == 'a' ==> i <= t.span.q && t.span.eq <= t.next)
  {
    hide Plain, Region;
    var q := Skip(s, i);
    var e := TokenEnd(s, q);
    SkipBreak(s, i);
    EndBreak(s, i);
    SkipBreak(s, e);
    RegionSplit(s, i, q, GetToken(s, i).next);
    RegionSplit(s, q, e, GetToken(s, i).next);
  }

  lemma EndBreak(s: string, i: nat)
    requires Text(s) && i <= |s| && Break(s, i)
    ensures var q, e := Skip(s, i), TokenEnd(s, Skip(s, i));
            && q <= e <= |s| && Break(s, e)
            && multiset(Region(s, q, e)) == (if GetToken(s, i).tok == 'a' then multiset{Span(q, e)} else multiset{})
  {
    hide Region, Plain;
    var q := Skip(s, i);
    var e := TokenEnd(s, q);
    SkipBreak(s, i);
    if q < |s| {
      PlainIs(s[q]);
    }
    if GetToken(s, i).tok == 'a' {
      WordFound(s, q);
      RegionOne(s, Span(q, e));
    } else {
      forall k | q <= k < e ensures !Plain(s[k]) {
        PlainIs(s[k]);
      }
      RegionNone(s, q, e);
    }
  }

  lemma WordFound(s: string, q: nat)
    requires Text(s) && q < |s| && Plain(s[q]) && Break(s, q)
    ensures TokenEnd(s, q) == WordEnd(s, q) && WordOf(s, Span(q, WordEnd(s, q))) && Break(s, WordEnd(s, q))
  {
    var e := WordEnd(s, q);
    PlainIs(s[q]);
    forall k | q <= k < e ensures Plain(s[k]) {
      PlainIs(s[k]);
    }
    if e < |s| {
      PlainIs(s[e]);
    }
  }

  /** The character that the reading of a token ends with. */
  lemma TokenBefore(s: string, i: nat)
    requires Text(s) && i <= |s|
    ensures var t := GetToken(s, i);
            && (t.tok == 'a' ==> Before(s, t.next) !in "<>")
            && (t.tok in "|&;()<>" ==> Before(s, t.next) == t.tok)
            && (t.tok == '+' ==> Before(s, t.next) == '>')
            && (t.tok == '\0' ==> Before(s, t.next) == Before(s, i))
            && (t.tok == 'a' ==> Before(s, t.span.q) == Before(s, i))
  {
    var q := Skip(s, i);
    var e := TokenEnd(s, q);
    SkipBefore(s, i);
    SkipBefore(s, e);
    if q < |s| {
      EndsIn(s, q);
    }
  }

  lemma EndsIn(s: string, q: nat)
    requires Text(s) && q < |s| && !Space(s[q])
    ensures var e := TokenEnd(s, q); q < e <= |s| && !Space(s[e - 1]) && Before(s, e) == s[e - 1]
    ensures var e := TokenEnd(s, q); if Symbol(s[q]) then s[e - 1] == s[q] else !Symbol(s[e - 1])
  {
    hide Before, Symbol, Space;
    LastChar(s, q);
    BeforeIs(s, TokenEnd(s, q));
  }

  lemma LastChar(s: string, q: nat)
    requires Text(s) && q < |s| && !Space(s[q])
    ensures var e := TokenEnd(s, q); q < e <= |s| && !Space(s[e - 1])
    ensures var e := TokenEnd(s, q); if Symbol(s[q]) then s[e - 1] == s[q] else !Symbol(s[e - 1])
  {}

  lemma BeforeIs(s: string, e: nat)
    requires 0 < e <= |s| && !Space(s[e - 1])
    ensures Before(s, e) == s[e - 1]
  {}

  // ---------------------------------------------------------------- parsing

  /** The tree has read the text from i to j: its words are the ones there, in order and in their roles. */
  ghost predicate Read(s: string, n: Node, i: nat, j: nat) {
    i <= j <= |s| && Spans(n) == multiset(Region(s, i, j)) && InOrder(n) && Roles(s, n)
  }

  /** What comes before is no sign of a redirection. */
  predicate Calm(s: string, i: nat)
    requires i <= |s|
  {
    Before(s, i) !in "<>"
  }

  lemma ReadWithin(s: string, n: Node, i: nat, j: nat)
    requires Read(s, n, i, j)
    ensures forall sp :: sp in Spans(n) ==> i <= sp.q && sp.eq <= j
  {
    hide Region;
    forall sp | sp in Spans(n) ensures i <= sp.q && sp.eq <= j {
      assert sp in Region(s, i, j);
      RegionHas(s, i, j, sp);
    }
  }

  /** White space behind what has been read. */
  lemma ReadOn(s: string, n: Node, i: nat, j: nat)
    requires Text(s) && Read(s, n, i, j) && Break(s, j)
    ensures Read(s, n, i, Skip(s, j)) && Break(s, Skip(s, j)) && Before(s, Skip(s, j)) == Before(s, j)
  {
    hide Break, Region, InOrder, Roles;
    SkipBreak(s, j);
    SkipBefore(s, j);
    RegionSplit(s, i, j, Skip(s, j));
  }

  /** White space in front of it. */
  lemma ReadFrom(s: string, n: Node, i: nat, j: nat)
    requires Text(s) && i <= |s| && Break(s, i) && Read(s, n, Skip(s, i), j)
    ensures Read(s, n, i, j)
  {
    hide Break, Region, InOrder, Roles;
    SkipBreak(s, i);
    RegionSplit(s, i, Skip(s, i), j);
  }

  lemma {:induction false} AddArgRead(s: string, n: Node, a: Span)
    requires Simple(n) && InOrder(n) && Roles(s, n) && a.q <= |s| && Calm(s, a.q)
    requires forall sp :: sp in Spans(n) ==> sp.eq <= a.q
    ensures Spans(AddArg(n, a)) == Spans(n) + multiset{a} && InOrder(AddArg(n, a)) && Roles(s, AddArg(n, a))
  {
    match n
    case Exec(args) => AppendRead(s, args, a);
    case Redir(cmd, _, _, _) => AddArgRead(s, cmd, a);
  }

  lemma AppendRead(s: string, args: seq<Span>, a: Span)
    requires InOrder(Exec(args)) && Roles(s, Exec(args)) && a.q <= |s| && Calm(s, a.q)
    requires forall sp :: sp in Spans(Exec(args)) ==> sp.eq <= a.q
    ensures multiset(args + [a]) == multiset(args) + multiset{a} && InOrder(Exec(args + [a])) && Roles(s, Exec(args + [a]))
  {
    hide Before;
    forall j | 0 <= j < |args| ensures args[j].eq <= a.q {
      assert args[j] in Spans(Exec(args));
    }
  }

  lemma MakeRedirRead(s: string, cmd: Node, tok: char, file: Span)
    requires InOrder(cmd) && Roles(s, cmd) && file.q <= |s|
    requires Before(s, file.q) == if tok == '<' then '<' else '>'
    requires forall sp :: sp in Spans(cmd) ==> sp.eq <= file.q
    ensures var n := MakeRedir(cmd, tok, file); Spans(n) == Spans(cmd) + multiset{file} && InOrder(n) && Roles(s, n)
  {
    if cmd.Redir? {
      assert cmd.file in Spans(cmd);
    }
  }

  lemma RedirSign(s: string, i: nat)
    requires Text(s) && i <= |s| && Peek(s, i, "<>")
    ensures var t := GetToken(s, i); Before(s, t.next) == if t.tok == '<' then '<' else '>'
  {
    TokenBefore(s, i);
    var c := s[Skip(s, i)];
    assert c == '<' || c == '>';
  }

  lemma SignTaken(s: string, i: nat)
    requires Text(s) && i <= |s| && Break(s, i) && Peek(s, i, "<>")
    ensures var j := GetToken(s, i).next; i <= j <= |s| && Break(s, j) && multiset(Region(s, i, j)) == multiset{}
  {
    hide Break, Region, Before;
    TokenRead(s, i);
  }

  lemma WordBefore(s: string, i: nat)
    requires Text(s) && i <= |s| && GetToken(s, i).tok == 'a'
    ensures var t := GetToken(s, i); Calm(s, t.next) && Before(s, t.span.q) == Before(s, i)
  {
    hide Before;
    TokenBefore(s, i);
  }

  /** One sign and its file name. */
  lemma RedirRead(s: string, i0: nat, i: nat, cmd: Node)
    requires Text(s) && i <= |s| && Break(s, i) && Read(s, cmd, i0, i) && Peek(s, i, "<>")
    requires GetToken(s, GetToken(s, i).next).tok == 'a'
    ensures var op := GetToken(s, i);
            var file := GetToken(s, op.next);
            Read(s, MakeRedir(cmd, op.tok, file.span), i0, file.next) && Break(s, file.next) && Calm(s, file.next)
  {
    var op := GetToken(s, i);
    var file := GetToken(s, op.next);
    RedirSign(s, i);
    hide GetToken, Peek, Break, Region, InOrder, Roles, MakeRedir, Before, Calm;
    SignTaken(s, i);
    TokenRead(s, op.next);
    WordBefore(s, op.next);
    RegionSplit(s, i0, i, op.next);
    RegionSplit(s, i0, op.next, file.next);
    ReadWithin(s, cmd, i0, i);
    MakeRedirRead(s, cmd, op.tok, file.span);
  }

  lemma {:induction false} RedirsRead(s: string, i0: nat, i: nat, cmd: Node)
    requires Text(s) && i <= |s| && Break(s, i) && Read(s, cmd, i0, i) && ParseRedirs(s, i, cmd).Done?
    ensures var r := ParseRedirs(s, i, cmd); Read(s, r.node, i0, r.next) && Break(s, r.next) && (Calm(s, i) ==> Calm(s, r.next))
    decreases |s| - i
  {
    hide GetToken, Peek, Break, Read, MakeRedir;
    if Peek(s, i, "<>") {
      PeekToken(s, i, "<>");
      RedirRead(s, i0, i, cmd);
      var file := GetToken(s, GetToken(s, i).next);
      RedirsRead(s, i0, file.next, MakeRedir(cmd, GetToken(s, i).tok, file.span));
    } else {
      ReadOn(s, cmd, i0, i);
    }
  }

  /** One argument. */
  lemma ArgRead(s: string, i0: nat, i: nat, ret: Node)
    requires Text(s) && i <= |s| && Break(s, i) && Calm(s, i) && Read(s, ret, i0, i) && Simple(ret) && GetToken(s, i).tok == 'a'
    ensures var t := GetToken(s, i); Read(s, AddArg(ret, t.span), i0, t.next) && Break(s, t.next) && Calm(s, t.next)
  {
    hide GetToken, Break, Region, InOrder, Roles, AddArg, Before;
    var t := GetToken(s, i);
    TokenRead(s, i);
    TokenBefore(s, i);
    RegionSplit(s, i0, i, t.next);
    ReadWithin(s, ret, i0, i);
    AddArgRead(s, ret, t.span);
  }

  lemma {:induction false} ArgsRead(s: string, i0: nat, i: nat, ret: Node)
    requires Text(s) && i <= |s| && Break(s, i) && Calm(s, i) && Read(s, ret, i0, i)
    requires Simple(ret) && ArgCount(ret) < MAXARGS && ParseArgs(s, i, ret).Done?
    ensures var r := ParseArgs(s, i, ret); Read(s, r.node, i0, r.next) && Break(s, r.next) && Calm(s, r.next)
    decreases |s| - i
  {
    hide Peek, Break, Read, Calm, AddArg, Skip, TokenEnd;
    var t := GetToken(s, i);
    if Peek(s, i, "|)&;") || t.tok == '\0' {
      ReadOn(s, ret, i0, i);
      EndCalm(s, i);
    } else {
      ArgRead(s, i0, i, ret);
      RedirsRead(s, i0, t.next, AddArg(ret, t.span));
      var r := ParseRedirs(s, t.next, AddArg(ret, t.span));
      ArgsRead(s, i0, r.next, r.node);
    }
  }

  lemma EndCalm(s: string, i: nat)
    requires Text(s) && i <= |s| && Calm(s, i)
    ensures Calm(s, Skip(s, i)) && (GetToken(s, i).tok == '\0' ==> GetToken(s, i).next == Skip(s, i))
  {
    SkipBefore(s, i);
  }

  lemma {:induction false} ExecRead(s: string, i: nat)
    requires Text(s) && i <= |s| && Break(s, i) && Calm(s, i) && ParseExec(s, i).Done?
    ensures var r := ParseExec(s, i); Read(s, r.node, i, r.next) && Break(s, r.next) && Calm(s, r.next)
    decreases |s| - i, 2
  {
    hide Peek, Break, Calm, Skip, GetToken, Region;
    if Peek(s, i, "(") {
      PeekSkip(s, i, "(");
      SkipBreak(s, i);
      EndCalm(s, i);
      BlockRead(s, Skip(s, i));
      ReadFrom(s, ParseExec(s, i).node, i, ParseExec(s, i).next);
    } else {
      RegionNone(s, i, i);
      RedirsRead(s, i, i, Exec([]));
      var r := ParseRedirs(s, i, Exec([]));
      ArgsRead(s, i, r.next, r.node);
    }
  }

  lemma PeekSkip(s: string, i: nat, toks: string)
    requires Text(s) && i <= |s| && Peek(s, i, toks)
    ensures Peek(s, Skip(s, i), toks) && GetToken(s, Skip(s, i)) == GetToken(s, i)
  {}

  /** A sign other than those of redirections. */
  lemma SignRead(s: string, i: nat, sign: string)
    requires Text(s) && i <= |s| && Break(s, i) && Peek(s, i, sign) && sign in ["(", ")", "|", "&", ";"]
    ensures var j := GetToken(s, i).next; i < j <= |s| && Break(s, j) && Calm(s, j) && multiset(Region(s, i, j)) == multiset{}
  {
    TokenRead(s, i);
    TokenBefore(s, i);
    PeekToken(s, i, sign);
    assert GetToken(s, i).tok == sign[0];
  }

  lemma {:induction false} BlockRead(s: string, i: nat)
    requires Text(s) && i <= |s| && Break(s, i) && Peek(s, i, "(") && ParseBlock(s, i).Done?
    ensures var r := ParseBlock(s, i); Read(s, r.node, i, r.next) && Break(s, r.next) && Calm(s, r.next)
    decreases |s| - i, 1
  {
    hide Peek, Break, Calm, Skip, GetToken, Region, InOrder, Roles;
    SignRead(s, i, "(");
    var a := GetToken(s, i).next;
    LineRead(s, a);
    var r := ParseLine(s, a);
    SignRead(s, r.next, ")");
    var b := GetToken(s, r.next).next;
    RegionSplit(s, i, a, r.next);
    RegionSplit(s, i, r.next, b);
    RedirsRead(s, i, b, r.node);
  }

  lemma {:induction false} PipeRead(s: string, i: nat)
    requires Text(s) && i <= |s| && Break(s, i) && Calm(s, i) && ParsePipe(s, i).Done?
    ensures var r := ParsePipe(s, i); Read(s, r.node, i, r.next) && Break(s, r.next) && Calm(s, r.next)
    decreases |s| - i, 3
  {
    hide Peek, Break, Calm, Skip, GetToken, Region, Read;
    ExecRead(s, i);
    var l := ParseExec(s, i);
    if Peek(s, l.next, "|") {
      SignRead(s, l.next, "|");
      var a := GetToken(s, l.next).next;
      PipeRead(s, a);
      BothRead(s, l.node, ParsePipe(s, a).node, i, l.next, a, ParsePipe(s, a).next);
    } else {
      ReadOn(s, l.node, i, l.next);
      EndCalm(s, l.next);
    }
  }

  /** Two trees with a sign between them. */
  lemma BothRead(s: string, left: Node, right: Node, i: nat, j: nat, a: nat, b: nat)
    requires Read(s, left, i, j) && Read(s, right, a, b) && j <= a && Break(s, j) && Break(s, a)
    requires multiset(Region(s, j, a)) == multiset{}
    ensures Read(s, Pipe(left, right), i, b) && Read(s, List(left, right), i, b)
  {
    hide Break, Region, InOrder, Roles;
    RegionSplit(s, i, j, a);
    RegionSplit(s, i, a, b);
    ReadWithin(s, left, i, j);
    ReadWithin(s, right, a, b);
    BothOrdered(s, left, right);
  }

  lemma BothOrdered(s: string, left: Node, right: Node)
    requires InOrder(left) && InOrder(right) && Roles(s, left) && Roles(s, right) && Precede(left, right)
    ensures InOrder(Pipe(left, right)) && InOrder(List(left, right)) && Roles(s, Pipe(left, right)) && Roles(s, List(left, right))
  {}

  lemma {:induction false} BacksRead(s: string, i0: nat, i: nat, cmd: Node)
    requires Text(s) && i <= |s| && Break(s, i) && Calm(s, i) && Read(s, cmd, i0, i)
    ensures var r := ParseBacks(s, i, cmd); Read(s, r.node, i0, r.next) && Break(s, r.next) && Calm(s, r.next)
    decreases |s| - i
  {
    hide Peek, Break, Calm, Skip, GetToken, Region;
    if Peek(s, i, "&") {
      SignRead(s, i, "&");
      var a := GetToken(s, i).next;
      RegionSplit(s, i0, i, a);
      BacksRead(s, i0, a, Back(cmd));
    } else {
      ReadOn(s, cmd, i0, i);
      EndCalm(s, i);
    }
  }

  lemma {:induction false} LineRead(s: string, i: nat)
    requires Text(s) && i <= |s| && Break(s, i) && Calm(s, i) && ParseLine(s, i).Done?
    ensures var r := ParseLine(s, i); Read(s, r.node, i, r.next) && Break(s, r.next) && Calm(s, r.next)
    decreases |s| - i, 4
  {
    hide Peek, Break, Calm, Skip, GetToken, Region, Read;
    PipeRead(s, i);
    var p := ParsePipe(s, i);
    BacksRead(s, i, p.next, p.node);
    var b := ParseBacks(s, p.next, p.node);
    if Peek(s, b.next, ";") {
      SignRead(s, b.next, ";");
      var a := GetToken(s, b.next).next;
      LineRead(s, a);
      BothRead(s, b.node, ParseLine(s, a).node, i, b.next, a, ParseLine(s, a).next);
    } else {
      ReadOn(s, b.node, i, b.next);
      EndCalm(s, b.next);
    }
  }

  lemma {:induction false} NineWords(s: string, n: Node)
    requires NodeOk(s, n)
    ensures AtMostNine(n)
  {
    match n
    case Exec(_) =>
    case Redir(cmd, _, _, _) => NineWords(s, cmd);
    case Pipe(left, right) => NineWords(s, left); NineWords(s, right);
    case List(left, right) => NineWords(s, left); NineWords(s, right);
    case Back(cmd) => NineWords(s, cmd);
  }

  /** Every accepted line: the arguments and file names of its tree are exactly the words of the line,
      each of them once; the arguments of each command are in the order of the text, as are redirections
      around one another; and a word is a file name, with its mode and descriptor, just when < or >
      comes before it. */
  lemma WordsInPlace(s: string)
    requires Text(s) && ParseCmd(s).Done?
    ensures var n := ParseCmd(s).node;
            (forall sp :: Spans(n)[sp] == if WordOf(s, sp) then 1 else 0) && InOrder(n) && Roles(s, n) && AtMostNine(n)
  {
    hide InOrder, Roles, Region, Spans;
    LineRead(s, 0);
    var r := ParseLine(s, 0);
    NineWords(s, r.node);
    ReadOn(s, r.node, 0, r.next);
    forall sp ensures Spans(r.node)[sp] == if WordOf(s, sp) then 1 else 0 {
      RegionHas(s, 0, |s|, sp);
    }
  }
}
