/** sh.c's tokens and grammar as functions of the text and a position in it. */
module ShellSyntax {

  const MAXARGS: nat := 10
  const O_RDONLY: nat := 0x000
  const O_WRONLY: nat := 0x001
  const O_CREATE: nat := 0x200

  predicate Space(c: char) {
    c in " \t\r\n\U{00000B}"
  }

  predicate Symbol(c: char) {
    c in "<|>&;()"
  }

  predicate WordChar(c: char) {
    c != '\0' && !Space(c) && !Symbol(c)
  }

  /** Text up to strlen: the character at its end reads as NUL. */
  predicate Text(s: string) {
    forall k :: 0 <= k < |s| ==> s[k] != '\0'
  }

  function At(s: string, i: nat): char {
    if i < |s| then s[i] else '\0'
  }

  /** A token's first character and the one after its last, as the shell keeps them: q and eq. */
  datatype Span = Span(q: nat, eq: nat)

  datatype Node =
    | Exec(args: seq<Span>)
    | Redir(cmd: Node, file: Span, mode: nat, fd: nat)
    | Pipe(left: Node, right: Node)
    | List(left: Node, right: Node)
    | Back(cmd: Node)

  datatype Parsed = Done(node: Node, next: nat) | Panic(message: string)

  /** tok is 'a' for a word, '+' for >>, NUL at the end, and otherwise the symbol itself. */
  datatype Token = Token(tok: char, span: Span, next: nat)

  function Skip(s: string, i: nat): (j: nat)
    requires i <= |s|
    ensures i <= j <= |s| && !Space(At(s, j)) && forall k :: i <= k < j ==> Space(s[k])
    decreases |s| - i
  {
    if i < |s| && Space(s[i]) then Skip(s, i + 1) else i
  }

  function WordEnd(s: string, i: nat): (j: nat)
    requires i <= |s|
    ensures i <= j <= |s| && !(j < |s| && !Space(s[j]) && !Symbol(s[j]))
    ensures forall k :: i <= k < j ==> !Space(s[k]) && !Symbol(s[k])
    decreases |s| - i
  {
    if i < |s| && !Space(s[i]) && !Symbol(s[i]) then WordEnd(s, i + 1) else i
  }

  /** A maximal run of word characters. */
  predicate IsWord(s: string, sp: Span) {
    sp.q < sp.eq <= |s| && (forall k :: sp.q <= k < sp.eq ==> WordChar(s[k])) && !WordChar(At(s, sp.eq))
  }

  function TokenEnd(s: string, q: nat): (e: nat)
    requires Text(s) && q <= |s| && !Space(At(s, q))
    ensures q <= e <= |s| && (q < |s| ==> q < e)
  {
    var c := At(s, q);
    if c == '\0' then q
    else if c == '>' && At(s, q + 1) == '>' then q + 2
    else if Symbol(c) then q + 1
    else WordEnd(s, q)
  }

  function GetToken(s: string, i: nat): (t: Token)
    requires Text(s) && i <= |s|
    ensures i <= t.next <= |s| && (t.tok == '\0' <==> Skip(s, i) == |s|)
    ensures t.tok != '\0' ==> i < t.next
    ensures t.tok == 'a' ==> IsWord(s, t.span)
  {
    var q := Skip(s, i);
    var e := TokenEnd(s, q);
    var c := At(s, q);
    var tok := if c == '\0' then c else if c == '>' && At(s, q + 1) == '>' then '+' else if Symbol(c) then c else 'a';
    Token(tok, Span(q, e), Skip(s, e))
  }

  /** Whether the next character after white space is one of toks. */
  predicate Peek(s: string, i: nat, toks: string)
    requires i <= |s|
  {
    At(s, Skip(s, i)) != '\0' && At(s, Skip(s, i)) in toks
  }

  lemma PeekToken(s: string, i: nat, toks: string)
    requires Text(s) && i <= |s| && Peek(s, i, toks)
    ensures i < GetToken(s, i).next
  {}

  // ------------------------------------------------------------ the grammar

  /** The EXEC node that redirections have been wrapped around. */
  predicate Simple(n: Node) {
    n.Exec? || (n.Redir? && Simple(n.cmd))
  }

  function ArgCount(n: Node): nat
    requires Simple(n)
  {
    if n.Exec? then |n.args| else ArgCount(n.cmd)
  }

  /** An argument stored through parseexec's pointer to the EXEC node inside ret. */
  function AddArg(n: Node, a: Span): (r: Node)
    requires Simple(n)
    ensures Simple(r) && ArgCount(r) == ArgCount(n) + 1
  {
    if n.Exec? then Exec(n.args + [a]) else n.(cmd := AddArg(n.cmd, a))
  }

  /** What the parser builds: at most nine words to a command, and two kinds of redirection. */
  predicate NodeOk(s: string, n: Node) {
    match n
    case Exec(args) => |args| < MAXARGS && forall k :: 0 <= k < |args| ==> IsWord(s, args[k])
    case Redir(cmd, file, mode, fd) =>
      NodeOk(s, cmd) && IsWord(s, file) && ((mode == O_RDONLY && fd == 0) || (mode == O_WRONLY + O_CREATE && fd == 1))
    case Pipe(left, right) => NodeOk(s, left) && NodeOk(s, right)
    case List(left, right) => NodeOk(s, left) && NodeOk(s, right)
    case Back(cmd) => NodeOk(s, cmd)
  }

  lemma {:induction false} AddArgOk(s: string, n: Node, a: Span)
    requires Simple(n) && NodeOk(s, n) && IsWord(s, a) && ArgCount(n) + 1 < MAXARGS
    ensures NodeOk(s, AddArg(n, a))
  {
    if n.Redir? {
      AddArgOk(s, n.cmd, a);
    }
  }

  function MakeRedir(cmd: Node, tok: char, file: Span): Node {
    if tok == '<' then Redir(cmd, file, O_RDONLY, 0) else Redir(cmd, file, O_WRONLY + O_CREATE, 1)
  }

  function ParseRedirs(s: string, i: nat, cmd: Node): (r: Parsed)
    requires Text(s) && i <= |s|
    ensures r.Done? ==> i <= r.next <= |s| && (NodeOk(s, cmd) ==> NodeOk(s, r.node))
    ensures r.Done? && Simple(cmd) ==> Simple(r.node) && ArgCount(r.node) == ArgCount(cmd)
    decreases |s| - i
  {
    if Peek(s, i, "<>") then
      var op := GetToken(s, i);
      var file := GetToken(s, op.next);
      if file.tok != 'a' then Panic("missing file for redirection")
      else ParseRedirs(s, file.next, MakeRedir(cmd, op.tok, file.span))
    else Done(cmd, Skip(s, i))
  }

  /** parseexec's loop. */
  function ParseArgs(s: string, i: nat, ret: Node): (r: Parsed)
    requires Text(s) && i <= |s| && Simple(ret) && ArgCount(ret) < MAXARGS
    ensures r.Done? ==> i <= r.next <= |s| && (NodeOk(s, ret) ==> NodeOk(s, r.node))
    decreases |s| - i
  {
    if Peek(s, i, "|)&;") then Done(ret, Skip(s, i))
    else
      var t := GetToken(s, i);
      if t.tok == '\0' then Done(ret, t.next)
      else if t.tok != 'a' then Panic("syntax")
      else if ArgCount(ret) + 1 >= MAXARGS then Panic("too many args")
      else
        var n := AddArg(ret, t.span);
        assert NodeOk(s, ret) ==> NodeOk(s, n) by {
          if NodeOk(s, ret) {
            AddArgOk(s, ret, t.span);
          }
        }
        var r := ParseRedirs(s, t.next, n);
        if r.Panic? then r else ParseArgs(s, r.next, r.node)
  }

  function ParseExec(s: string, i: nat): (r: Parsed)
    requires Text(s) && i <= |s|
    ensures r.Done? ==> i <= r.next <= |s| && NodeOk(s, r.node)
    decreases |s| - i, 2
  {
    if Peek(s, i, "(") then ParseBlock(s, Skip(s, i))
    else
      var r := ParseRedirs(s, i, Exec([]));
      if r.Panic? then r else ParseArgs(s, r.next, r.node)
  }

  function ParseBlock(s: string, i: nat): (r: Parsed)
    requires Text(s) && i <= |s| && Peek(s, i, "(")
    ensures r.Done? ==> i <= r.next <= |s| && NodeOk(s, r.node)
    decreases |s| - i, 1
  {
    PeekToken(s, i, "(");
    var r := ParseLine(s, GetToken(s, i).next);
    if r.Panic? then r
    else if !Peek(s, r.next, ")") then Panic("syntax - missing )")
    else ParseRedirs(s, GetToken(s, r.next).next, r.node)
  }

  function ParsePipe(s: string, i: nat): (r: Parsed)
    requires Text(s) && i <= |s|
    ensures r.Done? ==> i <= r.next <= |s| && NodeOk(s, r.node)
    decreases |s| - i, 3
  {
    var l := ParseExec(s, i);
    if l.Panic? then l
    else if !Peek(s, l.next, "|") then Done(l.node, Skip(s, l.next))
    else
      var r := ParsePipe(s, GetToken(s, l.next).next);
      if r.Panic? then r else Done(Pipe(l.node, r.node), r.next)
  }

  /** parseline's loop over &. */
  function ParseBacks(s: string, i: nat, cmd: Node): (r: Parsed)
    requires Text(s) && i <= |s|
    ensures r.Done? && i <= r.next <= |s| && (NodeOk(s, cmd) ==> NodeOk(s, r.node))
    decreases |s| - i
  {
    if Peek(s, i, "&") then ParseBacks(s, GetToken(s, i).next, Back(cmd)) else Done(cmd, Skip(s, i))
  }

  function ParseLine(s: string, i: nat): (r: Parsed)
    requires Text(s) && i <= |s|
    ensures r.Done? ==> i <= r.next <= |s| && NodeOk(s, r.node)
    decreases |s| - i, 4
  {
    var p := ParsePipe(s, i);
    if p.Panic? then p
    else
      var b := ParseBacks(s, p.next, p.node);
      if !Peek(s, b.next, ";") then Done(b.node, Skip(s, b.next))
      else
        var r := ParseLine(s, GetToken(s, b.next).next);
        if r.Panic? then r else Done(List(b.node, r.node), r.next)
  }

  function ParseCmd(s: string): (r: Parsed)
    requires Text(s)
    ensures r.Done? ==> r.next == |s| && NodeOk(s, r.node)
  {
    var r := ParseLine(s, 0);
    if r.Panic? then r
    else if Skip(s, r.next) != |s| then Panic("syntax")
    else r.(next := |s|)
  }
}
