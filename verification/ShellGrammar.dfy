/** Parsing the printed text of a command tree gives the tree, phrase by phrase. */
module ShellGrammar {
  import opened ShellSyntax
  import opened ShellRoundTrip

  function Size(c: Cmd): nat {
    match c
    case Exec(_) => 0
    case Redir(cmd, _, _, _) => 1 + Size(cmd)
    case Pipe(left, right) => 1 + Size(left) + Size(right)
    case List(left, right) => 1 + Size(left) + Size(right)
    case Back(cmd) => 1 + Size(cmd)
  }

  lemma {:induction false} CoreSize(c: Cmd)
    ensures Size(Core(c)) <= Size(c) && (c.Redir? ==> Size(Core(c)) < Size(c))
  {
    if c.Redir? {
      CoreSize(c.cmd);
    }
  }

  /** r is a parse that has read text t at i and found c in it. */
  ghost predicate Found(s: string, i: nat, t: string, r: Parsed, c: Cmd) {
    r.Done? && r.next == i + |t| && NodeOk(s, r.node) && Words(s, r.node) == c
  }

  /** A symbol that peek looks for, and what follows it. */
  lemma AtSymbol(s: string, i: nat, c: char, rest: string, post: string)
    requires Text(s) && Reads(s, i, [c] + rest, post) && c in "(|)&;" && Tight(rest + post)
    ensures At(s, i) == c && Skip(s, i) == i && GetToken(s, i).next == i + 1 && Reads(s, i + 1, rest, post)
  {
    SymbolToken(s, i, c, rest, post);
    ReadsSplit(s, i, [c], rest, post);
    AtReads(s, i, [c] + rest, post);
  }

  /** A parenthesised line and the redirections after it. */
  lemma BlockRead(s: string, i: nat, c: Cmd, rs: seq<Redirection>, post: string)
    requires Text(s) && Reads(s, i, "(" + Body(c) + ")" + RedirText(rs), post) && Printable(c) && AllOk(rs) && Ends(post)
    requires Reads(s, i + 1, Body(c), ")" + RedirText(rs) + post) ==>
               Found(s, i + 1, Body(c), ParseLine(s, i + 1), c)
    ensures Found(s, i, "(" + Body(c) + ")" + RedirText(rs), ParseExec(s, i), Wrap(c, rs))
  {
    hide Reads, Skip, GetToken, Words, ParseRedirs, ParseLine, Body, RedirText, NodeOk;
    var b, t := Body(c), RedirText(rs);
    BlockTight(c, rs, post);
    Associates("(", b, ")" + t);
    Associates("(" + b, ")", t);
    AtSymbol(s, i, '(', b + (")" + t), post);
    ReadsSplit(s, i + 1, b, ")" + t, post);
    var r := ParseLine(s, i + 1);
    AtSymbol(s, r.next, ')', t, post);
    RedirsRead(s, r.next + 1, rs, r.node, post);
  }

  lemma BlockTight(c: Cmd, rs: seq<Redirection>, post: string)
    requires Printable(c) && Ends(post)
    ensures Tight(Body(c) + (")" + RedirText(rs)) + post) && Tight(RedirText(rs) + post)
  {
    RedirTight(rs, post);
    assert Tight(")" + RedirText(rs) + post);
    PrintTight(c, Line, ")" + RedirText(rs) + post);
    assert Print(c, Line) == Body(c);
    Associates(Body(c), ")" + RedirText(rs), post);
  }

  lemma EndsStop(s: string, i: nat, post: string)
    requires Text(s) && Reads(s, i, "", post) && Ends(post)
    ensures Skip(s, i) == i
    ensures EndsPipe(post) ==> !Peek(s, i, "|")
    ensures EndsLine(post) ==> !Peek(s, i, "&") && !Peek(s, i, ";") && !Peek(s, i, "|")
    ensures post != "" && post[0] == ';' ==> !Peek(s, i, "&")
  {
    AtEnd(s, i, post);
  }

  /** parseexec reads back what is printed where a unit is expected. */
  lemma {:induction false} UnitRead(s: string, i: nat, c: Cmd, post: string)
    requires Text(s) && Reads(s, i, Print(c, Unit), post) && Printable(c) && Ends(post)
    ensures Found(s, i, Print(c, Unit), ParseExec(s, i), c)
    decreases Size(c), if c.Exec? || c.Redir? then 0 else 5
  {
    hide Reads, ParseExec, ParseLine, Printable, RedirText, PrintArgs;
    UnitText(c);
    CoreSize(c);
    var k, rs := Core(c), Redirs(c);
    if k.Exec? {
      ExecFacts(k);
      SimpleRead(s, i, k.argv, rs, post);
      ExecOk(s, i);
    } else {
      if Reads(s, i + 1, Body(k), ")" + RedirText(rs) + post) {
        LineRead(s, i + 1, k, ")" + RedirText(rs) + post);
      }
      BlockRead(s, i, k, rs, post);
    }
  }

  lemma ExecFacts(k: Cmd)
    requires Printable(k) && k.Exec?
    ensures Print(k, Unit) == PrintArgs(k.argv) && |k.argv| < MAXARGS && forall j :: 0 <= j < |k.argv| ==> Word(k.argv[j])
  {}

  lemma ExecOk(s: string, i: nat)
    requires Text(s) && i <= |s|
    ensures ParseExec(s, i).Done? ==> NodeOk(s, ParseExec(s, i).node)
  {}

  lemma PipeText(c: Cmd, post: string)
    requires c.Pipe? && Printable(c) && EndsPipe(post)
    ensures Print(c, Pipeline) == Print(c.left, Unit) + ("|" + Print(c.right, Pipeline))
    ensures Tight(Print(c.right, Pipeline) + post)
  {
    PrintTight(c.right, Pipeline, post);
  }

  /** parsepipe reads back what is printed where a pipe is expected. */
  lemma {:induction false} PipeRead(s: string, i: nat, c: Cmd, post: string)
    requires Text(s) && Reads(s, i, Print(c, Pipeline), post) && Printable(c) && EndsPipe(post)
    ensures Found(s, i, Print(c, Pipeline), ParsePipe(s, i), c)
    decreases Size(c), if c.List? || c.Back? then 6 else 2
  {
    hide Reads, ParseExec, GetToken, Words, NodeOk, Print;
    if c.Pipe? {
      var t := Print(c.right, Pipeline);
      PipeText(c, post);
      ReadsSplit(s, i, Print(c.left, Unit), "|" + t, post);
      assert ("|" + t + post)[0] == '|';
      UnitRead(s, i, c.left, "|" + t + post);
      var l := ParseExec(s, i);
      AtSymbol(s, l.next, '|', t, post);
      PipeRead(s, l.next + 1, c.right, post);
      WordsPipe(s, l.node, ParsePipe(s, l.next + 1).node);
    } else {
      SameText(c);
      UnitRead(s, i, c, post);
      AtReads(s, i, Print(c, Unit), post);
      EndsStop(s, ParseExec(s, i).next, post);
    }
  }

  lemma WordsPipe(s: string, l: Node, r: Node)
    requires NodeOk(s, l) && NodeOk(s, r)
    ensures NodeOk(s, Node.Pipe(l, r)) && Words(s, Node.Pipe(l, r)) == Cmd.Pipe(Words(s, l), Words(s, r))
    ensures NodeOk(s, Node.List(l, r)) && Words(s, Node.List(l, r)) == Cmd.List(Words(s, l), Words(s, r))
    ensures NodeOk(s, Node.Back(l)) && Words(s, Node.Back(l)) == Cmd.Back(Words(s, l))
  {}

  lemma SameText(c: Cmd)
    ensures !c.Pipe? ==> Print(c, Pipeline) == Print(c, Unit)
    ensures !c.Back? ==> Print(c, Amp) == Print(c, Pipeline)
  {}

  /** parsepipe and the loop over & read back what is printed before a semicolon. */
  lemma {:induction false} AmpRead(s: string, i: nat, c: Cmd, post: string) returns (n: Node)
    requires Text(s) && Reads(s, i, Print(c, Amp), post) && Printable(c) && EndsPipe(post)
    ensures NodeOk(s, n) && Words(s, n) == c && i + |Print(c, Amp)| <= |s|
    ensures ParsePipe(s, i).Done?
    ensures ParseBacks(s, ParsePipe(s, i).next, ParsePipe(s, i).node) == ParseBacks(s, i + |Print(c, Amp)|, n)
    decreases Size(c), if c.List? then 7 else 3
  {
    hide Reads, ParsePipe, ParseBacks, GetToken, Words, NodeOk, Print, Skip;
    AtReads(s, i, Print(c, Amp), post);
    if c.Back? {
      BackText(c, post);
      ReadsSplit(s, i, Print(c.cmd, Amp), "&", post);
      assert ("&" + post)[0] == '&';
      var d := AmpRead(s, i, c.cmd, "&" + post);
      var j := i + |Print(c.cmd, Amp)|;
      assert "&" == ['&'] + "";
      AtSymbol(s, j, '&', "", post);
      BacksStep(s, j, d);
      n := Node.Back(d);
      WordsPipe(s, d, d);
    } else {
      SameText(c);
      PipeRead(s, i, c, post);
      n := ParsePipe(s, i).node;
    }
  }

  lemma BacksStep(s: string, j: nat, d: Node)
    requires Text(s) && j <= |s| && Skip(s, j) == j && At(s, j) == '&' && GetToken(s, j).next == j + 1
    ensures ParseBacks(s, j, d) == ParseBacks(s, j + 1, Node.Back(d))
  {}

  /** parseline once the loop over & has read n up to j. */
  lemma LineStep(s: string, i: nat, j: nat, n: Node)
    requires Text(s) && i <= |s| && j <= |s| && ParsePipe(s, i).Done?
    requires ParseBacks(s, ParsePipe(s, i).next, ParsePipe(s, i).node) == ParseBacks(s, j, n)
    requires Skip(s, j) == j && !Peek(s, j, "&")
    ensures !Peek(s, j, ";") ==> ParseLine(s, i) == Done(n, j)
    ensures Peek(s, j, ";") && GetToken(s, j).next == j + 1 ==>
              ParseLine(s, i) == var r := ParseLine(s, j + 1); if r.Panic? then r else Done(Node.List(n, r.node), r.next)
  {}

  lemma BackText(c: Cmd, post: string)
    requires c.Back? && EndsPipe(post)
    ensures Print(c, Amp) == Print(c.cmd, Amp) + "&" && Tight("" + post)
  {
    assert "" + post == post;
  }

  lemma ListText(c: Cmd, post: string)
    requires c.List? && Printable(c) && EndsLine(post)
    ensures Body(c) == Print(c.left, Amp) + (";" + Body(c.right)) && Tight(Body(c.right) + post)
  {
    assert Print(c.right, Line) == Body(c.right);
    PrintTight(c.right, Line, post);
  }

  /** parseline reads back what is printed as a line. */
  lemma {:induction false} LineRead(s: string, i: nat, c: Cmd, post: string)
    requires Text(s) && Reads(s, i, Body(c), post) && Printable(c) && EndsLine(post)
    ensures Found(s, i, Body(c), ParseLine(s, i), c)
    decreases Size(c), 4
  {
    hide Reads, ParsePipe, ParseBacks, ParseLine, GetToken, Words, NodeOk, Print, Body, Skip;
    if c.List? {
      var t := Body(c.right);
      ListText(c, post);
      ReadsSplit(s, i, Print(c.left, Amp), ";" + t, post);
      assert (";" + t + post)[0] == ';';
      var n := AmpRead(s, i, c.left, ";" + t + post);
      var j := i + |Print(c.left, Amp)|;
      AtSymbol(s, j, ';', t, post);
      LineRead(s, j + 1, c.right, post);
      LineStep(s, i, j, n);
      WordsPipe(s, n, ParseLine(s, j + 1).node);
    } else {
      BodyText(c);
      var n := AmpRead(s, i, c, post);
      AtReads(s, i, Print(c, Amp), post);
      EndsStop(s, i + |Print(c, Amp)|, post);
      LineStep(s, i, i + |Print(c, Amp)|, n);
    }
  }

  lemma BodyText(c: Cmd)
    requires !c.List?
    ensures Body(c) == Print(c, Amp)
  {}

  // ----------------------------------------------------------- main results

  lemma {:induction false} PrintedText(c: Cmd, v: Level)
    requires Printable(c)
    ensures Text(Print(c, v))
    decreases c
  {
    match c
    case Exec(argv) => ArgsAreText(argv);
    case Redir(cmd, file, mode, fd) => PrintedText(cmd, Unit);
    case Pipe(left, right) => PrintedText(left, Unit); PrintedText(right, Pipeline);
    case List(left, right) => PrintedText(left, Amp); PrintedText(right, Line);
    case Back(cmd) => PrintedText(cmd, Amp);
  }

  lemma {:induction false} ArgsAreText(argv: seq<string>)
    requires forall k :: 0 <= k < |argv| ==> Word(argv[k])
    ensures Text(PrintArgs(argv))
    decreases |argv|
  {
    if argv != [] {
      ArgsAreText(argv[1..]);
      assert Word(argv[0]);
    }
  }

  /** Every tree the shell can represent, printed and parsed, comes back. */
  lemma RoundTrip(c: Cmd)
    requires Printable(c)
    ensures var s := Body(c);
            Text(s) && ParseCmd(s).Done? && Words(s, ParseCmd(s).node) == c
  {
    PrintedText(c, Line);
    var s := Body(c);
    assert s[0..] == s + "";
    LineRead(s, 0, c, "");
  }

  lemma {:induction false} ParsedPrintable(s: string, n: Node)
    requires NodeOk(s, n)
    ensures Printable(Words(s, n))
    decreases n
  {
    match n
    case Exec(_) =>
    case Redir(cmd, _, _, _) => ParsedPrintable(s, cmd);
    case Pipe(left, right) => ParsedPrintable(s, left); ParsedPrintable(s, right);
    case List(left, right) => ParsedPrintable(s, left); ParsedPrintable(s, right);
    case Back(cmd) => ParsedPrintable(s, cmd);
  }

  /** Every line the shell accepts means a tree it can represent, so that printing it and parsing
      that gives the same tree: the printed text is the line with what is optional left out. */
  lemma AcceptedLines(s: string)
    requires Text(s) && ParseCmd(s).Done?
    ensures var c := Words(s, ParseCmd(s).node);
            Printable(c) && Text(Body(c)) && ParseCmd(Body(c)).Done? && Words(Body(c), ParseCmd(Body(c)).node) == c
  {
    ParsedPrintable(s, ParseCmd(s).node);
    RoundTrip(Words(s, ParseCmd(s).node));
  }
}
