/** The printer leaves out every parenthesis that can be left out: no text that means the same tree
    has fewer. */
module ShellMinimal {
  import opened ShellSyntax
  import opened ShellRoundTrip
  import opened ShellGrammar

  /** How many parentheses a text opens. */
  function Opens(t: string): nat {
    if t == "" then 0 else Opens(t[..|t| - 1]) + if t[|t| - 1] == '(' then 1 else 0
  }

  lemma {:induction false} OpensJoin(a: string, b: string)
    ensures Opens(a + b) == Opens(a) + Opens(b)
    decreases |b|
  {
    if b == "" {
      assert a + b == a;
    } else {
      assert (a + b)[..|a + b| - 1] == a + b[..|b| - 1];
      OpensJoin(a, b[..|b| - 1]);
    }
  }

  lemma OpensOne(c: char)
    ensures Opens([c]) == if c == '(' then 1 else 0
  {
    assert [c][..0] == "";
  }

  /** The parentheses that the grammar forces on c where a phrase of level v is expected. */
  function Forced(c: Cmd, v: Level): nat
    decreases c, 1
  {
    Inside(c) + if Rank(LevelOf(c)) < Rank(v) then 1 else 0
  }

  function Inside(c: Cmd): nat
    decreases c, 0
  {
    match c
    case Exec(_) => 0
    case Redir(cmd, _, _, _) => Forced(cmd, Unit)
    case Pipe(left, right) => Forced(left, Unit) + Forced(right, Pipeline)
    case List(left, right) => Forced(left, Amp) + Forced(right, Line)
    case Back(cmd) => Forced(cmd, Amp)
  }

  // -------------------------------------------------- what the printer prints

  lemma {:induction false} WordOpens(w: string)
    requires forall k :: 0 <= k < |w| ==> WordChar(w[k])
    ensures Opens(w) == 0
    decreases |w|
  {
    if w != "" {
      assert WordChar(w[|w| - 1]);
      WordOpens(w[..|w| - 1]);
    }
  }

  lemma {:induction false} ArgsOpen(argv: seq<string>)
    requires forall k :: 0 <= k < |argv| ==> Word(argv[k])
    ensures Opens(PrintArgs(argv)) == 0
    decreases |argv|
  {
    if argv != [] {
      assert Word(argv[0]);
      WordOpens(argv[0]);
      OpensOne(' ');
      OpensJoin(argv[0], " ");
      OpensJoin(argv[0] + " ", PrintArgs(argv[1..]));
      ArgsOpen(argv[1..]);
    }
  }

  lemma Opens3(a: string, c: char, b: string)
    ensures Opens(a + [c] + b) == Opens(a) + (if c == '(' then 1 else 0) + Opens(b)
  {
    OpensJoin(a + [c], b);
    OpensJoin(a, [c]);
    OpensOne(c);
  }

  lemma {:induction false} BodyOpens(c: Cmd)
    requires Printable(c)
    ensures Opens(Body(c)) == Inside(c)
    decreases c, 0
  {
    match c
    case Exec(argv) => ArgsOpen(argv);
    case Redir(cmd, file, mode, fd) =>
      PrintOpens(cmd, Unit);
      WordOpens(file);
      Opens3(Print(cmd, Unit), if fd == 0 then '<' else '>', file);
      OpensOne(' ');
      OpensJoin(Print(cmd, Unit) + (if fd == 0 then "<" else ">") + file, " ");
    case Pipe(left, right) =>
      PrintOpens(left, Unit);
      PrintOpens(right, Pipeline);
      Opens3(Print(left, Unit), '|', Print(right, Pipeline));
    case List(left, right) =>
      PrintOpens(left, Amp);
      PrintOpens(right, Line);
      Opens3(Print(left, Amp), ';', Print(right, Line));
    case Back(cmd) =>
      PrintOpens(cmd, Amp);
      OpensOne('&');
      OpensJoin(Print(cmd, Amp), "&");
  }

  lemma {:induction false} PrintOpens(c: Cmd, v: Level)
    requires Printable(c)
    ensures Opens(Print(c, v)) == Forced(c, v)
    decreases c, 1
  {
    BodyOpens(c);
    if Rank(LevelOf(c)) < Rank(v) {
      OpensOne('(');
      OpensOne(')');
      OpensJoin("(", Body(c));
      OpensJoin("(" + Body(c), ")");
    }
  }

  // ------------------------------------------- what any text that parses has

  /** The parentheses opened from one position up to another. */
  function Between(s: string, i: nat, j: nat): nat
    requires i <= j <= |s|
  {
    Opens(s[i..j])
  }

  lemma Across(s: string, i: nat, j: nat, k: nat)
    requires i <= j <= k <= |s|
    ensures Between(s, i, k) == Between(s, i, j) + Between(s, j, k)
  {
    assert s[i..k] == s[i..j] + s[j..k];
    OpensJoin(s[i..j], s[j..k]);
  }

  lemma BlockOpens(s: string, i: nat, j: nat)
    requires i < j <= |s| && s[i] == '('
    ensures Between(s, i, j) >= 1
  {
    Across(s, i, i + 1, j);
    assert s[i..i + 1] == ['('];
    OpensOne('(');
  }

  /** Redirections wrap what they follow. */
  lemma {:induction false} RedirsForce(s: string, i: nat, n: Node)
    requires Text(s) && i <= |s| && NodeOk(s, n) && ParseRedirs(s, i, n).Done?
    ensures NodeOk(s, ParseRedirs(s, i, n).node)
    ensures Forced(Words(s, ParseRedirs(s, i, n).node), Unit) == Forced(Words(s, n), Unit)
    decreases |s| - i
  {
    if Peek(s, i, "<>") {
      PeekToken(s, i, "<>");
      var op := GetToken(s, i);
      var file := GetToken(s, op.next);
      var n' := MakeRedir(n, op.tok, file.span);
      MakeWords(s, n, op.tok, file.span);
      RedirsForce(s, file.next, n');
    }
  }

  /** A command with its redirections forces none. */
  lemma {:induction false} SimpleForces(s: string, n: Node)
    requires NodeOk(s, n) && Simple(n)
    ensures Forced(Words(s, n), Unit) == 0
  {
    if n.Redir? {
      SimpleForces(s, n.cmd);
    }
  }

  lemma {:induction false} ArgsSimple(s: string, i: nat, ret: Node)
    requires Text(s) && i <= |s| && Simple(ret) && ArgCount(ret) < MAXARGS && ParseArgs(s, i, ret).Done?
    ensures Simple(ParseArgs(s, i, ret).node)
    decreases |s| - i
  {
    var t := GetToken(s, i);
    if !Peek(s, i, "|)&;") && t.tok != '\0' {
      var r := ParseRedirs(s, t.next, AddArg(ret, t.span));
      ArgsSimple(s, r.next, r.node);
    }
  }

  /** What a phrase of a level opens is at least what its tree forces there. */
  ghost predicate Enough(s: string, i: nat, r: Parsed, v: Level)
    requires i <= |s|
  {
    r.Done? ==> i <= r.next <= |s| && NodeOk(s, r.node) && Between(s, i, r.next) >= Forced(Words(s, r.node), v)
  }

  lemma EnoughBelow(s: string, i: nat, r: Parsed, v: Level, u: Level)
    requires i <= |s| && Enough(s, i, r, v) && Rank(u) <= Rank(v)
    ensures Enough(s, i, r, u)
  {}

  lemma {:induction false} UnitEnough(s: string, i: nat)
    requires Text(s) && i <= |s|
    ensures Enough(s, i, ParseExec(s, i), Unit)
    decreases |s| - i, 2
  {
    hide Between, Forced, Words, NodeOk, GetToken;
    if Peek(s, i, "(") {
      BlockEnough(s, i);
    } else if ParseExec(s, i).Done? {
      var r := ParseRedirs(s, i, Node.Exec([]));
      EmptyOk(s);
      ArgsSimple(s, r.next, r.node);
      SimpleForces(s, ParseExec(s, i).node);
    }
  }

  lemma EmptyOk(s: string)
    ensures NodeOk(s, Node.Exec([])) && Simple(Node.Exec([])) && ArgCount(Node.Exec([])) == 0
  {}

  /** The parts of a parenthesised line: where it opens, what is inside, and what follows. */
  lemma BlockParts(s: string, i: nat) returns (a: nat, r: Parsed, b: nat)
    requires Text(s) && i <= |s| && Peek(s, i, "(") && ParseExec(s, i).Done?
    ensures i <= Skip(s, i) < a <= |s| && s[Skip(s, i)] == '(' && r == ParseLine(s, a) && r.Done? && r.next <= b <= |s|
    ensures ParseExec(s, i) == ParseRedirs(s, b, r.node)
  {
    hide ParseLine, ParseRedirs, NodeOk;
    SkipTwice(s, i);
    PeekToken(s, Skip(s, i), "(");
    a := GetToken(s, Skip(s, i)).next;
    r := ParseLine(s, a);
    b := GetToken(s, r.next).next;
  }

  lemma {:induction false} BlockEnough(s: string, i: nat)
    requires Text(s) && i <= |s| && Peek(s, i, "(")
    ensures Enough(s, i, ParseExec(s, i), Unit)
    decreases |s| - i, 1
  {
    hide Between, Forced, Words, NodeOk, ParseExec, ParseLine, ParseRedirs, Peek, Skip;
    if ParseExec(s, i).Done? {
      var a, r, b := BlockParts(s, i);
      var q, e := Skip(s, i), ParseRedirs(s, b, r.node).next;
      LineEnough(s, a);
      RedirsForce(s, b, r.node);
      Across(s, i, a, e);
      Across(s, a, r.next, e);
      Across(s, i, q, a);
      BlockOpens(s, q, a);
      ForcedUnit(Words(s, r.node));
    }
  }

  lemma SkipTwice(s: string, i: nat)
    requires i <= |s| && Peek(s, i, "(")
    ensures var q := Skip(s, i); q < |s| && s[q] == '(' && Skip(s, q) == q && Peek(s, q, "(")
  {}

  lemma ForcedUnit(c: Cmd)
    ensures Forced(c, Unit) <= 1 + Forced(c, Line)
  {}

  lemma ForcedPair(a: Cmd, b: Cmd)
    ensures Forced(Cmd.Pipe(a, b), Pipeline) == Forced(a, Unit) + Forced(b, Pipeline)
    ensures Forced(Cmd.List(a, b), Line) == Forced(a, Amp) + Forced(b, Line)
  {}

  lemma {:induction false} PipeEnough(s: string, i: nat)
    requires Text(s) && i <= |s|
    ensures Enough(s, i, ParsePipe(s, i), Pipeline)
    decreases |s| - i, 3
  {
    hide Between, Words, NodeOk, GetToken, ParseExec, Forced;
    UnitEnough(s, i);
    var l := ParseExec(s, i);
    if ParsePipe(s, i).Done? {
      if Peek(s, l.next, "|") {
        PeekToken(s, l.next, "|");
        var a := GetToken(s, l.next).next;
        PipeEnough(s, a);
        var r := ParsePipe(s, a);
        Across(s, i, l.next, r.next);
        Across(s, l.next, a, r.next);
        WordsPipe(s, l.node, r.node);
        ForcedPair(Words(s, l.node), Words(s, r.node));
      } else {
        Across(s, i, l.next, Skip(s, l.next));
        EnoughBelow(s, i, l, Unit, Pipeline);
      }
    }
  }

  lemma {:induction false} BacksForce(s: string, i: nat, n: Node)
    requires Text(s) && i <= |s| && NodeOk(s, n)
    ensures var r := ParseBacks(s, i, n); NodeOk(s, r.node) && Forced(Words(s, r.node), Amp) == Forced(Words(s, n), Amp)
    decreases |s| - i
  {
    if Peek(s, i, "&") {
      PeekToken(s, i, "&");
      WordsPipe(s, n, n);
      BacksForce(s, GetToken(s, i).next, Node.Back(n));
    }
  }

  lemma {:induction false} LineEnough(s: string, i: nat)
    requires Text(s) && i <= |s|
    ensures Enough(s, i, ParseLine(s, i), Line)
    decreases |s| - i, 4
  {
    hide Between, Words, NodeOk, GetToken, ParsePipe, ParseBacks, Forced;
    PipeEnough(s, i);
    var p := ParsePipe(s, i);
    if ParseLine(s, i).Done? {
      EnoughBelow(s, i, p, Pipeline, Amp);
      var b := ParseBacks(s, p.next, p.node);
      BacksForce(s, p.next, p.node);
      Across(s, i, p.next, b.next);
      if Peek(s, b.next, ";") {
        PeekToken(s, b.next, ";");
        var a := GetToken(s, b.next).next;
        LineEnough(s, a);
        var r := ParseLine(s, a);
        Across(s, i, b.next, r.next);
        Across(s, b.next, a, r.next);
        WordsPipe(s, b.node, r.node);
        ForcedPair(Words(s, b.node), Words(s, r.node));
      } else {
        Across(s, i, b.next, Skip(s, b.next));
        assert Enough(s, i, Done(b.node, Skip(s, b.next)), Amp);
        EnoughBelow(s, i, Done(b.node, Skip(s, b.next)), Amp, Line);
      }
    }
  }

  /** Of all the lines that the shell reads as some tree, the printed one opens the fewest parentheses. */
  lemma FewestParentheses(s: string)
    requires Text(s) && ParseCmd(s).Done?
    ensures Opens(Body(Words(s, ParseCmd(s).node))) <= Opens(s)
  {
    hide Words, NodeOk, Body;
    LineEnough(s, 0);
    var r := ParseLine(s, 0);
    var c := Words(s, r.node);
    ParsedPrintable(s, r.node);
    BodyOpens(c);
    Across(s, 0, r.next, |s|);
    assert s[0..|s|] == s;
  }
}
