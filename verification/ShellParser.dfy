/** sh.c's parser as it runs: a cursor moved through the input buffer by mutually recursive methods,
    and NULs stored into the buffer when the line has been parsed. */
module ShellParser {
  import opened ShellSyntax
  import opened ShellRoundTrip
  import ShellWords

  /** The string that starts at q, as C reads it. */
  function CString(b: seq<char>, q: nat): string
    requires q <= |b|
    decreases |b| - q
  {
    if q < |b| && b[q] != '\0' then [b[q]] + CString(b, q + 1) else ""
  }

  /** sp is one of the words of the tree. */
  ghost predicate HasSpan(n: Node, sp: Span) {
    match n
    case Exec(args) => sp in args
    case Redir(cmd, file, _, _) => sp == file || HasSpan(cmd, sp)
    case Pipe(left, right) => HasSpan(left, sp) || HasSpan(right, sp)
    case List(left, right) => HasSpan(left, sp) || HasSpan(right, sp)
    case Back(cmd) => HasSpan(cmd, sp)
  }

  /** Some word of the tree ends just before k. */
  predicate EndsAt(n: Node, k: int) {
    match n
    case Exec(args) => exists j :: 0 <= j < |args| && args[j].eq == k
    case Redir(cmd, file, _, _) => file.eq == k || EndsAt(cmd, k)
    case Pipe(left, right) => EndsAt(left, k) || EndsAt(right, k)
    case List(left, right) => EndsAt(left, k) || EndsAt(right, k)
    case Back(cmd) => EndsAt(cmd, k)
  }

  ghost predicate Terminated(s: string, b: seq<char>, n: Node) {
    |b| == |s| + 1 && forall k :: 0 <= k <= |s| ==> b[k] == if EndsAt(n, k) then '\0' else At(s, k)
  }

  lemma {:induction false} EndsOutside(s: string, n: Node, k: int)
    requires NodeOk(s, n) && EndsAt(n, k)
    ensures 0 <= k <= |s| && !WordChar(At(s, k))
    decreases n
  {
    match n
    case Exec(_) =>
    case Redir(cmd, file, _, _) => if file.eq != k { EndsOutside(s, cmd, k); }
    case Pipe(left, right) => if EndsAt(left, k) { EndsOutside(s, left, k); } else { EndsOutside(s, right, k); }
    case List(left, right) => if EndsAt(left, k) { EndsOutside(s, left, k); } else { EndsOutside(s, right, k); }
    case Back(cmd) => EndsOutside(s, cmd, k);
  }

  lemma {:induction false} SpanEnds(s: string, n: Node, sp: Span)
    requires NodeOk(s, n) && HasSpan(n, sp)
    ensures IsWord(s, sp) && EndsAt(n, sp.eq)
    decreases n
  {
    match n
    case Exec(_) =>
    case Redir(cmd, file, _, _) => if file != sp { SpanEnds(s, cmd, sp); }
    case Pipe(left, right) => if HasSpan(left, sp) { SpanEnds(s, left, sp); } else { SpanEnds(s, right, sp); }
    case List(left, right) => if HasSpan(left, sp) { SpanEnds(s, left, sp); } else { SpanEnds(s, right, sp); }
    case Back(cmd) => SpanEnds(s, cmd, sp);
  }

  lemma {:induction false} CStringIs(b: seq<char>, q: nat, e: nat, w: string)
    requires q <= e < |b| && b[q..e] == w && b[e] == '\0' && forall k :: q <= k < e ==> b[k] != '\0'
    ensures CString(b, q) == w
    decreases e - q
  {
    if q < e {
      assert b[q..e] == [b[q]] + b[q + 1..e];
      CStringIs(b, q + 1, e, b[q + 1..e]);
    }
  }

  /** Once the NULs are in place each argument and file name reads back as exactly its word. */
  lemma ReadsBack(s: string, b: seq<char>, n: Node, sp: Span)
    requires NodeOk(s, n) && HasSpan(n, sp) && Terminated(s, b, n)
    ensures sp.q < sp.eq <= |s| && CString(b, sp.q) == s[sp.q..sp.eq]
  {
    SpanEnds(s, n, sp);
    forall k | sp.q <= k < sp.eq ensures b[k] == s[k] != '\0' {
      if EndsAt(n, k) {
        EndsOutside(s, n, k);
        assert false;
      }
    }
    CStringIs(b, sp.q, sp.eq, s[sp.q..sp.eq]);
  }

  lemma SkipTwice(s: string, i: nat)
    requires i <= |s|
    ensures Skip(s, Skip(s, i)) == Skip(s, i)
  {}

  class Shell {
    const buf: array<char>
    ghost const s: string
    var ps: nat

    ghost predicate Unparsed()
      reads buf
    {
      Text(s) && buf.Length == |s| + 1 && forall k :: 0 <= k <= |s| ==> buf[k] == At(s, k)
    }

    ghost predicate Valid()
      reads this`ps, buf
    {
      Unparsed() && ps <= |s|
    }

    constructor (buf: array<char>, ghost s: string)
      requires Text(s) && buf.Length == |s| + 1 && forall k :: 0 <= k <= |s| ==> buf[k] == At(s, k)
      ensures Valid() && this.buf == buf && this.s == s && ps == 0
    {
      this.buf, this.s, this.ps := buf, s, 0;
    }

    function Es(): nat
      reads buf
      requires buf.Length > 0
    {
      buf.Length - 1
    }

    /** The loop over white space that gettoken runs twice and peek once. */
    method SkipFrom(i: nat) returns (k: nat)
      requires Unparsed() && i <= |s|
      ensures k == Skip(s, i)
    {
      k := i;
      while k < Es() && Space(buf[k])
        invariant k <= |s| && Skip(s, k) == Skip(s, i)
        decreases |s| - k
      {
        k := k + 1;
      }
    }

    method GetToken() returns (tok: char, q: nat, eq: nat)
      requires Valid()
      modifies this`ps
      ensures Valid() && ShellSyntax.GetToken(s, old(ps)) == Token(tok, Span(q, eq), ps)
    {
      hide Skip, WordEnd, Text;
      var k := SkipFrom(ps);
      q := k;
      tok := buf[k];
      if buf[k] == '\0' {
      } else if buf[k] in "|();&<" {
        k := k + 1;
      } else if buf[k] == '>' {
        k := k + 1;
        if buf[k] == '>' {
          tok := '+';
          k := k + 1;
        }
      } else {
        tok := 'a';
        k := WordFrom(k);
      }
      eq := k;
      ps := SkipFrom(k);
    }

    /** gettoken's loop over a word. */
    method WordFrom(q: nat) returns (k: nat)
      requires Valid() && q <= |s|
      ensures k == WordEnd(s, q)
    {
      k := q;
      while k < Es() && !Space(buf[k]) && !Symbol(buf[k])
        invariant q <= k <= |s| && WordEnd(s, k) == WordEnd(s, q)
        decreases |s| - k
      {
        k := k + 1;
      }
    }

    method Peek(toks: string) returns (found: bool)
      requires Valid()
      modifies this`ps
      ensures Valid() && ps == Skip(s, old(ps)) && found == ShellSyntax.Peek(s, old(ps), toks)
      ensures ShellSyntax.GetToken(s, ps) == ShellSyntax.GetToken(s, old(ps)) && found == ShellSyntax.Peek(s, ps, toks)
    {
      SkipTwice(s, ps);
      ps := SkipFrom(ps);
      found := buf[ps] != '\0' && buf[ps] in toks;
    }

    method ParseRedirs(cmd0: Node) returns (ok: bool, cmd: Node)
      requires Valid()
      modifies this`ps
      ensures Valid() && var r := ShellSyntax.ParseRedirs(s, old(ps), cmd0); ok == r.Done? && (ok ==> r == Done(cmd, ps))
    {
      hide ShellSyntax.GetToken, ShellSyntax.Peek, Skip, NodeOk;
      cmd, ok := cmd0, true;
      var more := Peek("<>");
      RedirsSkip(s, old(ps), cmd0);
      while ok && more
        invariant Valid()
        invariant ok ==> more == ShellSyntax.Peek(s, ps, "<>") && ps == Skip(s, ps)
        invariant if ok then ShellSyntax.ParseRedirs(s, ps, cmd) == ShellSyntax.ParseRedirs(s, old(ps), cmd0)
                  else ShellSyntax.ParseRedirs(s, old(ps), cmd0).Panic?
        decreases |s| - ps, ok
      {
        ok, cmd := ParseRedir(cmd);
        RedirsSkip(s, ps, cmd);
        more := Peek("<>");
        SkipTwice(s, ps);
      }
    }

    lemma RedirsSkip(s: string, i: nat, n: Node)
      requires Text(s) && i <= |s|
      ensures ShellSyntax.ParseRedirs(s, Skip(s, i), n) == ShellSyntax.ParseRedirs(s, i, n) && Skip(s, Skip(s, i)) == Skip(s, i)
    {
      SkipTwice(s, i);
    }

    /** The body of parseredirs's loop. */
    method ParseRedir(cmd0: Node) returns (ok: bool, cmd: Node)
      requires Valid() && ShellSyntax.Peek(s, ps, "<>")
      modifies this`ps
      ensures Valid() && ps > old(ps)
      ensures ShellSyntax.ParseRedirs(s, old(ps), cmd0) ==
              if ok then ShellSyntax.ParseRedirs(s, ps, cmd) else Panic("missing file for redirection")
    {
      hide TokenEnd, WordEnd, NodeOk;
      cmd := cmd0;
      PeekToken(s, ps, "<>");
      var tok, q, eq := GetToken();
      var tok2;
      tok2, q, eq := GetToken();
      if tok2 != 'a' {
        return false, cmd;
      }
      if tok == '<' {
        cmd := Node.Redir(cmd, Span(q, eq), O_RDONLY, 0);
      } else if tok == '>' {
        cmd := Node.Redir(cmd, Span(q, eq), O_WRONLY + O_CREATE, 1);
      } else if tok == '+' {
        cmd := Node.Redir(cmd, Span(q, eq), O_WRONLY + O_CREATE, 1);
      }
      return true, cmd;
    }

    method ParseBlock() returns (ok: bool, cmd: Node)
      requires Valid() && ShellSyntax.Peek(s, ps, "(")
      modifies this`ps
      ensures Valid() && var r := ShellSyntax.ParseBlock(s, old(ps)); ok == r.Done? && (ok ==> r == Done(cmd, ps))
      decreases |s| - ps, 1
    {
      PeekToken(s, ps, "(");
      var found := Peek("(");
      if !found {
        return false, Node.Exec([]);
      }
      var tok, q, eq := GetToken();
      ok, cmd := ParseLine();
      if !ok {
        return;
      }
      found := Peek(")");
      if !found {
        return false, cmd;
      }
      tok, q, eq := GetToken();
      ok, cmd := ParseRedirs(cmd);
    }

    method ParseExec() returns (ok: bool, ret: Node)
      requires Valid()
      modifies this`ps
      ensures Valid() && var r := ShellSyntax.ParseExec(s, old(ps)); ok == r.Done? && (ok ==> r == Done(ret, ps))
      decreases |s| - ps, 2
    {
      var found := Peek("(");
      if found {
        ok, ret := ParseBlock();
        return;
      }
      RedirsSkip(s, old(ps), Node.Exec([]));
      ok, ret := ParseRedirs(Node.Exec([]));
      if ok {
        ok, ret := ParseArgs(ret);
      }
    }

    /** parseexec's loop. */
    method ParseArgs(ret0: Node) returns (ok: bool, ret: Node)
      requires Valid() && Simple(ret0) && ArgCount(ret0) < MAXARGS
      modifies this`ps
      ensures Valid() && var r := ShellSyntax.ParseArgs(s, old(ps), ret0); ok == r.Done? && (ok ==> r == Done(ret, ps))
    {
      hide ShellSyntax.GetToken, ShellSyntax.Peek, Skip, NodeOk, Simple, ArgCount;
      ret, ok := ret0, true;
      var argc := ArgCount(ret);
      var end := false;
      var stop := Peek("|)&;");
      ArgsSkip(s, old(ps), ret0);
      while ok && !end && !stop
        invariant Valid()
        invariant ok ==> Simple(ret) && argc == ArgCount(ret) < MAXARGS && ps == Skip(s, ps) && stop == ShellSyntax.Peek(s, ps, "|)&;")
        invariant if !ok then ShellSyntax.ParseArgs(s, old(ps), ret0).Panic?
                  else if end then ShellSyntax.ParseArgs(s, old(ps), ret0) == Done(ret, ps)
                  else ShellSyntax.ParseArgs(s, ps, ret) == ShellSyntax.ParseArgs(s, old(ps), ret0)
        decreases ok, |s| - ps, !end
      {
        ok, end, ret := ParseArg(ret, argc);
        if ok && !end {
          argc := argc + 1;
          ArgsSkip(s, ps, ret);
        }
        SkipTwice(s, ps);
        stop := Peek("|)&;");
      }
    }

    lemma ArgsSkip(s: string, i: nat, n: Node)
      requires Text(s) && i <= |s| && Simple(n) && ArgCount(n) < MAXARGS
      ensures ShellSyntax.ParseArgs(s, Skip(s, i), n) == ShellSyntax.ParseArgs(s, i, n) && Skip(s, Skip(s, i)) == Skip(s, i)
    {
      SkipTwice(s, i);
    }

    /** The body of parseexec's loop; end is its break. */
    method ParseArg(ret0: Node, argc: nat) returns (ok: bool, end: bool, ret: Node)
      requires Valid() && Simple(ret0) && argc == ArgCount(ret0) < MAXARGS && !ShellSyntax.Peek(s, ps, "|)&;")
      modifies this`ps
      ensures Valid() && (ok ==> ps >= old(ps))
      ensures !ok ==> ShellSyntax.ParseArgs(s, old(ps), ret0).Panic?
      ensures ok && end ==> ret == ret0 && ps == Skip(s, ps) && ShellSyntax.ParseArgs(s, old(ps), ret0) == Done(ret, ps)
      ensures ok && !end ==> ps > old(ps) && Simple(ret) && ArgCount(ret) == argc + 1 < MAXARGS
                             && ShellSyntax.ParseArgs(s, old(ps), ret0) == ShellSyntax.ParseArgs(s, ps, ret)
    {
      hide TokenEnd, WordEnd, NodeOk, ShellSyntax.ParseRedirs, AddArg;
      var tok, q, eq := GetToken();
      if tok == '\0' {
        SkipTwice(s, eq);
        return true, true, ret0;
      }
      if tok != 'a' || argc + 1 >= MAXARGS {
        return false, false, ret0;
      }
      ret := AddArg(ret0, Span(q, eq));
      end := false;
      ok, ret := ParseRedirs(ret);
    }

    method ParsePipe() returns (ok: bool, cmd: Node)
      requires Valid()
      modifies this`ps
      ensures Valid() && var r := ShellSyntax.ParsePipe(s, old(ps)); ok == r.Done? && (ok ==> r == Done(cmd, ps))
      decreases |s| - ps, 3
    {
      ok, cmd := ParseExec();
      if !ok {
        return;
      }
      var found := Peek("|");
      if found {
        PeekToken(s, ps, "|");
        var tok, q, eq := GetToken();
        var right;
        ok, right := ParsePipe();
        cmd := Node.Pipe(cmd, right);
      }
    }

    method ParseLine() returns (ok: bool, cmd: Node)
      requires Valid()
      modifies this`ps
      ensures Valid() && var r := ShellSyntax.ParseLine(s, old(ps)); ok == r.Done? && (ok ==> r == Done(cmd, ps))
      decreases |s| - ps, 4
    {
      ok, cmd := ParsePipe();
      if !ok {
        return;
      }
      cmd := ParseBacks(cmd);
      var found := Peek(";");
      if found {
        PeekToken(s, ps, ";");
        var tok, q, eq := GetToken();
        var right;
        ok, right := ParseLine();
        cmd := Node.List(cmd, right);
      }
    }

    /** parseline's loop. */
    method ParseBacks(cmd0: Node) returns (cmd: Node)
      requires Valid()
      modifies this`ps
      ensures Valid() && ShellSyntax.ParseBacks(s, old(ps), cmd0) == Done(cmd, ps)
    {
      cmd := cmd0;
      var more := Peek("&");
      while more
        invariant Valid() && more == ShellSyntax.Peek(s, ps, "&") && ps == Skip(s, ps)
        invariant ShellSyntax.ParseBacks(s, ps, cmd) == ShellSyntax.ParseBacks(s, old(ps), cmd0)
        decreases |s| - ps
      {
        PeekToken(s, ps, "&");
        var tok, q, eq := GetToken();
        cmd := Node.Back(cmd);
        SkipTwice(s, ps);
        more := Peek("&");
      }
    }

    /** The NUL after each word of the tree, and no other change. */
    method NulTerminate(cmd: Node)
      requires NodeOk(s, cmd) && buf.Length == |s| + 1
      modifies buf
      ensures forall k :: 0 <= k <= |s| ==> buf[k] == if EndsAt(cmd, k) then '\0' else old(buf[k])
      decreases cmd
    {
      match cmd {
        case Exec(args) =>
          var i := 0;
          while i < |args|
            invariant 0 <= i <= |args|
            invariant forall k :: 0 <= k <= |s| ==> buf[k] == if exists j :: 0 <= j < i && args[j].eq == k then '\0' else old(buf[k])
          {
            assert IsWord(s, args[i]);
            buf[args[i].eq] := '\0';
            i := i + 1;
          }
        case Redir(sub, file, _, _) =>
          NulTerminate(sub);
          buf[file.eq] := '\0';
        case Pipe(left, right) =>
          NulTerminate(left);
          NulTerminate(right);
        case List(left, right) =>
          NulTerminate(left);
          NulTerminate(right);
        case Back(sub) =>
          NulTerminate(sub);
      }
    }

    /** A line accepted means the tree the grammar gives it, every word of which now ends in a NUL;
        a line refused leaves the buffer alone. */
    method ParseCmd() returns (ok: bool, cmd: Node)
      requires Valid() && ps == 0
      modifies this`ps, buf
      ensures ok == ShellSyntax.ParseCmd(s).Done?
      ensures ok ==> cmd == ShellSyntax.ParseCmd(s).node && NodeOk(s, cmd) && buf.Length == |s| + 1
      ensures ok ==> forall sp :: HasSpan(cmd, sp) ==> sp.q < sp.eq <= |s| && CString(buf[..], sp.q) == s[sp.q..sp.eq]
      ensures ok ==> forall sp :: ShellWords.Spans(cmd)[sp] == if ShellWords.WordOf(s, sp) then 1 else 0
      ensures ok ==> ShellWords.InOrder(cmd) && ShellWords.Roles(s, cmd) && ShellWords.AtMostNine(cmd)
      ensures !ok ==> buf[..] == old(buf[..])
    {
      hide ShellWords.Spans, ShellWords.WordOf, ShellWords.InOrder, ShellWords.Roles, ShellWords.AtMostNine;
      ok, cmd := ParseLine();
      if !ok {
        return;
      }
      var found := Peek("");
      if ps != Es() {
        return false, cmd;
      }
      ShellWords.WordsInPlace(s);
      NulTerminate(cmd);
      forall sp | HasSpan(cmd, sp) ensures sp.q < sp.eq <= |s| && CString(buf[..], sp.q) == s[sp.q..sp.eq] {
        ReadsBack(s, buf[..], cmd, sp);
      }
    }
  }
}
