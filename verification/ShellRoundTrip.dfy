/** A command tree, its text with as few parentheses as the grammar allows, and the proof that the
    parser reads the text back as the tree. */
module ShellRoundTrip {
  import opened ShellSyntax

  datatype Cmd =
    | Exec(argv: seq<string>)
    | Redir(cmd: Cmd, file: string, mode: nat, fd: nat)
    | Pipe(left: Cmd, right: Cmd)
    | List(left: Cmd, right: Cmd)
    | Back(cmd: Cmd)

  predicate Word(w: string) {
    w != "" && forall k :: 0 <= k < |w| ==> WordChar(w[k])
  }

  predicate Printable(c: Cmd) {
    match c
    case Exec(argv) => |argv| < MAXARGS && forall k :: 0 <= k < |argv| ==> Word(argv[k])
    case Redir(cmd, file, mode, fd) =>
      Printable(cmd) && Word(file) && ((mode == O_RDONLY && fd == 0) || (mode == O_WRONLY + O_CREATE && fd == 1))
    case Pipe(left, right) => Printable(left) && Printable(right)
    case List(left, right) => Printable(left) && Printable(right)
    case Back(cmd) => Printable(cmd)
  }

  // ------------------------------------------------------------ the printer

  /** A line may be a list, its first half may end in &, before that comes a pipe, made of units. */
  datatype Level = Line | Amp | Pipeline | Unit

  function Rank(v: Level): nat {
    match v case Line => 0 case Amp => 1 case Pipeline => 2 case Unit => 3
  }

  function LevelOf(c: Cmd): Level {
    match c
    case List(_, _) => Line
    case Back(_) => Amp
    case Pipe(_, _) => Pipeline
    case _ => Unit
  }

  function PrintArgs(argv: seq<string>): string {
    if argv == [] then "" else argv[0] + " " + PrintArgs(argv[1..])
  }

  function Body(c: Cmd): string
    decreases c, 0
  {
    match c
    case Exec(argv) => PrintArgs(argv)
    case Redir(cmd, file, mode, fd) => Print(cmd, Unit) + (if fd == 0 then "<" else ">") + file + " "
    case Pipe(left, right) => Print(left, Unit) + "|" + Print(right, Pipeline)
    case List(left, right) => Print(left, Amp) + ";" + Print(right, Line)
    case Back(cmd) => Print(cmd, Amp) + "&"
  }

  /** c where a phrase of level v is expected: in parentheses only if it binds less tightly. */
  function Print(c: Cmd, v: Level): string
    decreases c, 1
  {
    if Rank(LevelOf(c)) < Rank(v) then "(" + Body(c) + ")" else Body(c)
  }

  /** The tree with the strings its spans stand for. */
  function Words(s: string, n: Node): Cmd
    requires NodeOk(s, n)
  {
    match n
    case Exec(args) => Cmd.Exec(seq(|args|, k requires 0 <= k < |args| => s[args[k].q..args[k].eq]))
    case Redir(cmd, file, mode, fd) => Cmd.Redir(Words(s, cmd), s[file.q..file.eq], mode, fd)
    case Pipe(left, right) => Cmd.Pipe(Words(s, left), Words(s, right))
    case List(left, right) => Cmd.List(Words(s, left), Words(s, right))
    case Back(cmd) => Cmd.Back(Words(s, cmd))
  }

  // ------------------------------------------------------------- positions

  /** From position i on, the text is t and then post. */
  ghost predicate Reads(s: string, i: nat, t: string, post: string) {
    i <= |s| && s[i..] == t + post
  }

  lemma ReadsSplit(s: string, i: nat, a: string, b: string, post: string)
    requires Reads(s, i, a + b, post)
    ensures Reads(s, i, a, b + post) && i + |a| <= |s| && Reads(s, i + |a|, b, post)
  {
    assert a + b + post == a + (b + post);
    assert s[i + |a|..] == s[i..][|a|..];
  }

  /** What may follow a phrase: nothing, or a symbol that ends it. */
  predicate Ends(post: string) {
    post == "" || post[0] in "|)&;"
  }

  predicate EndsPipe(post: string) {
    post == "" || post[0] in ")&;"
  }

  predicate EndsLine(post: string) {
    post == "" || post[0] == ')'
  }

  lemma AtReads(s: string, i: nat, t: string, post: string)
    requires Reads(s, i, t, post)
    ensures t != "" ==> At(s, i) == t[0]
    ensures t == "" && post != "" ==> At(s, i) == post[0]
    ensures t == "" && post == "" ==> At(s, i) == '\0'
    ensures i + |t| <= |s| && Reads(s, i + |t|, "", post)
  {
    if t + post != "" {
      assert s[i] == s[i..][0];
    }
    assert s[i + |t|..] == s[i..][|t|..];
  }

  /** A one-character symbol token. */
  lemma SymbolToken(s: string, i: nat, c: char, rest: string, post: string)
    requires Text(s) && Reads(s, i, [c] + rest, post) && Symbol(c) && (c == '>' ==> rest + post != "" && (rest + post)[0] != '>')
    requires rest + post == "" || !Space((rest + post)[0])
    ensures Skip(s, i) == i && GetToken(s, i) == Token(c, Span(i, i + 1), i + 1)
  {
    AtReads(s, i, [c] + rest, post);
    ReadsSplit(s, i, [c], rest, post);
    AtReads(s, i + 1, rest, post);
    assert At(s, i) == c;
    assert !Space(c);
  }

  lemma {:induction false} WordEndAt(s: string, i: nat, w: string, post: string)
    requires Reads(s, i, w, post) && forall k :: 0 <= k < |w| ==> WordChar(w[k])
    requires post == "" || Space(post[0]) || Symbol(post[0])
    ensures WordEnd(s, i) == i + |w|
    decreases |w|
  {
    AtReads(s, i, w, post);
    if w != "" {
      assert s[i] == w[0];
      assert w == [w[0]] + w[1..];
      ReadsSplit(s, i, [w[0]], w[1..], post);
      WordEndAt(s, i + 1, w[1..], post);
    } else if post != "" {
      assert s[i] == post[0];
    }
  }

  lemma ReadsSlice(s: string, i: nat, w: string, post: string)
    requires Reads(s, i, w, post)
    ensures i + |w| <= |s| && s[i..i + |w|] == w
  {
    assert s[i..i + |w|] == s[i..][..|w|];
  }

  lemma AtSpace(s: string, i: nat, rest: string, post: string)
    requires Reads(s, i, " " + rest, post) && (rest + post == "" || !Space((rest + post)[0]))
    ensures i + 1 <= |s| && Skip(s, i) == i + 1 && Reads(s, i + 1, rest, post)
  {
    ReadsSplit(s, i, " ", rest, post);
    AtReads(s, i, " ", rest + post);
    AtReads(s, i + 1, rest, post);
    assert Skip(s, i) == Skip(s, i + 1);
  }

  /** A word and the space after it. */
  lemma WordToken(s: string, i: nat, w: string, rest: string, post: string)
    requires Text(s) && Word(w) && Reads(s, i, w + " " + rest, post) && (rest + post == "" || !Space((rest + post)[0]))
    ensures GetToken(s, i) == Token('a', Span(i, i + |w|), i + |w| + 1)
    ensures s[i..i + |w|] == w && Reads(s, i + |w| + 1, rest, post)
  {
    hide Reads;
    assert w + " " + rest == w + (" " + rest);
    ReadsSplit(s, i, w, " " + rest, post);
    AtReads(s, i, w, " " + rest + post);
    assert At(s, i) == w[0] && WordChar(w[0]);
    assert (" " + rest + post)[0] == ' ';
    WordEndAt(s, i, w, " " + rest + post);
    AtSpace(s, i + |w|, rest, post);
    ReadsSlice(s, i, w, " " + rest + post);
  }

  // ----------------------------------------------------------- redirections

  datatype Redirection = Redirection(file: string, mode: nat, fd: nat) {
    predicate Ok() {
      Word(file) && ((mode == O_RDONLY && fd == 0) || (mode == O_WRONLY + O_CREATE && fd == 1))
    }
  }

  predicate AllOk(rs: seq<Redirection>) {
    forall k :: 0 <= k < |rs| ==> rs[k].Ok()
  }

  function Core(c: Cmd): Cmd {
    if c.Redir? then Core(c.cmd) else c
  }

  function Redirs(c: Cmd): seq<Redirection> {
    if c.Redir? then Redirs(c.cmd) + [Redirection(c.file, c.mode, c.fd)] else []
  }

  function Wrap(c: Cmd, rs: seq<Redirection>): Cmd
    decreases |rs|
  {
    if rs == [] then c else Wrap(Cmd.Redir(c, rs[0].file, rs[0].mode, rs[0].fd), rs[1..])
  }

  function Op(fd: nat): string {
    if fd == 0 then "<" else ">"
  }

  function RedirText(rs: seq<Redirection>): string {
    if rs == [] then "" else Op(rs[0].fd) + rs[0].file + " " + RedirText(rs[1..])
  }

  lemma {:induction false} WrapLast(c: Cmd, rs: seq<Redirection>, r: Redirection)
    ensures Wrap(c, rs + [r]) == Cmd.Redir(Wrap(c, rs), r.file, r.mode, r.fd)
    ensures RedirText(rs + [r]) == RedirText(rs) + Op(r.fd) + r.file + " "
    decreases |rs|
  {
    if rs == [] {
      assert rs + [r] == [r];
      assert RedirText([]) == "" && RedirText([r][1..]) == "";
    } else {
      assert (rs + [r])[1..] == rs[1..] + [r];
      WrapLast(Cmd.Redir(c, rs[0].file, rs[0].mode, rs[0].fd), rs[1..], r);
      calc {
        RedirText(rs + [r]);
        Op(rs[0].fd) + rs[0].file + " " + (RedirText(rs[1..]) + Op(r.fd) + r.file + " ");
        RedirText(rs) + Op(r.fd) + r.file + " ";
      }
    }
  }

  lemma {:induction false} UnitText(c: Cmd)
    requires Printable(c)
    ensures Print(c, Unit) == Print(Core(c), Unit) + RedirText(Redirs(c))
    ensures Wrap(Core(c), Redirs(c)) == c && Printable(Core(c)) && AllOk(Redirs(c)) && !Core(c).Redir?
  {
    if c.Redir? {
      UnitText(c.cmd);
      WrapLast(Core(c.cmd), Redirs(c.cmd), Redirection(c.file, c.mode, c.fd));
      RedirBody(c, Print(Core(c), Unit), RedirText(Redirs(c.cmd)));
    }
  }

  lemma RedirBody(c: Cmd, a: string, b: string)
    requires c.Redir? && Print(c.cmd, Unit) == a + b
    ensures Print(c, Unit) == a + (b + Op(c.fd) + c.file + " ")
  {}

  /** Text that does not start with white space. */
  predicate Tight(t: string) {
    t == "" || !Space(t[0])
  }

  lemma RedirTight(rs: seq<Redirection>, post: string)
    requires Tight(post)
    ensures Tight(RedirText(rs) + post)
  {
    assert rs != [] ==> (RedirText(rs) + post)[0] == Op(rs[0].fd)[0];
  }

  lemma ArgsTight(argv: seq<string>, post: string)
    requires Tight(post) && forall k :: 0 <= k < |argv| ==> Word(argv[k])
    ensures Tight(PrintArgs(argv) + post)
  {
    assert argv != [] ==> (PrintArgs(argv) + post)[0] == argv[0][0] && WordChar(argv[0][0]);
  }

  lemma JoinTight(a: string, b: string, post: string)
    requires Tight(a + (b + post))
    ensures Tight(a + b + post)
  {
    assert a + b + post == a + (b + post);
  }

  lemma {:induction false} PrintTight(c: Cmd, v: Level, post: string)
    requires Printable(c) && Tight(post)
    ensures Tight(Print(c, v) + post)
    decreases c, 1
  {
    if Rank(LevelOf(c)) < Rank(v) {
      assert (Print(c, v) + post)[0] == '(';
    } else {
      BodyTight(c, post);
    }
  }

  lemma {:induction false} BodyTight(c: Cmd, post: string)
    requires Printable(c) && Tight(post)
    ensures Tight(Body(c) + post)
    decreases c, 0
  {
    hide Print;
    match c
    case Exec(argv) => ArgsTight(argv, post);
    case Redir(cmd, file, mode, fd) =>
      SuffixTight(cmd, Unit, Op(fd) + file + " ", post);
      assert Body(c) == Print(cmd, Unit) + (Op(fd) + file + " ");
    case Pipe(left, right) =>
      SuffixTight(left, Unit, "|" + Print(right, Pipeline), post);
      assert Body(c) == Print(left, Unit) + ("|" + Print(right, Pipeline));
    case List(left, right) =>
      SuffixTight(left, Amp, ";" + Print(right, Line), post);
      assert Body(c) == Print(left, Amp) + (";" + Print(right, Line));
    case Back(cmd) => SuffixTight(cmd, Amp, "&", post);
  }

  lemma {:induction false} SuffixTight(c: Cmd, v: Level, b: string, post: string)
    requires Printable(c) && b != "" && !Space(b[0])
    ensures Tight(Print(c, v) + b + post)
    decreases c, 2
  {
    assert (b + post)[0] == b[0];
    PrintTight(c, v, b + post);
    JoinTight(Print(c, v), b, post);
  }

  /** Where a phrase has ended, peek finds nothing but the symbol that ended it. */
  lemma AtEnd(s: string, i: nat, post: string)
    requires Reads(s, i, "", post) && Ends(post)
    ensures Skip(s, i) == i && At(s, i) == (if post == "" then '\0' else post[0]) && (post == "" ==> i == |s|)
  {
    AtReads(s, i, "", post);
  }

  /** The two tokens of a redirection. */
  lemma RedirTokens(s: string, i: nat, r: Redirection, rest: string, post: string)
    requires Text(s) && Reads(s, i, Op(r.fd) + (r.file + " " + rest), post) && r.Ok() && Tight(rest + post)
    ensures i + 1 + |r.file| + 1 <= |s| && Reads(s, i + 1 + |r.file| + 1, rest, post) && s[i + 1..i + 1 + |r.file|] == r.file
    ensures GetToken(s, i) == Token(Op(r.fd)[0], Span(i, i + 1), i + 1) && Peek(s, i, "<>")
    ensures GetToken(s, i + 1) == Token('a', Span(i + 1, i + 1 + |r.file|), i + 1 + |r.file| + 1)
  {
    hide Reads, WordEnd, TokenEnd, GetToken;
    var op := Op(r.fd);
    assert op == [op[0]] && WordChar(r.file[0]);
    AtReads(s, i, op + (r.file + " " + rest), post);
    SymbolToken(s, i, op[0], r.file + " " + rest, post);
    ReadsSplit(s, i, op, r.file + " " + rest, post);
    WordToken(s, i + 1, r.file, rest, post);
  }

  /** One redirection, read and wrapped around the command. */
  lemma RedirStep(s: string, i: nat, r: Redirection, rest: string, n: Node, post: string) returns (n': Node, j: nat)
    requires Text(s) && Reads(s, i, Op(r.fd) + (r.file + " " + rest), post) && r.Ok() && Tight(rest + post) && NodeOk(s, n)
    ensures i + |Op(r.fd) + (r.file + " " + rest)| == j + |rest| && Reads(s, j, rest, post)
    ensures ParseRedirs(s, i, n) == ParseRedirs(s, j, n')
    ensures NodeOk(s, n') && Words(s, n') == Cmd.Redir(Words(s, n), r.file, r.mode, r.fd)
  {
    hide Reads, WordEnd, Skip, TokenEnd, GetToken, Words, NodeOk, Tight, Peek;
    RedirTokens(s, i, r, rest, post);
    var file := GetToken(s, i + 1);
    j, n' := file.next, MakeRedir(n, Op(r.fd)[0], file.span);
    MakeWords(s, n, Op(r.fd)[0], file.span);
  }

  lemma MakeWords(s: string, n: Node, op: char, file: Span)
    requires NodeOk(s, n) && IsWord(s, file)
    ensures var n' := MakeRedir(n, op, file);
            NodeOk(s, n') && Words(s, n') == Cmd.Redir(Words(s, n), s[file.q..file.eq], n'.mode, n'.fd)
  {}

  /** A run of redirections after a command. */
  lemma {:induction false} RedirsRead(s: string, i: nat, rs: seq<Redirection>, n: Node, post: string)
    requires Text(s) && Reads(s, i, RedirText(rs), post) && AllOk(rs) && Ends(post) && NodeOk(s, n)
    ensures var r := ParseRedirs(s, i, n);
            r.Done? && r.next == i + |RedirText(rs)| && NodeOk(s, r.node) && Words(s, r.node) == Wrap(Words(s, n), rs)
    decreases |rs|
  {
    hide Reads, GetToken, Words, Skip, NodeOk;
    if rs == [] {
      AtEnd(s, i, post);
    } else {
      var rest := RedirText(rs[1..]);
      assert RedirText(rs) == Op(rs[0].fd) + (rs[0].file + " " + rest);
      RedirTight(rs[1..], post);
      var n', j := RedirStep(s, i, rs[0], rest, n, post);
      RedirsRead(s, j, rs[1..], n', post);
    }
  }

  // -------------------------------------------------------------- arguments

  lemma NoRedirs(s: string, i: nat, w: string, rest: string, post: string, n: Node)
    requires Text(s) && Word(w) && Reads(s, i, w + " " + rest, post)
    ensures ParseRedirs(s, i, n) == Done(n, i) && Skip(s, i) == i && WordChar(At(s, i))
  {
    AtReads(s, i, w + " " + rest, post);
    assert (w + " " + rest)[0] == w[0] && WordChar(w[0]);
  }

  lemma ArgsEnd(s: string, i: nat, n: Node, post: string)
    requires Text(s) && Reads(s, i, "", post) && Ends(post) && Simple(n) && ArgCount(n) < MAXARGS
    ensures ParseArgs(s, i, n) == Done(n, i)
  {
    AtEnd(s, i, post);
  }

  lemma ArgWords(s: string, n: Node, a: Span)
    requires n.Exec? && NodeOk(s, n) && IsWord(s, a) && |n.args| + 1 < MAXARGS
    ensures AddArg(n, a) == Node.Exec(n.args + [a]) && NodeOk(s, AddArg(n, a))
    ensures Words(s, AddArg(n, a)) == Cmd.Exec(Words(s, n).argv + [s[a.q..a.eq]])
  {}

  lemma WordsExec(s: string, n: Node)
    requires n.Exec? && NodeOk(s, n)
    ensures Words(s, n).Exec?
  {}

  /** One argument, read and stored in the command. */
  lemma ArgStep(s: string, i: nat, w: string, rest: string, n: Node, post: string) returns (n': Node, j: nat)
    requires Text(s) && Word(w) && Reads(s, i, w + " " + rest, post) && Tight(rest + post)
    requires n.Exec? && NodeOk(s, n) && |n.args| + 1 < MAXARGS
    ensures i + |w + " " + rest| == j + |rest| && Reads(s, j, rest, post)
    ensures Words(s, n).Exec? && n'.Exec? && NodeOk(s, n') && |n'.args| == |n.args| + 1 && Words(s, n') == Cmd.Exec(Words(s, n).argv + [w])
    ensures ParseArgs(s, i, n) == var r := ParseRedirs(s, j, n'); if r.Panic? then r else ParseArgs(s, r.next, r.node)
  {
    hide Reads, WordEnd, TokenEnd, GetToken, Words, ParseRedirs;
    NoRedirs(s, i, w, rest, post, n);
    WordToken(s, i, w, rest, post);
    var t := GetToken(s, i);
    ArgWords(s, n, t.span);
    WordsExec(s, n);
    j, n' := t.next, AddArg(n, t.span);
  }

  lemma ArgsText(argv: seq<string>, rs: seq<Redirection>, post: string)
    requires argv != [] && (forall k :: 0 <= k < |argv| ==> Word(argv[k])) && Tight(post)
    ensures PrintArgs(argv) + RedirText(rs) == argv[0] + " " + (PrintArgs(argv[1..]) + RedirText(rs))
    ensures Tight(PrintArgs(argv[1..]) + RedirText(rs) + post)
  {
    hide Word, Tight, RedirText;
    RedirTight(rs, post);
    ArgsTight(argv[1..], RedirText(rs) + post);
    Associates(argv[0] + " ", PrintArgs(argv[1..]), RedirText(rs));
    Associates(PrintArgs(argv[1..]), RedirText(rs), post);
  }

  lemma Associates(a: string, b: string, c: string)
    ensures a + b + c == a + (b + c)
  {}

  /** The arguments of a command and the redirections after them. */
  lemma {:induction false} ArgsRead(s: string, i: nat, argv: seq<string>, rs: seq<Redirection>, n: Node, post: string)
    requires Text(s) && Reads(s, i, PrintArgs(argv) + RedirText(rs), post) && AllOk(rs) && Ends(post)
    requires argv != [] && (forall k :: 0 <= k < |argv| ==> Word(argv[k]))
    requires n.Exec? && NodeOk(s, n) && |n.args| + |argv| < MAXARGS
    ensures var r := ParseArgs(s, i, n);
            && r.Done? && r.next == i + |PrintArgs(argv) + RedirText(rs)| && NodeOk(s, r.node)
            && Words(s, r.node) == Wrap(Cmd.Exec(Words(s, n).argv + argv), rs)
    decreases |argv|
  {
    hide Reads, GetToken, Words, Skip, ParseRedirs, ParseArgs, NodeOk, Peek, Word, PrintArgs;
    ArgsText(argv, rs, post);
    var n', j := ArgStep(s, i, argv[0], PrintArgs(argv[1..]) + RedirText(rs), n, post);
    if |argv| == 1 {
      LastArg(s, j, argv, rs, n', post);
      assert Words(s, n').argv == Words(s, n).argv + argv;
    } else {
      ArgsText(argv[1..], rs, post);
      NoRedirs(s, j, argv[1], PrintArgs(argv[1..][1..]) + RedirText(rs), post, n');
      ArgsRead(s, j, argv[1..], rs, n', post);
      assert Words(s, n').argv + argv[1..] == Words(s, n).argv + argv;
    }
  }

  lemma LastArg(s: string, j: nat, argv: seq<string>, rs: seq<Redirection>, n: Node, post: string)
    requires Text(s) && |argv| == 1 && Reads(s, j, PrintArgs(argv[1..]) + RedirText(rs), post) && AllOk(rs) && Ends(post)
    requires n.Exec? && NodeOk(s, n) && |n.args| < MAXARGS
    ensures var r := ParseRedirs(s, j, n);
            && r.Done? && ParseArgs(s, r.next, r.node) == r && r.next == j + |PrintArgs(argv[1..]) + RedirText(rs)|
            && NodeOk(s, r.node) && Words(s, r.node) == Wrap(Words(s, n), rs)
  {
    hide Reads, GetToken, Words, Skip, ParseArgs, NodeOk, Peek;
    assert PrintArgs(argv[1..]) + RedirText(rs) == RedirText(rs);
    RedirsRead(s, j, rs, n, post);
    var r := ParseRedirs(s, j, n);
    AtReads(s, j, RedirText(rs), post);
    ArgsEnd(s, r.next, r.node, post);
  }

  lemma EmptyExec(s: string)
    ensures NodeOk(s, Node.Exec([])) && Words(s, Node.Exec([])) == Cmd.Exec([])
  {}

  /** A command without parentheses. */
  lemma SimpleRead(s: string, i: nat, argv: seq<string>, rs: seq<Redirection>, post: string)
    requires Text(s) && Reads(s, i, PrintArgs(argv) + RedirText(rs), post) && AllOk(rs) && Ends(post)
    requires |argv| < MAXARGS && forall k :: 0 <= k < |argv| ==> Word(argv[k])
    ensures var r := ParseExec(s, i);
            r.Done? && r.next == i + |PrintArgs(argv) + RedirText(rs)| && Words(s, r.node) == Wrap(Cmd.Exec(argv), rs)
  {
    hide Reads, GetToken, Words, Skip, ParseArgs, ParseRedirs, NodeOk, Word;
    EmptyExec(s);
    if argv == [] {
      assert PrintArgs(argv) + RedirText(rs) == RedirText(rs);
      NoParen(s, i, rs, post);
      RedirsRead(s, i, rs, Node.Exec([]), post);
      var r := ParseRedirs(s, i, Node.Exec([]));
      AtReads(s, i, RedirText(rs), post);
      ArgsEnd(s, r.next, r.node, post);
    } else {
      ArgsText(argv, rs, post);
      NoRedirs(s, i, argv[0], PrintArgs(argv[1..]) + RedirText(rs), post, Node.Exec([]));
      ArgsRead(s, i, argv, rs, Node.Exec([]), post);
      assert [] + argv == argv;
    }
  }

  lemma NoParen(s: string, i: nat, rs: seq<Redirection>, post: string)
    requires Reads(s, i, RedirText(rs), post) && Ends(post)
    ensures i <= |s| && !Peek(s, i, "(")
  {
    AtReads(s, i, RedirText(rs), post);
    assert rs != [] ==> RedirText(rs)[0] == Op(rs[0].fd)[0];
  }
}
