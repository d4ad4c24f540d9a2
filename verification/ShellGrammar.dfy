/** The grammar of sh.c over tokens: what its recursive-descent parser accepts
    and the command tree it builds. W is what stands for a word: its text, or
    the span of the input it occupies. */
module ShellGrammar {

  datatype Tok<+W> = Word(w: W) | Sym(c: char)  // '+' stands for ">>"

  datatype Toks<+W> = End | Then(head: Tok<W>, rest: Toks<W>) {
    function Size(): nat {
      if End? then 0 else 1 + rest.Size()
    }

    predicate Starts(c: char) {
      Then? && head == Sym(c)
    }

    predicate StartsRedir() {
      Starts('<') || Starts('>') || Starts('+')
    }
  }

  datatype Redirect<+W> = Redirect(file: W, mode: nat, fd: nat)

  datatype Cmd<+W> =
    | Exec(args: seq<W>)
    | Redir(cmd: Cmd<W>, r: Redirect<W>)
    | Pipe(left: Cmd<W>, right: Cmd<W>)
    | Seq(first: Cmd<W>, second: Cmd<W>)
    | Back(bg: Cmd<W>)

  datatype Error = MissingFile | MissingParen | Syntax | TooManyArgs

  /** A command and what is left of the input, or the parser's panic. */
  datatype Parsed<+W> = Ok(cmd: Cmd<W>, rest: Toks<W>) | Panic(err: Error)

  const MAXARGS: nat := 10
  const O_RDONLY: nat := 0x000
  const O_WRONLY: nat := 0x001
  const O_CREATE: nat := 0x200

  /** How parseredirs opens the file; ">>" is treated exactly as ">". */
  function Opened<W>(c: char, w: W): Redirect<W>
  {
    if c == '<' then Redirect(w, O_RDONLY, 0) else Redirect(w, O_WRONLY + O_CREATE, 1)
  }

  datatype RedirResult<+W> = Redirs(list: seq<Redirect<W>>, rest: Toks<W>) | NoFile

  /** The redirections at the front of t, innermost first. */
  function ParseRedirs<W>(t: Toks<W>): (r: RedirResult<W>)
    ensures r.Redirs? ==> r.rest.Size() <= t.Size()
    decreases t.Size()
  {
    if !t.StartsRedir() then Redirs([], t)
    else if t.rest.End? || !t.rest.head.Word? then NoFile
    else
      assert t.Size() == 2 + t.rest.rest.Size();
      Behind([Opened(t.head.c, t.rest.head.w)], ParseRedirs(t.rest.rest))
  }

  /** The redirections in list, and then those of r. */
  function Behind<W>(list: seq<Redirect<W>>, r: RedirResult<W>): RedirResult<W>
  {
    match r
    case NoFile => NoFile
    case Redirs(more, rest) => Redirs(list + more, rest)
  }

  lemma BehindOne<W>(list: seq<Redirect<W>>, x: Redirect<W>, r: RedirResult<W>)
    ensures Behind(list, Behind([x], r)) == Behind(list + [x], r)
  {
    assert r.Redirs? ==> list + ([x] + r.list) == list + [x] + r.list;
  }

  lemma BehindAll<W>(list: seq<Redirect<W>>, t: Toks<W>)
    requires !t.StartsRedir()
    ensures Behind(list, ParseRedirs(t)) == Redirs(list, t)
  {
    assert list + [] == list;
  }

  function Wrap<W>(c: Cmd<W>, list: seq<Redirect<W>>): Cmd<W>
    decreases |list|
  {
    if list == [] then c else Wrap(Redir(c, list[0]), list[1..])
  }

  /** parseexec after its first parseredirs: the words seen so far are args,
      the redirections list. */
  function ParseArgs<W>(args: seq<W>, list: seq<Redirect<W>>, t: Toks<W>): (r: Parsed<W>)
    ensures r.Ok? ==> r.rest.Size() <= t.Size()
    decreases t.Size()
  {
    if t.End? || t.Starts('|') || t.Starts(')') || t.Starts('&') || t.Starts(';') then Ok(Wrap(Exec(args), list), t)
    else if !t.head.Word? then Panic(Syntax)
    else if |args| + 1 >= MAXARGS then Panic(TooManyArgs)
    else
      match ParseRedirs(t.rest)
      case NoFile => Panic(MissingFile)
      case Redirs(more, rest) => ParseArgs(args + [t.head.w], list + more, rest)
  }

  function ParseExec<W>(t: Toks<W>): (r: Parsed<W>)
    ensures r.Ok? ==> r.rest.Size() <= t.Size()
    decreases t.Size(), 0
  {
    if t.Starts('(') then
      match ParseLine(t.rest)
      case Panic(e) => Panic(e)
      case Ok(c, rest) =>
        if !rest.Starts(')') then Panic(MissingParen)
        else
          match ParseRedirs(rest.rest)
          case NoFile => Panic(MissingFile)
          case Redirs(list, left) => Ok(Wrap(c, list), left)
    else
      match ParseRedirs(t)
      case NoFile => Panic(MissingFile)
      case Redirs(list, rest) => ParseArgs([], list, rest)
  }

  function ParsePipe<W>(t: Toks<W>): (r: Parsed<W>)
    ensures r.Ok? ==> r.rest.Size() <= t.Size()
    decreases t.Size(), 1
  {
    match ParseExec(t)
    case Panic(e) => Panic(e)
    case Ok(c, rest) =>
      if !rest.Starts('|') then Ok(c, rest)
      else
        match ParsePipe(rest.rest)
        case Panic(e) => Panic(e)
        case Ok(d, left) => Ok(Pipe(c, d), left)
  }

  /** The while loop of parseline: one Back for each '&'. */
  function ParseBacks<W>(c: Cmd<W>, t: Toks<W>): (r: (Cmd<W>, Toks<W>))
    ensures r.1.Size() <= t.Size()
    decreases t.Size()
  {
    if t.Starts('&') then ParseBacks(Back(c), t.rest) else (c, t)
  }

  function ParseLine<W>(t: Toks<W>): (r: Parsed<W>)
    ensures r.Ok? ==> r.rest.Size() <= t.Size()
    decreases t.Size(), 2
  {
    match ParsePipe(t)
    case Panic(e) => Panic(e)
    case Ok(c0, rest0) =>
      var (c, rest) := ParseBacks(c0, rest0);
      if !rest.Starts(';') then Ok(c, rest)
      else
        match ParseLine(rest.rest)
        case Panic(e) => Panic(e)
        case Ok(d, left) => Ok(Seq(c, d), left)
  }

  /** parsecmd: a line with nothing left over. */
  function ParseAll<W>(t: Toks<W>): Parsed<W>
  {
    match ParseLine(t)
    case Panic(e) => Panic(e)
    case Ok(c, rest) => if rest.End? then Ok(c, End) else Panic(Syntax)
  }

  // ---------------------------------------------------------------
  // A printer that puts parentheses where the grammar needs them. Each
  // function prints a command in front of the tokens k.

  function PrintRedirs<W>(list: seq<Redirect<W>>, k: Toks<W>): Toks<W>
  {
    if list == [] then k
    else
      Then(Sym(if list[0].mode == O_RDONLY then '<' else '>'), Then(Word(list[0].file), PrintRedirs(list[1..], k)))
  }

  function PrintArgs<W>(args: seq<W>, k: Toks<W>): Toks<W>
  {
    if args == [] then k else Then(Word(args[0]), PrintArgs(args[1..], k))
  }

  /** A redirected command: what is under the redirections, and the list. */
  function Bottom<W>(c: Cmd<W>): (b: Cmd<W>)
    ensures !b.Redir?
    ensures b == c || b < c
  {
    if c.Redir? then Bottom(c.cmd) else c
  }

  function Redirections<W>(c: Cmd<W>): seq<Redirect<W>>
  {
    if c.Redir? then Redirections(c.cmd) + [c.r] else []
  }

  function PrintExec<W>(c: Cmd<W>, k: Toks<W>): Toks<W>
    decreases c, 3
  {
    var b, k1 := Bottom(c), PrintRedirs(Redirections(c), k);
    if b.Exec? then PrintArgs(b.args, k1) else Then(Sym('('), PrintParen(b, Then(Sym(')'), k1)))
  }

  /** What goes between parentheses. */
  function PrintParen<W>(c: Cmd<W>, k: Toks<W>): Toks<W>
    requires c.Pipe? || c.Seq? || c.Back?
    decreases c, 2
  {
    if c.Pipe? then PrintPipe(c, k) else if c.Back? then PrintBack(c, k) else PrintLine(c, k)
  }

  function PrintPipe<W>(c: Cmd<W>, k: Toks<W>): Toks<W>
    decreases c, if c.Pipe? then 0 else 4
  {
    if c.Pipe? then PrintExec(c.left, Then(Sym('|'), PrintPipe(c.right, k))) else PrintExec(c, k)
  }

  function PrintBack<W>(c: Cmd<W>, k: Toks<W>): Toks<W>
    decreases c, if c.Back? then 0 else 5
  {
    if c.Back? then PrintBack(c.bg, Then(Sym('&'), k)) else PrintPipe(c, k)
  }

  function PrintLine<W>(c: Cmd<W>, k: Toks<W>): Toks<W>
    decreases c, if c.Seq? then 0 else 6
  {
    if c.Seq? then PrintBack(c.first, Then(Sym(';'), PrintLine(c.second, k))) else PrintBack(c, k)
  }

  // ---------------------------------------------------------------
  // Parsing what was printed gives the command back.

  ghost predicate WfRedirect<W>(r: Redirect<W>)
  {
    (r.mode == O_RDONLY && r.fd == 0) || (r.mode == O_WRONLY + O_CREATE && r.fd == 1)
  }

  /** Commands the shell can express: at most nine arguments per exec node, and
      redirections opened as parseredirs opens them. */
  ghost predicate WfCmd<W>(c: Cmd<W>)
  {
    match c
    case Exec(args) => |args| < MAXARGS
    case Redir(d, r) => WfCmd(d) && WfRedirect(r)
    case Pipe(l, r) => WfCmd(l) && WfCmd(r)
    case Seq(l, r) => WfCmd(l) && WfCmd(r)
    case Back(d) => WfCmd(d)
  }

  ghost predicate WfList<W>(list: seq<Redirect<W>>)
  {
    forall i | 0 <= i < |list| :: WfRedirect(list[i])
  }

  /** Tokens that end an exec node. */
  ghost predicate EndsExec<W>(k: Toks<W>)
  {
    k.End? || k.Starts('|') || k.Starts(')') || k.Starts('&') || k.Starts(';')
  }

  ghost predicate EndsPipe<W>(k: Toks<W>)
  {
    k.End? || k.Starts(')') || k.Starts('&') || k.Starts(';')
  }

  ghost predicate EndsLine<W>(k: Toks<W>)
  {
    k.End? || k.Starts(')')
  }

  lemma {:induction false} RedirsRoundTrip<W>(list: seq<Redirect<W>>, k: Toks<W>)
    requires WfList(list) && !k.StartsRedir()
    ensures ParseRedirs(PrintRedirs(list, k)) == Redirs(list, k)
    decreases |list|
  {
    if list != [] {
      RedirsRoundTrip(list[1..], k);
      assert Opened(if list[0].mode == O_RDONLY then '<' else '>', list[0].file) == list[0];
      assert [list[0]] + list[1..] == list;
    }
  }

  lemma {:induction false} ArgsRoundTrip<W>(done: seq<W>, args: seq<W>, list: seq<Redirect<W>>, k: Toks<W>)
    requires WfList(list) && EndsExec(k) && |done| + |args| < MAXARGS
    requires args != []
    ensures ParseArgs(done, [], PrintArgs(args, PrintRedirs(list, k))) == Ok(Wrap(Exec(done + args), list), k)
    decreases |args|
  {
    var rest := PrintArgs(args[1..], PrintRedirs(list, k));
    if |args| == 1 {
      assert args[1..] == [];
      RedirsRoundTrip(list, k);
      assert [] + list == list;
      assert done + [args[0]] == done + args;
    } else {
      var none: seq<Redirect<W>> := [];
      assert ParseRedirs(rest) == Redirs(none, rest) && none + none == none;
      ArgsRoundTrip(done + [args[0]], args[1..], list, k);
      assert done + [args[0]] + args[1..] == done + args;
    }
  }

  lemma {:induction false} WrapBottom<W>(c: Cmd<W>)
    ensures Wrap(Bottom(c), Redirections(c)) == c
  {
    if c.Redir? {
      WrapBottom(c.cmd);
      WrapLast(Bottom(c.cmd), Redirections(c.cmd), c.r);
    }
  }

  lemma {:induction false} WrapLast<W>(b: Cmd<W>, list: seq<Redirect<W>>, r: Redirect<W>)
    ensures Wrap(b, list + [r]) == Redir(Wrap(b, list), r)
    decreases |list|
  {
    if list != [] {
      assert (list + [r])[1..] == list[1..] + [r];
      WrapLast(Redir(b, list[0]), list[1..], r);
    }
  }

  lemma {:induction false} WfParts<W>(c: Cmd<W>)
    requires WfCmd(c)
    ensures WfCmd(Bottom(c)) && WfList(Redirections(c))
  {
    if c.Redir? {
      WfParts(c.cmd);
    }
  }

  lemma {:induction false} ExecRoundTrip<W>(c: Cmd<W>, k: Toks<W>)
    requires WfCmd(c) && EndsExec(k)
    ensures ParseExec(PrintExec(c, k)) == Ok(c, k)
    decreases c, 3
  {
    var b, list := Bottom(c), Redirections(c);
    WfParts(c);
    WrapBottom(c);
    RedirsRoundTrip(list, k);
    if b.Exec? {
      WordsRoundTrip(c, b.args, list, k);
    } else {
      ParenRoundTrip(b, Then(Sym(')'), PrintRedirs(list, k)));
    }
  }

  /** A command without parentheses. */
  lemma WordsRoundTrip<W>(c: Cmd<W>, args: seq<W>, list: seq<Redirect<W>>, k: Toks<W>)
    requires WfCmd(c) && EndsExec(k) && Bottom(c) == Exec(args) && list == Redirections(c) && WfList(list)
    requires |args| < MAXARGS
    requires Wrap(Exec(args), list) == c && ParseRedirs(PrintRedirs(list, k)) == Redirs(list, k)
    ensures ParseExec(PrintExec(c, k)) == Ok(c, k)
  {
    if args == [] {
      assert ParseArgs<W>([], list, k) == Ok(Wrap(Exec([]), list), k);
    } else {
      var t := PrintArgs(args, PrintRedirs(list, k));
      assert ParseRedirs(t) == Redirs([], t);
      ArgsRoundTrip([], args, list, k);
      assert [] + args == args;
    }
  }

  lemma {:induction false} ParenRoundTrip<W>(c: Cmd<W>, k: Toks<W>)
    requires WfCmd(c) && EndsLine(k) && (c.Pipe? || c.Seq? || c.Back?)
    ensures ParseLine(PrintParen(c, k)) == Ok(c, k)
    decreases c, 2
  {
    if c.Pipe? {
      PipeRoundTrip(c, k);
    } else if c.Back? {
      BackRoundTrip(c, k);
    } else {
      LineRoundTrip(c, k);
    }
  }

  lemma {:induction false} PipeRoundTrip<W>(c: Cmd<W>, k: Toks<W>)
    requires WfCmd(c) && EndsPipe(k)
    ensures ParsePipe(PrintPipe(c, k)) == Ok(c, k)
    decreases c, if c.Pipe? then 0 else 4
  {
    if c.Pipe? {
      PipeRoundTrip(c.right, k);
      ExecRoundTrip(c.left, Then(Sym('|'), PrintPipe(c.right, k)));
    } else {
      ExecRoundTrip(c, k);
    }
  }

  /** The line before its ';': a pipeline, then its '&'s. */
  lemma {:induction false} BackRoundTrip<W>(c: Cmd<W>, k: Toks<W>)
    requires WfCmd(c) && EndsPipe(k)
    ensures ParsePipe(PrintBack(c, k)).Ok?
    ensures var p := ParsePipe(PrintBack(c, k)); ParseBacks(p.cmd, p.rest) == ParseBacks(c, k)
    decreases c, if c.Back? then 0 else 5
  {
    if c.Back? {
      BackRoundTrip(c.bg, Then(Sym('&'), k));
    } else {
      PipeRoundTrip(c, k);
    }
  }

  lemma {:induction false} LineRoundTrip<W>(c: Cmd<W>, k: Toks<W>)
    requires WfCmd(c) && EndsLine(k)
    ensures ParseLine(PrintLine(c, k)) == Ok(c, k)
    decreases c, if c.Seq? then 0 else 6
  {
    if c.Seq? {
      LineRoundTrip(c.second, k);
      BackRoundTrip(c.first, Then(Sym(';'), PrintLine(c.second, k)));
    } else {
      BackRoundTrip(c, k);
    }
  }

  /** Every expressible command is what parsing its printed form yields. */
  lemma TokenRoundTrip<W>(c: Cmd<W>)
    requires WfCmd(c)
    ensures ParseAll(PrintLine(c, End)) == Ok(c, End)
  {
    LineRoundTrip(c, End);
  }
}
