/** The scanner of sh.c (gettoken, peek) over a command line, as the list of
    tokens it will deliver. */
module ShellLex {
  import opened ShellGrammar

  /** A word's place in the line: from q up to but not including eq. */
  datatype Span = Span(q: nat, eq: nat)

  predicate IsSpace(c: char)
  {
    c == ' ' || c == '\t' || c == '\r' || c == '\n' || c == '\U{0B}'
  }

  predicate IsSymbol(c: char)
  {
    c == '<' || c == '|' || c == '>' || c == '&' || c == ';' || c == '(' || c == ')'
  }

  predicate IsWordChar(c: char)
  {
    !IsSpace(c) && !IsSymbol(c)
  }

  /** The first index from i on that is not white space. */
  function SkipSpace(s: string, i: nat): (j: nat)
    requires i <= |s|
    ensures i <= j <= |s|
    ensures j < |s| ==> !IsSpace(s[j])
    decreases |s| - i
  {
    if i < |s| && IsSpace(s[i]) then SkipSpace(s, i + 1) else i
  }

  /** The end of the word that starts at i. */
  function WordEnd(s: string, i: nat): (j: nat)
    requires i <= |s|
    ensures i <= j <= |s|
    ensures forall k | i <= k < j :: IsWordChar(s[k])
    ensures j < |s| ==> !IsWordChar(s[j])
    decreases |s| - i
  {
    if i < |s| && IsWordChar(s[i]) then WordEnd(s, i + 1) else i
  }

  /** The token at i, which is not white space, and where it ends. */
  function TokenAt(s: string, i: nat): (r: (Tok<Span>, nat))
    requires i < |s| && !IsSpace(s[i])
    ensures i < r.1 <= |s|
  {
    if s[i] == '>' && i + 1 < |s| && s[i + 1] == '>' then (Sym('+'), i + 2)
    else if IsSymbol(s[i]) then (Sym(s[i]), i + 1)
    else
      assert IsWordChar(s[i]);
      (Word(Span(i, WordEnd(s, i))), WordEnd(s, i))
  }

  /** The tokens from index i on. */
  function Lex(s: string, i: nat): Toks<Span>
    requires i <= |s|
    decreases |s| - i
  {
    var j := SkipSpace(s, i);
    if j == |s| then End
    else
      var (tok, e) := TokenAt(s, j);
      Then(tok, Lex(s, e))
  }

  lemma {:induction false} SkipTwice(s: string, i: nat)
    requires i <= |s|
    ensures SkipSpace(s, SkipSpace(s, i)) == SkipSpace(s, i)
    ensures Lex(s, SkipSpace(s, i)) == Lex(s, i)
    decreases |s| - i
  {
    if i < |s| && IsSpace(s[i]) {
      SkipTwice(s, i + 1);
    }
  }

  // ---------------------------------------------------------------
  // Words: from spans to text.

  function Text(s: string, w: Span): string
  {
    if w.q <= w.eq <= |s| then s[w.q..w.eq] else ""
  }

  function TokText(s: string, t: Tok<Span>): Tok<string>
  {
    match t
    case Word(w) => Word(Text(s, w))
    case Sym(c) => Sym(c)
  }

  function ToksText(s: string, t: Toks<Span>): Toks<string>
  {
    if t.End? then End else Then(TokText(s, t.head), ToksText(s, t.rest))
  }

  function RedirectText(s: string, r: Redirect<Span>): Redirect<string>
  {
    Redirect(Text(s, r.file), r.mode, r.fd)
  }

  function CmdText(s: string, c: Cmd<Span>): Cmd<string>
  {
    match c
    case Exec(args) => Exec(ArgsText(s, args))
    case Redir(d, r) => Redir(CmdText(s, d), RedirectText(s, r))
    case Pipe(l, r) => Pipe(CmdText(s, l), CmdText(s, r))
    case Seq(l, r) => Seq(CmdText(s, l), CmdText(s, r))
    case Back(d) => Back(CmdText(s, d))
  }

  function ArgsText(s: string, args: seq<Span>): (r: seq<string>)
    ensures |r| == |args|
    ensures forall i | 0 <= i < |args| :: r[i] == Text(s, args[i])
  {
    seq(|args|, i requires 0 <= i < |args| => Text(s, args[i]))
  }

  function ListText(s: string, list: seq<Redirect<Span>>): (r: seq<Redirect<string>>)
    ensures |r| == |list|
    ensures forall i | 0 <= i < |list| :: r[i] == RedirectText(s, list[i])
  {
    seq(|list|, i requires 0 <= i < |list| => RedirectText(s, list[i]))
  }

  function ParsedText(s: string, r: Parsed<Span>): Parsed<string>
  {
    match r
    case Ok(c, rest) => Ok(CmdText(s, c), ToksText(s, rest))
    case Panic(e) => Panic(e)
  }

  function RedirsText(s: string, r: RedirResult<Span>): RedirResult<string>
  {
    match r
    case Redirs(list, rest) => Redirs(ListText(s, list), ToksText(s, rest))
    case NoFile => NoFile
  }

  // Parsing looks only at which tokens are words, so it commutes with
  // replacing spans by their text.

  lemma {:induction false} SizeText(s: string, t: Toks<Span>)
    ensures ToksText(s, t).Size() == t.Size()
  {
    if t.Then? {
      SizeText(s, t.rest);
    }
  }

  lemma {:induction false} ParseRedirsText(s: string, t: Toks<Span>)
    ensures ParseRedirs(ToksText(s, t)) == RedirsText(s, ParseRedirs(t))
    decreases t
  {
    if t.StartsRedir() && t.rest.Then? && t.rest.head.Word? {
      ParseRedirsText(s, t.rest.rest);
      var r := ParseRedirs(t.rest.rest);
      if r.Redirs? {
        var one := Opened(t.head.c, t.rest.head.w);
        assert ListText(s, [one] + r.list) == [RedirectText(s, one)] + ListText(s, r.list);
      }
    }
  }

  lemma {:induction false} WrapText(s: string, c: Cmd<Span>, list: seq<Redirect<Span>>)
    ensures CmdText(s, Wrap(c, list)) == Wrap(CmdText(s, c), ListText(s, list))
    decreases |list|
  {
    if list != [] {
      WrapText(s, Redir(c, list[0]), list[1..]);
      assert ListText(s, list)[1..] == ListText(s, list[1..]);
    }
  }

  lemma {:induction false} ParseArgsText(s: string, args: seq<Span>, list: seq<Redirect<Span>>, t: Toks<Span>)
    ensures ParseArgs(ArgsText(s, args), ListText(s, list), ToksText(s, t)) == ParsedText(s, ParseArgs(args, list, t))
    decreases t.Size()
  {
    if EndsExec(t) {
      WrapText(s, Exec(args), list);
    } else if t.head.Word? && |args| + 1 < MAXARGS {
      ParseRedirsText(s, t.rest);
      var r := ParseRedirs(t.rest);
      if r.Redirs? {
        assert ArgsText(s, args + [t.head.w]) == ArgsText(s, args) + [Text(s, t.head.w)];
        assert ListText(s, list + r.list) == ListText(s, list) + ListText(s, r.list);
        ParseArgsText(s, args + [t.head.w], list + r.list, r.rest);
      }
    }
  }

  lemma {:induction false} ParseExecText(s: string, t: Toks<Span>)
    ensures ParseExec(ToksText(s, t)) == ParsedText(s, ParseExec(t))
    decreases t.Size(), 0
  {
    if t.Starts('(') {
      ParseLineText(s, t.rest);
      var r := ParseLine(t.rest);
      if r.Ok? && r.rest.Starts(')') {
        ParseRedirsText(s, r.rest.rest);
        var rs := ParseRedirs(r.rest.rest);
        if rs.Redirs? {
          WrapText(s, r.cmd, rs.list);
        }
      }
    } else {
      ParseRedirsText(s, t);
      var rs := ParseRedirs(t);
      if rs.Redirs? {
        ParseArgsText(s, [], rs.list, rs.rest);
      }
    }
  }

  lemma {:induction false} ParsePipeText(s: string, t: Toks<Span>)
    ensures ParsePipe(ToksText(s, t)) == ParsedText(s, ParsePipe(t))
    decreases t.Size(), 1
  {
    ParseExecText(s, t);
    var r := ParseExec(t);
    if r.Ok? && r.rest.Starts('|') {
      ParsePipeText(s, r.rest.rest);
    }
  }

  lemma {:induction false} ParseBacksText(s: string, c: Cmd<Span>, t: Toks<Span>)
    ensures var r := ParseBacks(c, t); ParseBacks(CmdText(s, c), ToksText(s, t)) == (CmdText(s, r.0), ToksText(s, r.1))
    decreases t
  {
    if t.Starts('&') {
      ParseBacksText(s, Back(c), t.rest);
    }
  }

  lemma {:induction false} ParseLineText(s: string, t: Toks<Span>)
    ensures ParseLine(ToksText(s, t)) == ParsedText(s, ParseLine(t))
    decreases t.Size(), 2
  {
    ParsePipeText(s, t);
    var p := ParsePipe(t);
    if p.Ok? {
      ParseBacksText(s, p.cmd, p.rest);
      var r := ParseBacks(p.cmd, p.rest);
      if r.1.Starts(';') {
        ParseLineText(s, r.1.rest);
      }
    }
  }

  lemma ParseAllText(s: string, t: Toks<Span>)
    ensures ParseAll(ToksText(s, t)) == ParsedText(s, ParseAll(t))
  {
    ParseLineText(s, t);
  }
}
