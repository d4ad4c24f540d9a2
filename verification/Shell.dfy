/** The parser of sh.c as it runs: a cursor moving over the command line, and
    nulterminate writing into the line. */
module Shell {
  import opened ShellGrammar
  import opened ShellLex

  datatype Outcome = Tree(c: Cmd<Span>) | Fail(err: Error)

  /** What the tokens `before` parse to is c, leaving `after`. */
  ghost predicate Yields(parsed: Parsed<Span>, r: Outcome, after: Toks<Span>)
  {
    match r
    case Tree(c) => parsed == Ok(c, after)
    case Fail(e) => parsed == Panic(e)
  }

  /** What gettoken returns for a token. */
  function Code(t: Tok<Span>): char
  {
    match t
    case Word(_) => 'a'
    case Sym(c) => c
  }

  /** Does the token start with one of these symbols? */
  predicate OneOf(t: Tok<Span>, toks: string)
  {
    t.Sym? && (if t.c == '+' then '>' else t.c) in toks
  }

  lemma OneOfRedir(t: Tok<Span>)
    ensures OneOf(t, "<>") <==> t == Sym('<') || t == Sym('>') || t == Sym('+')
  {
  }

  lemma OneOfStop(t: Tok<Span>)
    ensures OneOf(t, "|)&;") <==> t == Sym('|') || t == Sym(')') || t == Sym('&') || t == Sym(';')
  {
  }

  class Parser {
    const s: string  // the line, without its terminating NUL
    var ps: nat

    constructor (s: string)
      ensures this.s == s && ps == 0
    {
      this.s := s;
      ps := 0;
    }

    ghost function Rest(): Toks<Span>
      requires ps <= |s|
      reads this
    {
      Lex(s, ps)
    }

    method SkipWhite()
      requires ps <= |s|
      modifies this
      ensures ps == SkipSpace(s, old(ps)) && Rest() == old(Rest())
    {
      SkipTwice(s, ps);
      while ps < |s| && IsSpace(s[ps])
        invariant ps <= |s| && SkipSpace(s, ps) == SkipSpace(s, old(ps))
        decreases |s| - ps
      {
        ps := ps + 1;
      }
    }

    /** gettoken: deliver the next token, or '\0' at the end of the line. */
    method GetToken() returns (ret: char, q: nat, eq: nat)
      requires ps <= |s|
      modifies this
      ensures old(ps) <= ps <= |s|
      ensures old(Rest()).End? ==> ret == '\0' && Rest().End?
      ensures old(Rest()).Then? ==>
        && old(ps) < ps
        && ret == Code(old(Rest()).head)
        && Rest() == old(Rest()).rest
        && (old(Rest()).head.Word? ==> old(Rest()).head.w == Span(q, eq))
    {
      SkipWhite();
      q, eq := ps, ps;
      if ps == |s| {
        return '\0', q, eq;
      }
      ret := s[ps];
      if s[ps] == '>' {
        ps := ps + 1;
        if ps < |s| && s[ps] == '>' {
          ret := '+';
          ps := ps + 1;
        }
      } else if IsSymbol(s[ps]) {
        ps := ps + 1;
      } else {
        ret := 'a';
        while ps < |s| && !IsSpace(s[ps]) && !IsSymbol(s[ps])
          invariant q <= ps <= |s| && WordEnd(s, ps) == WordEnd(s, q)
          decreases |s| - ps
        {
          ps := ps + 1;
        }
      }
      eq := ps;
      SkipWhite();
    }

    /** peek: is the next token one of these? */
    method Peek(toks: string) returns (b: bool)
      requires ps <= |s| && forall i | 0 <= i < |toks| :: IsSymbol(toks[i])
      modifies this
      ensures ps == SkipSpace(s, old(ps)) && Rest() == old(Rest())
      ensures b <==> Rest().Then? && OneOf(Rest().head, toks)
    {
      SkipWhite();
      SkipTwice(s, ps);
      b := ps < |s| && s[ps] in toks;
    }

    method PeekRedir() returns (b: bool)
      requires ps <= |s|
      modifies this
      ensures ps == SkipSpace(s, old(ps)) && Rest() == old(Rest())
      ensures b <==> Rest().StartsRedir()
    {
      b := Peek("<>");
      if Rest().Then? {
        OneOfRedir(Rest().head);
      }
    }

    method PeekStop() returns (b: bool)
      requires ps <= |s|
      modifies this
      ensures ps == SkipSpace(s, old(ps)) && Rest() == old(Rest())
      ensures b <==> Rest().Then? && EndsExec(Rest())
    {
      b := Peek("|)&;");
      if Rest().Then? {
        OneOfStop(Rest().head);
      }
    }

    /** parseredirs: the redirections at the cursor. */
    method ParseRedirList() returns (ok: bool, list: seq<Redirect<Span>>)
      requires ps <= |s|
      modifies this
      ensures old(ps) <= ps <= |s|
      ensures if ok then ParseRedirs(old(Rest())) == Redirs(list, Rest()) else ParseRedirs(old(Rest())) == NoFile
    {
      list := [];
      var more := PeekRedir();
      while more
        invariant old(ps) <= ps <= |s|
        invariant more <==> Rest().StartsRedir()
        invariant ParseRedirs(old(Rest())) == Behind(list, ParseRedirs(Rest()))
        decreases |s| - ps
      {
        ghost var t := Rest();
        var tok, _, _ := GetToken();
        var w, q, eq := GetToken();
        if w != 'a' {
          return false, list;
        }
        var redir := Opened(tok, Span(q, eq));
        assert ParseRedirs(t) == Behind([redir], ParseRedirs(Rest()));
        BehindOne(list, redir, ParseRedirs(Rest()));
        list := list + [redir];
        more := PeekRedir();
      }
      ok := true;
      BehindAll(list, Rest());
    }

    /** parseexec, when the command does not start with '('. */
    method ParseWords() returns (r: Outcome)
      requires ps <= |s| && !Rest().Starts('(')
      modifies this
      ensures old(ps) <= ps <= |s|
      ensures Yields(ParseExec(old(Rest())), r, Rest())
    {
      var ok, list := ParseRedirList();
      if ok {
        r := ParseArgLoop(list);
      } else {
        r := Fail(MissingFile);
      }
    }

    /** The loop of parseexec over the arguments. */
    method ParseArgLoop(list0: seq<Redirect<Span>>) returns (r: Outcome)
      requires ps <= |s|
      modifies this
      ensures old(ps) <= ps <= |s|
      ensures Yields(ParseArgs([], list0, old(Rest())), r, Rest())
    {
      var args: seq<Span>, list := [], list0;
      var stop := PeekStop();
      while !stop
        invariant old(ps) <= ps <= |s|
        invariant stop <==> Rest().Then? && EndsExec(Rest())
        invariant ParseArgs([], list0, old(Rest())) == ParseArgs(args, list, Rest())
        decreases |s| - ps, !stop
      {
        var tok, q, eq := GetToken();
        if tok == '\0' {
          break;
        }
        if tok != 'a' {
          return Fail(Syntax);
        }
        args := args + [Span(q, eq)];
        if |args| >= MAXARGS {
          return Fail(TooManyArgs);
        }
        var good, more := ParseRedirList();
        if !good {
          return Fail(MissingFile);
        }
        list := list + more;
        stop := PeekStop();
      }
      r := Tree(Wrap(Exec(args), list));
    }

    /** parseblock: a parenthesised line and its redirections. */
    method ParseBlock() returns (r: Outcome)
      requires ps <= |s| && Rest().Starts('(')
      modifies this
      ensures old(ps) <= ps <= |s|
      ensures Yields(ParseExec(old(Rest())), r, Rest())
      decreases |s| - ps, 0
    {
      var _, _, _ := GetToken();
      r := ParseLineAt();
      if r.Fail? {
        return;
      }
      var close := Peek(")");
      if !close {
        return Fail(MissingParen);
      }
      var _, _, _ := GetToken();
      var ok, list := ParseRedirList();
      r := if ok then Tree(Wrap(r.c, list)) else Fail(MissingFile);
    }

    method ParseExecAt() returns (r: Outcome)
      requires ps <= |s|
      modifies this
      ensures old(ps) <= ps <= |s|
      ensures Yields(ParseExec(old(Rest())), r, Rest())
      decreases |s| - ps, 1
    {
      var open := Peek("(");
      if open {
        r := ParseBlock();
      } else {
        r := ParseWords();
      }
    }

    method ParsePipeAt() returns (r: Outcome)
      requires ps <= |s|
      modifies this
      ensures old(ps) <= ps <= |s|
      ensures Yields(ParsePipe(old(Rest())), r, Rest())
      decreases |s| - ps, 2
    {
      r := ParseExecAt();
      if r.Fail? {
        return;
      }
      var bar := Peek("|");
      if bar {
        var _, _, _ := GetToken();
        var r2 := ParsePipeAt();
        r := if r2.Fail? then r2 else Tree(Pipe(r.c, r2.c));
      }
    }

    method ParseLineAt() returns (r: Outcome)
      requires ps <= |s|
      modifies this
      ensures old(ps) <= ps <= |s|
      ensures Yields(ParseLine(old(Rest())), r, Rest())
      decreases |s| - ps, 3
    {
      r := ParsePipeAt();
      if r.Fail? {
        return;
      }
      ghost var c0, t0 := r.c, Rest();
      var amp := Peek("&");
      while amp
        invariant old(ps) <= ps <= |s| && r.Tree?
        invariant amp <==> Rest().Starts('&')
        invariant ParseBacks(c0, t0) == ParseBacks(r.c, Rest())
        decreases |s| - ps
      {
        var _, _, _ := GetToken();
        r := Tree(Back(r.c));
        amp := Peek("&");
      }
      var semi := Peek(";");
      if semi {
        var _, _, _ := GetToken();
        var r2 := ParseLineAt();
        r := if r2.Fail? then r2 else Tree(Seq(r.c, r2.c));
      }
    }

    /** parsecmd, up to nulterminate. It terminates on every line. */
    method ParseCmd() returns (r: Outcome)
      requires ps == 0
      modifies this
      ensures Yields(ParseAll(Lex(s, 0)), r, End)
    {
      r := ParseLineAt();
      if r.Fail? {
        return;
      }
      var _ := Peek("");
      SkipTwice(s, ps);
      if ps != |s| {
        r := Fail(Syntax);
      }
    }
  }
}
