/** nulterminate: cutting the words of a parsed command out of its line by
    overwriting the byte after each with NUL. */
module ShellTerminate {
  import opened ShellGrammar
  import opened ShellLex
  import opened Shell

  /** A span holding a whole word: word characters inside, none after. */
  ghost predicate WordSpan(s: string, w: Span)
  {
    && w.q < w.eq <= |s|
    && (forall k | w.q <= k < w.eq :: IsWordChar(s[k]))
    && (w.eq < |s| ==> !IsWordChar(s[w.eq]))
  }

  ghost predicate ToksOk(s: string, t: Toks<Span>)
  {
    t.Then? ==> (t.head.Word? ==> WordSpan(s, t.head.w)) && ToksOk(s, t.rest)
  }

  ghost predicate ListOk(s: string, list: seq<Redirect<Span>>)
  {
    forall i | 0 <= i < |list| :: WordSpan(s, list[i].file)
  }

  ghost predicate ArgsOk(s: string, args: seq<Span>)
  {
    forall i | 0 <= i < |args| :: WordSpan(s, args[i])
  }

  /** Every word in the tree is a word span of the line. */
  ghost predicate CmdOk(s: string, c: Cmd<Span>)
  {
    match c
    case Exec(args) => ArgsOk(s, args)
    case Redir(d, r) => CmdOk(s, d) && WordSpan(s, r.file)
    case Pipe(l, r) => CmdOk(s, l) && CmdOk(s, r)
    case Seq(l, r) => CmdOk(s, l) && CmdOk(s, r)
    case Back(d) => CmdOk(s, d)
  }

  ghost predicate ParsedOk(s: string, r: Parsed<Span>)
  {
    r.Ok? ==> CmdOk(s, r.cmd) && ToksOk(s, r.rest)
  }

  lemma {:induction false} LexOk(s: string, i: nat)
    requires i <= |s|
    ensures ToksOk(s, Lex(s, i))
    decreases |s| - i
  {
    var j := SkipSpace(s, i);
    if j < |s| {
      LexOk(s, TokenAt(s, j).1);
    }
  }

  lemma {:induction false} RedirsOk(s: string, t: Toks<Span>)
    requires ToksOk(s, t)
    ensures ParseRedirs(t).Redirs? ==> ListOk(s, ParseRedirs(t).list) && ToksOk(s, ParseRedirs(t).rest)
    decreases t
  {
    if t.StartsRedir() && t.rest.Then? && t.rest.head.Word? {
      RedirsOk(s, t.rest.rest);
    }
  }

  lemma {:induction false} WrapOk(s: string, c: Cmd<Span>, list: seq<Redirect<Span>>)
    requires CmdOk(s, c) && ListOk(s, list)
    ensures CmdOk(s, Wrap(c, list))
    decreases |list|
  {
    if list != [] {
      WrapOk(s, Redir(c, list[0]), list[1..]);
    }
  }

  lemma {:induction false} ParseArgsOk(s: string, args: seq<Span>, list: seq<Redirect<Span>>, t: Toks<Span>)
    requires ArgsOk(s, args) && ListOk(s, list) && ToksOk(s, t)
    ensures ParsedOk(s, ParseArgs(args, list, t))
    decreases t.Size()
  {
    if EndsExec(t) {
      WrapOk(s, Exec(args), list);
    } else if t.head.Word? && |args| + 1 < MAXARGS {
      RedirsOk(s, t.rest);
      var r := ParseRedirs(t.rest);
      if r.Redirs? {
        ParseArgsOk(s, args + [t.head.w], list + r.list, r.rest);
      }
    }
  }

  lemma {:induction false} ParseExecOk(s: string, t: Toks<Span>)
    requires ToksOk(s, t)
    ensures ParsedOk(s, ParseExec(t))
    decreases t.Size(), 0
  {
    if t.Starts('(') {
      ParseLineOk(s, t.rest);
      var r := ParseLine(t.rest);
      if r.Ok? && r.rest.Starts(')') {
        RedirsOk(s, r.rest.rest);
        var rs := ParseRedirs(r.rest.rest);
        if rs.Redirs? {
          WrapOk(s, r.cmd, rs.list);
        }
      }
    } else {
      RedirsOk(s, t);
      var rs := ParseRedirs(t);
      if rs.Redirs? {
        ParseArgsOk(s, [], rs.list, rs.rest);
      }
    }
  }

  lemma {:induction false} ParsePipeOk(s: string, t: Toks<Span>)
    requires ToksOk(s, t)
    ensures ParsedOk(s, ParsePipe(t))
    decreases t.Size(), 1
  {
    ParseExecOk(s, t);
    var r := ParseExec(t);
    if r.Ok? && r.rest.Starts('|') {
      ParsePipeOk(s, r.rest.rest);
    }
  }

  lemma {:induction false} ParseBacksOk(s: string, c: Cmd<Span>, t: Toks<Span>)
    requires CmdOk(s, c) && ToksOk(s, t)
    ensures CmdOk(s, ParseBacks(c, t).0) && ToksOk(s, ParseBacks(c, t).1)
    decreases t
  {
    if t.Starts('&') {
      ParseBacksOk(s, Back(c), t.rest);
    }
  }

  lemma {:induction false} ParseLineOk(s: string, t: Toks<Span>)
    requires ToksOk(s, t)
    ensures ParsedOk(s, ParseLine(t))
    decreases t.Size(), 2
  {
    ParsePipeOk(s, t);
    var p := ParsePipe(t);
    if p.Ok? {
      ParseBacksOk(s, p.cmd, p.rest);
      var r := ParseBacks(p.cmd, p.rest);
      if r.1.Starts(';') {
        ParseLineOk(s, r.1.rest);
      }
    }
  }

  // ---------------------------------------------------------------
  // Reading and cutting the line.

  const NUL := '\0'

  /** The C string that starts at index q of memory b. */
  function CString(b: string, q: nat): string
    decreases |b| - q
  {
    if q >= |b| || b[q] == NUL then "" else [b[q]] + CString(b, q + 1)
  }

  lemma {:induction false} CStringIs(b: string, q: nat, e: nat)
    requires q <= e < |b| && b[e] == NUL
    requires forall k | q <= k < e :: b[k] != NUL
    ensures CString(b, q) == b[q..e]
    decreases e - q
  {
    if q < e {
      CStringIs(b, q + 1, e);
      assert b[q..e] == [b[q]] + b[q + 1..e];
    }
  }

  /** The words of a command, in any order. */
  ghost function Words(c: Cmd<Span>): set<Span>
  {
    match c
    case Exec(args) => set i | 0 <= i < |args| :: args[i]
    case Redir(d, r) => Words(d) + {r.file}
    case Pipe(l, r) => Words(l) + Words(r)
    case Seq(l, r) => Words(l) + Words(r)
    case Back(d) => Words(d)
  }

  ghost predicate IsEnd(c: Cmd<Span>, i: nat)
  {
    exists w | w in Words(c) :: w.eq == i
  }

  /** b1 is b0 with NUL at the end of every word of c. */
  ghost predicate Cut(b0: string, c: Cmd<Span>, b1: string)
  {
    |b1| == |b0| && forall i | 0 <= i < |b0| :: b1[i] == if IsEnd(c, i) then NUL else b0[i]
  }

  ghost predicate Bounded(c: Cmd<Span>, n: nat)
  {
    forall w | w in Words(c) :: w.eq < n
  }

  /** nulterminate. */
  method NulTerminate(buf: array<char>, c: Cmd<Span>)
    requires Bounded(c, buf.Length)
    modifies buf
    ensures Cut(old(buf[..]), c, buf[..])
    decreases c
  {
    match c
    case Exec(args) =>
      var i := 0;
      while i < |args|
        invariant 0 <= i <= |args|
        invariant forall k | 0 <= k < buf.Length ::
          buf[k] == if exists j | 0 <= j < i :: args[j].eq == k then NUL else old(buf[k])
      {
        assert args[i] in Words(c);
        buf[args[i].eq] := NUL;
        i := i + 1;
      }
      forall k | 0 <= k < buf.Length
        ensures IsEnd(c, k) <==> exists j | 0 <= j < |args| :: args[j].eq == k
      {
        if j :| 0 <= j < |args| && args[j].eq == k {
          assert args[j] in Words(c);
        }
      }
    case Redir(d, r) =>
      assert forall w | w in Words(d) :: w in Words(c);
      NulTerminate(buf, d);
      assert r.file in Words(c);
      buf[r.file.eq] := NUL;
      assert forall k | 0 <= k < buf.Length :: IsEnd(c, k) <==> IsEnd(d, k) || k == r.file.eq;
    case Pipe(l, r) =>
      assert forall w | w in Words(c) :: w in Words(l) || w in Words(r);
      NulTerminate(buf, l);
      NulTerminate(buf, r);
      assert forall k | 0 <= k < buf.Length :: IsEnd(c, k) <==> IsEnd(l, k) || IsEnd(r, k);
    case Seq(l, r) =>
      assert forall w | w in Words(c) :: w in Words(l) || w in Words(r);
      NulTerminate(buf, l);
      NulTerminate(buf, r);
      assert forall k | 0 <= k < buf.Length :: IsEnd(c, k) <==> IsEnd(l, k) || IsEnd(r, k);
    case Back(d) =>
      NulTerminate(buf, d);
      assert forall k | 0 <= k < buf.Length :: IsEnd(c, k) <==> IsEnd(d, k);
  }

  lemma {:induction false} WordsAreSpans(s: string, c: Cmd<Span>, w: Span)
    requires CmdOk(s, c) && w in Words(c)
    ensures WordSpan(s, w)
  {
    match c
    case Exec(args) =>
    case Redir(d, r) => if w in Words(d) { WordsAreSpans(s, d, w); }
    case Pipe(l, r) => if w in Words(l) { WordsAreSpans(s, l, w); } else { WordsAreSpans(s, r, w); }
    case Seq(l, r) => if w in Words(l) { WordsAreSpans(s, l, w); } else { WordsAreSpans(s, r, w); }
    case Back(d) => WordsAreSpans(s, d, w);
  }

  /** No terminator lands inside a word, so every word, read as a C string,
      is the text the parser recognised. */
  lemma CutKeepsWords(s: string, b0: string, c: Cmd<Span>, b1: string, w: Span)
    requires s < b0 && (forall k | 0 <= k < |s| :: s[k] != NUL)
    requires CmdOk(s, c) && Cut(b0, c, b1) && w in Words(c)
    ensures w.q < w.eq <= |s| && CString(b1, w.q) == s[w.q..w.eq]
  {
    WordsAreSpans(s, c, w);
    assert IsEnd(c, w.eq);
    forall k | w.q <= k < w.eq ensures b1[k] == s[k] {
      if IsEnd(c, k) {
        var v :| v in Words(c) && v.eq == k;
        WordsAreSpans(s, c, v);
      }
    }
    CStringIs(b1, w.q, w.eq);
    assert b1[w.q..w.eq] == s[w.q..w.eq];
  }

  method StrLen(buf: array<char>) returns (n: nat)
    requires exists e | 0 <= e < buf.Length :: buf[e] == NUL
    ensures n < buf.Length && buf[n] == NUL && forall k | 0 <= k < n :: buf[k] != NUL
  {
    n := 0;
    while buf[n] != NUL
      invariant n < buf.Length && forall k | 0 <= k < n :: buf[k] != NUL
      decreases buf.Length - n
    {
      n := n + 1;
    }
  }

  /** parsecmd on a line in memory: the tree it returns points into the line,
      and the line now holds each of its words as a C string. */
  method ParseCmdInPlace(buf: array<char>) returns (r: Outcome)
    requires exists e | 0 <= e < buf.Length :: buf[e] == NUL
    modifies buf
    ensures var s := CString(old(buf[..]), 0);
            && Yields(ParseAll(Lex(s, 0)), r, End)
            && (r.Fail? ==> buf[..] == old(buf[..]))
            && (r.Tree? ==> Cut(old(buf[..]), r.c, buf[..]))
            && (r.Tree? ==> forall w | w in Words(r.c) :: w.q < w.eq <= |s| && CString(buf[..], w.q) == s[w.q..w.eq])
  {
    var n := StrLen(buf);
    ghost var b0 := buf[..];
    CStringIs(b0, 0, n);
    var s := buf[..n];
    assert s == CString(b0, 0) && s < b0;
    var parser := new Parser(s);
    r := parser.ParseCmd();
    if r.Tree? {
      TreeOk(s, r.c);
      NulTerminate(buf, r.c);
      forall w | w in Words(r.c) ensures w.q < w.eq <= |s| && CString(buf[..], w.q) == s[w.q..w.eq] {
        CutKeepsWords(s, b0, r.c, buf[..], w);
      }
    }
  }

  lemma TreeOk(s: string, c: Cmd<Span>)
    requires ParseAll(Lex(s, 0)) == Ok(c, End)
    ensures CmdOk(s, c) && Bounded(c, |s| + 1)
  {
    LexOk(s, 0);
    ParseLineOk(s, Lex(s, 0));
    forall w | w in Words(c) ensures w.eq < |s| + 1 { WordsAreSpans(s, c, w); }
  }
}
