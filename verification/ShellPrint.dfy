/** Writing a command out as a line of text, and reading it back. */
module ShellPrint {
  import opened ShellGrammar
  import opened ShellLex

  function TokString(t: Tok<string>): string
  {
    match t
    case Word(w) => w
    case Sym(c) => if c == '+' then ">>" else [c]
  }

  /** The tokens, each after one space. */
  function Spell(t: Toks<string>): string
  {
    if t.End? then "" else " " + TokString(t.head) + Spell(t.rest)
  }

  /** A word the scanner delivers in one piece. */
  ghost predicate WfWord(w: string)
  {
    w != "" && forall i | 0 <= i < |w| :: IsWordChar(w[i]) && w[i] != '\0'
  }

  ghost predicate WfTok(t: Tok<string>)
  {
    match t
    case Word(w) => WfWord(w)
    case Sym(c) => IsSymbol(c) || c == '+'
  }

  ghost predicate WfToks(t: Toks<string>)
  {
    t.Then? ==> WfTok(t.head) && WfToks(t.rest)
  }

  ghost predicate WfWords(c: Cmd<string>)
  {
    match c
    case Exec(args) => forall i | 0 <= i < |args| :: WfWord(args[i])
    case Redir(d, r) => WfWords(d) && WfWord(r.file)
    case Pipe(l, r) => WfWords(l) && WfWords(r)
    case Seq(l, r) => WfWords(l) && WfWords(r)
    case Back(d) => WfWords(d)
  }

  lemma {:induction false} WordEndIs(s: string, i: nat, e: nat)
    requires i <= e <= |s|
    requires forall k | i <= k < e :: IsWordChar(s[k])
    requires e < |s| ==> !IsWordChar(s[e])
    ensures WordEnd(s, i) == e
    decreases e - i
  {
    if i < e {
      WordEndIs(s, i + 1, e);
    }
  }

  /** The scanner reads one spelled token back. */
  lemma LexOne(pre: string, t: Tok<string>, post: string)
    requires WfTok(t) && (post == "" || post[0] == ' ')
    ensures var s := pre + (" " + TokString(t) + post);
            var r := SkipSpace(s, |pre|);
            && r == |pre| + 1 < |s|
            && TokText(s, TokenAt(s, r).0) == t
            && TokenAt(s, r).1 == r + |TokString(t)|
  {
    var w := TokString(t);
    var s := pre + (" " + w + post);
    var j := |pre| + 1;
    assert s[|pre|] == ' ' && s[j] == w[0];
    assert SkipSpace(s, |pre|) == SkipSpace(s, j) == j;
    var e := j + |w|;
    assert s[j..e] == w;
    assert e < |s| ==> s[e] == post[0];
    if t.Word? {
      forall k | j <= k < e ensures IsWordChar(s[k]) { assert s[k] == w[k - j]; }
      WordEndIs(s, j, e);
    } else if t.c == '+' {
      assert s[j + 1] == w[1];
    }
  }

  lemma {:induction false} LexSpell(pre: string, t: Toks<string>)
    requires WfToks(t)
    ensures var s := pre + Spell(t); ToksText(s, Lex(s, |pre|)) == t
    decreases t
  {
    var s := pre + Spell(t);
    if t.Then? {
      var post := Spell(t.rest);
      LexOne(pre, t.head, post);
      var pre1 := pre + " " + TokString(t.head);
      assert s == pre + (" " + TokString(t.head) + post) == pre1 + post;
      LexSpell(pre1, t.rest);
    } else {
      assert s == pre;
    }
  }

  // Printed tokens are well formed.

  lemma {:induction false} WfPrintRedirs(list: seq<Redirect<string>>, k: Toks<string>)
    requires WfToks(k) && forall i | 0 <= i < |list| :: WfWord(list[i].file)
    ensures WfToks(PrintRedirs(list, k))
    decreases |list|
  {
    if list != [] {
      WfPrintRedirs(list[1..], k);
    }
  }

  lemma {:induction false} WfPrintArgs(args: seq<string>, k: Toks<string>)
    requires WfToks(k) && forall i | 0 <= i < |args| :: WfWord(args[i])
    ensures WfToks(PrintArgs(args, k))
    decreases |args|
  {
    if args != [] {
      WfPrintArgs(args[1..], k);
    }
  }

  lemma {:induction false} WfWordParts(c: Cmd<string>)
    requires WfWords(c)
    ensures WfWords(Bottom(c))
    ensures forall i | 0 <= i < |Redirections(c)| :: WfWord(Redirections(c)[i].file)
  {
    if c.Redir? {
      WfWordParts(c.cmd);
    }
  }

  lemma {:induction false} WfPrintExec(c: Cmd<string>, k: Toks<string>)
    requires WfWords(c) && WfToks(k)
    ensures WfToks(PrintExec(c, k))
    decreases c, 3
  {
    WfWordParts(c);
    var b := Bottom(c);
    WfPrintRedirs(Redirections(c), k);
    var k1 := PrintRedirs(Redirections(c), k);
    if b.Exec? {
      WfPrintArgs(b.args, k1);
    } else {
      WfPrintParen(b, Then(Sym(')'), k1));
    }
  }

  lemma {:induction false} WfPrintParen(c: Cmd<string>, k: Toks<string>)
    requires WfWords(c) && WfToks(k) && (c.Pipe? || c.Seq? || c.Back?)
    ensures WfToks(PrintParen(c, k))
    decreases c, 2
  {
    if c.Pipe? {
      WfPrintPipe(c, k);
    } else if c.Back? {
      WfPrintBack(c, k);
    } else {
      WfPrintLine(c, k);
    }
  }

  lemma {:induction false} WfPrintPipe(c: Cmd<string>, k: Toks<string>)
    requires WfWords(c) && WfToks(k)
    ensures WfToks(PrintPipe(c, k))
    decreases c, if c.Pipe? then 0 else 4
  {
    if c.Pipe? {
      WfPrintPipe(c.right, k);
      WfPrintExec(c.left, Then(Sym('|'), PrintPipe(c.right, k)));
    } else {
      WfPrintExec(c, k);
    }
  }

  lemma {:induction false} WfPrintBack(c: Cmd<string>, k: Toks<string>)
    requires WfWords(c) && WfToks(k)
    ensures WfToks(PrintBack(c, k))
    decreases c, if c.Back? then 0 else 5
  {
    if c.Back? {
      WfPrintBack(c.bg, Then(Sym('&'), k));
    } else {
      WfPrintPipe(c, k);
    }
  }

  lemma {:induction false} WfPrintLine(c: Cmd<string>, k: Toks<string>)
    requires WfWords(c) && WfToks(k)
    ensures WfToks(PrintLine(c, k))
    decreases c, if c.Seq? then 0 else 6
  {
    if c.Seq? {
      WfPrintLine(c.second, k);
      WfPrintBack(c.first, Then(Sym(';'), PrintLine(c.second, k)));
    } else {
      WfPrintBack(c, k);
    }
  }

  function Print(c: Cmd<string>): string
  {
    Spell(PrintLine(c, End))
  }

  /** For every expressible command, parsing the line it prints as succeeds
      and gives the command back, word for word. */
  lemma RoundTrip(c: Cmd<string>)
    requires WfCmd(c) && WfWords(c)
    ensures var r := ParseAll(Lex(Print(c), 0)); r.Ok? && CmdText(Print(c), r.cmd) == c
  {
    var t, s := PrintLine(c, End), Print(c);
    assert ToksText(s, Lex(s, 0)) == t by {
      WfPrintLine(c, End);
      LexSpell("", t);
      assert "" + s == s;
    }
    TokenRoundTrip(c);
    ParseAllText(s, Lex(s, 0));
  }
}
