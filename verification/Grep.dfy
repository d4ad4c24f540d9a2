/** The matcher of grep.c against a declarative meaning of patterns. Strings
    are C strings without their NUL. */
module Grep {

  // ---------------------------------------------------------------
  // What a pattern means.

  datatype Item = Lit(c: char) | Any | Star(c: char) | AtEnd

  datatype Pattern = Done | Then(item: Item, rest: Pattern)

  /** A pattern once a leading '^' is off: a character followed by '*' is a
      Star, and '$' is AtEnd only as the last character. */
  function Compile(re: string): Pattern
  {
    if re == "" then Done
    else if |re| >= 2 && re[1] == '*' then Then(Star(re[0]), Compile(re[2..]))
    else if re == "$" then Then(AtEnd, Done)
    else Then(if re[0] == '.' then Any else Lit(re[0]), Compile(re[1..]))
  }

  predicate Fits(c: char, x: char)
  {
    c == '.' || c == x
  }

  /** The pieces of text an item stands for. */
  ghost predicate Stands(it: Item, piece: string)
  {
    match it
    case Lit(c) => piece == [c]
    case Any => |piece| == 1
    case Star(c) => forall i | 0 <= i < |piece| :: Fits(c, piece[i])
    case AtEnd => piece == ""
  }

  /** One piece of text for each item of a pattern. */
  datatype Pieces = NoPieces | Piece(text: string, rest: Pieces)

  ghost predicate Spells(p: Pattern, ps: Pieces)
  {
    match p
    case Done => ps.NoPieces?
    case Then(it, rest) => ps.Piece? && Stands(it, ps.text) && Spells(rest, ps.rest)
  }

  ghost function Joined(ps: Pieces): string
  {
    if ps.NoPieces? then "" else ps.text + Joined(ps.rest)
  }

  ghost predicate Anchored(p: Pattern)
  {
    p.Then? && if p.rest.Done? then p.item == AtEnd else Anchored(p.rest)
  }

  /** A prefix of text is in the pattern's language; all of text is, if the
      pattern ends in AtEnd. */
  ghost predicate MatchesHere(p: Pattern, text: string)
  {
    exists ps | Spells(p, ps) :: Joined(ps) <= text && (Anchored(p) ==> Joined(ps) == text)
  }

  /** What grep's match promises for a pattern and a line. */
  ghost predicate Matches(re: string, text: string)
  {
    if re != "" && re[0] == '^' then MatchesHere(Compile(re[1..]), text)
    else exists i | 0 <= i <= |text| :: MatchesHere(Compile(re), text[i..])
  }

  // ---------------------------------------------------------------
  // The first item decides.

  lemma MatchSplit(it: Item, rest: Pattern, text: string) returns (k: nat)
    requires it != AtEnd && MatchesHere(Then(it, rest), text)
    ensures k <= |text| && Stands(it, text[..k]) && MatchesHere(rest, text[k..])
  {
    var p := Then(it, rest);
    var ps :| Spells(p, ps) && Joined(ps) <= text && (Anchored(p) ==> Joined(ps) == text);
    k := |ps.text|;
    assert text[..k] == ps.text;
    assert Joined(ps.rest) <= text[k..];
    assert Spells(rest, ps.rest);
  }

  lemma MatchJoin(it: Item, rest: Pattern, text: string, k: nat)
    requires it != AtEnd && k <= |text| && Stands(it, text[..k]) && MatchesHere(rest, text[k..])
    ensures MatchesHere(Then(it, rest), text)
  {
    var qs :| Spells(rest, qs) && Joined(qs) <= text[k..] && (Anchored(rest) ==> Joined(qs) == text[k..]);
    var ps := Piece(text[..k], qs);
    assert text == text[..k] + text[k..];
    assert Spells(Then(it, rest), ps);
    assert Joined(ps) <= text;
  }

  lemma MatchesDone(text: string)
    ensures MatchesHere(Done, text)
  {
    assert Spells(Done, NoPieces);
  }

  lemma MatchesEnd(text: string)
    ensures MatchesHere(Then(AtEnd, Done), text) <==> text == ""
  {
    var p, ps := Then(AtEnd, Done), Piece("", NoPieces);
    assert Spells(Done, ps.rest) && Spells(p, ps) && Joined(ps) == "";
    if MatchesHere(p, text) {
      var qs :| Spells(p, qs) && Joined(qs) <= text && (Anchored(p) ==> Joined(qs) == text);
      assert Spells(Done, qs.rest) && Joined(qs) == "";
    }
  }

  /** One character, then the rest. */
  lemma MatchesOne(it: Item, rest: Pattern, text: string)
    requires it.Lit? || it.Any?
    ensures MatchesHere(Then(it, rest), text) <==> text != "" && Stands(it, [text[0]]) && MatchesHere(rest, text[1..])
  {
    if MatchesHere(Then(it, rest), text) {
      var k := MatchSplit(it, rest, text);
      assert k == 1 && text[..1] == [text[0]];
    }
    if text != "" && Stands(it, [text[0]]) && MatchesHere(rest, text[1..]) {
      assert text[..1] == [text[0]];
      MatchJoin(it, rest, text, 1);
    }
  }

  /** A star: some number of fitting characters, then the rest. */
  lemma MatchesStar(c: char, rest: Pattern, text: string)
    ensures MatchesHere(Then(Star(c), rest), text) <==>
            exists k | 0 <= k <= |text| :: (forall i | 0 <= i < k :: Fits(c, text[i])) && MatchesHere(rest, text[k..])
  {
    if MatchesHere(Then(Star(c), rest), text) {
      var k := MatchSplit(Star(c), rest, text);
      forall i | 0 <= i < k ensures Fits(c, text[i]) { assert text[..k][i] == text[i]; }
    }
    if k :| 0 <= k <= |text| && (forall i | 0 <= i < k :: Fits(c, text[i])) && MatchesHere(rest, text[k..]) {
      MatchJoin(Star(c), rest, text, k);
    }
  }

  // ---------------------------------------------------------------
  // The matcher. Text is passed as what is left of it.

  method MatchHere(re: string, text: string) returns (b: bool)
    ensures b <==> MatchesHere(Compile(re), text)
    decreases |re|, 1
  {
    if re == "" {
      MatchesDone(text);
      return true;
    }
    if |re| >= 2 && re[1] == '*' {
      b := MatchStar(re[0], re[2..], text);
      return;
    }
    if re[0] == '$' && |re| == 1 {
      MatchesEnd(text);
      return text == "";
    }
    var rest := Compile(re[1..]);
    MatchesOne(if re[0] == '.' then Any else Lit(re[0]), rest, text);
    if text != "" && (re[0] == '.' || re[0] == text[0]) {
      b := MatchHere(re[1..], text[1..]);
    } else {
      b := false;
    }
  }

  method MatchStar(c: char, re: string, text: string) returns (b: bool)
    ensures b <==> MatchesHere(Then(Star(c), Compile(re)), text)
    decreases |re|, 2
  {
    MatchesStar(c, Compile(re), text);
    var i := 0;
    while true
      invariant 0 <= i <= |text|
      invariant forall j | 0 <= j < i :: Fits(c, text[j])
      invariant forall k | 0 <= k < i :: !MatchesHere(Compile(re), text[k..])
      decreases |text| - i
    {
      b := MatchHere(re, text[i..]);
      if b {
        return;
      }
      if !(i < |text| && (text[i] == c || c == '.')) {
        return;
      }
      i := i + 1;
    }
  }

  /** match: does the pattern match anywhere in the text? */
  method Match(re: string, text: string) returns (b: bool)
    ensures b <==> Matches(re, text)
  {
    if re != "" && re[0] == '^' {
      b := MatchHere(re[1..], text);
      return;
    }
    var i := 0;
    while true
      invariant 0 <= i <= |text|
      invariant forall k | 0 <= k < i :: !MatchesHere(Compile(re), text[k..])
      decreases |text| - i
    {
      b := MatchHere(re, text[i..]);
      if b || i == |text| {
        return;
      }
      i := i + 1;
    }
  }
}
