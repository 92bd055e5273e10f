/**
  Patterns with a backslash that is not kept, that is, not followed by a closing bracket or a
  brace. The compiler passes such a backslash on unescaped, and in the compiled text it changes
  what follows. This module shows that the change is always observable: whatever follows the
  backslash, some path is decided differently by the glob and by the compiled text.
*/
module LooseBackslashes {
  import opened PythonRegex
  import opened Ownership

  // ---- shortest paths --------------------------------------------------------------------------

  predicate IsStar(p: string)
    requires p != ""
  {
    StartsDoubleSlash(p) || StartsDouble(p) || p[0] == '*'
  }

  /** A shortest path that a glob matches: stars stand for nothing. */
  function Shortest(p: string): string
    decreases |p|
  {
    if p == "" then ""
    else (if IsStar(p) then "" else if p[0] == '?' then "x" else [p[0]]) + Shortest(p[StepLength(p)..])
  }

  lemma {:induction false} ShortestMatches(p: string)
    ensures GlobMatch(p, Shortest(p))
    ensures OneLine(p) ==> OneLine(Shortest(p))
    decreases |p|
  {
    if p == "" {
    } else {
      var q := p[StepLength(p)..];
      var s := Shortest(p);
      ShortestMatches(q);
      if IsStar(p) {
        assert s == Shortest(q) && s[0..] == s;
        assert SlashFree(s, 0);
      } else {
        assert s[1..] == Shortest(q);
        assert p[0] in p;
      }
    }
  }

  lemma {:induction false} ShortestIsShortest(p: string, s: string)
    requires GlobMatch(p, s)
    ensures |Shortest(p)| <= |s|
    decreases |p|
  {
    if p == "" {
    } else {
      assert s[0..] == s;
      var k := GlobStepEnds(p, s, 0);
      ShortestIsShortest(p[StepLength(p)..], s[k..]);
    }
  }

  // ---- a pattern followed by a backslash ----------------------------------------------------------

  predicate Joins(x: string) {
    x != "" && x[0] == '\\'
  }

  lemma StepJoins(q: string, x: string)
    requires q != "" && Joins(x)
    ensures StartsDoubleSlash(q + x) == StartsDoubleSlash(q) && StartsDouble(q + x) == StartsDouble(q)
    ensures (q + x)[0] == q[0] && StepLength(q + x) == StepLength(q) && StepText(q + x) == StepText(q)
    ensures (q + x)[StepLength(q)..] == q[StepLength(q)..] + x
  {
  }

  lemma {:induction false} BodyJoins(q: string, x: string)
    requires Joins(x)
    ensures Body(q + x) == Body(q) + Body(x)
    decreases |q|
  {
    if q == "" {
      assert q + x == x;
    } else {
      var t, q' := StepText(q), q[StepLength(q)..];
      StepJoins(q, x);
      BodyJoins(q', x);
      BodyStepAs(q, t, q');
      BodyStepAs(q + x, t, q' + x);
      JoinTexts(Body(q), Body(q + x), t, Body(q'), Body(q' + x), Body(x));
    }
  }

  lemma JoinTexts(b: string, bx: string, t: string, b': string, bx': string, x: string)
    requires b == t + b' && bx == t + bx' && bx' == b' + x
    ensures bx == b + x
  {
  }

  lemma BodyStep(p: string)
    requires p != ""
    ensures Body(p) == StepText(p) + Body(p[StepLength(p)..])
  {
  }

  lemma {:induction false} ShortestJoins(q: string, x: string)
    requires Joins(x)
    ensures Shortest(q + x) == Shortest(q) + Shortest(x)
    decreases |q|
  {
    if q == "" {
      assert q + x == x;
    } else {
      StepJoins(q, x);
      ShortestJoins(q[StepLength(q)..], x);
    }
  }

  /** A match of the whole splits into matches of the parts. */
  lemma {:induction false} GlobSplits(q: string, x: string, s: string, i: nat) returns (k: nat)
    requires Joins(x) && i <= |s| && GlobMatch(q + x, s[i..])
    ensures i <= k <= |s| && GlobMatch(q, s[i..k]) && GlobMatch(x, s[k..])
    decreases |q|
  {
    if q == "" {
      assert q + x == x && s[i..i] == "";
      k := i;
    } else {
      StepJoins(q, x);
      var m := GlobStepEnds(q + x, s, i);
      k := GlobSplits(q[StepLength(q)..], x, s, m);
      SubStep(q, s, i, m, k);
      GlobStepExtends(q, s[..k], i, m);
    }
  }

  lemma SubStep(q: string, s: string, i: nat, m: nat, k: nat)
    requires q != "" && i <= m <= k <= |s|
    ensures s[..k][m..] == s[m..k] && s[..k][i..] == s[i..k] && s[..k][i..m] == s[i..m]
    ensures StepMatches(q, s[..k], i, m) <==> StepMatches(q, s, i, m)
  {
    assert s[..k][i..m] == s[i..m];
  }

  // ---- matching with something in the middle -------------------------------------------------------

  /** `s` splits into a match of the glob `q`, a match of `mid` and a match of the glob `r`. */
  ghost predicate Splits(q: string, mid: seq<Piece>, r: string, s: string, i: nat, j: nat)
    requires i <= j <= |s|
  {
    GlobMatch(q, s[..i]) && MatchAt(mid, s, i, j) && GlobMatch(r, s[j..])
  }

  function Branch(q: string, mid: seq<Piece>, r: string): seq<Piece> {
    [Once(Start)] + (Front(q) + (mid + Pieces(r)))
  }

  lemma BranchMatches(q: string, mid: seq<Piece>, r: string, s: string, e: nat)
    requires OneLine(s) && e <= |s|
    ensures MatchAt(Branch(q, mid, r), s, 0, e) <==>
            e == |s| && exists i, j :: 0 <= i <= j <= |s| && Splits(q, mid, r, s, i, j)
  {
    var rest, b := mid + Pieces(r), Branch(q, mid, r);
    assert b[0] == Once(Start) && b[1..] == Front(q) + rest;
    assert MatchAt(b, s, 0, e) <==> MatchAt(Front(q) + rest, s, 0, e) by {
      assert MatchPiece(b[0], s, 0, 0);
    }
    MatchConcat(Front(q), rest, s, 0, e);
    forall i | 0 <= i <= e
      ensures MatchAt(Front(q), s, 0, i) <==> GlobMatch(q, s[..i])
      ensures MatchAt(rest, s, i, e) <==>
              e == |s| && exists j :: i <= j <= |s| && MatchAt(mid, s, i, j) && GlobMatch(r, s[j..])
    {
      FrontMatchesGlob(q, s, 0, i);
      assert s[0..i] == s[..i];
      RestMatches(mid, r, s, i, e);
    }
    if MatchAt(Front(q) + rest, s, 0, e) {
      var i :| 0 <= i <= e && MatchAt(Front(q), s, 0, i) && MatchAt(rest, s, i, e);
      var j :| i <= j <= |s| && MatchAt(mid, s, i, j) && GlobMatch(r, s[j..]);
      assert Splits(q, mid, r, s, i, j);
    }
    if e == |s| && exists i, j :: 0 <= i <= j <= |s| && Splits(q, mid, r, s, i, j) {
      var i, j :| 0 <= i <= j <= |s| && Splits(q, mid, r, s, i, j);
      assert MatchAt(Front(q), s, 0, i) && MatchAt(rest, s, i, e);
    }
  }

  lemma RestMatches(mid: seq<Piece>, r: string, s: string, i: nat, e: nat)
    requires OneLine(s) && i <= e <= |s|
    ensures MatchAt(mid + Pieces(r), s, i, e) <==>
            e == |s| && exists j :: i <= j <= |s| && MatchAt(mid, s, i, j) && GlobMatch(r, s[j..])
  {
    MatchConcat(mid, Pieces(r), s, i, e);
    forall j | i <= j <= e
      ensures MatchAt(Pieces(r), s, j, e) <==> e == |s| && GlobMatch(r, s[j..])
    {
      PiecesMatchGlob(r, s, j, e);
    }
  }

  /** The compiled text of `p` is one branch with `mid` in the middle. */
  ghost predicate Compiles(p: string, q: string, mid: seq<Piece>, r: string) {
    Read(RegexText(p)) == Parsed([Branch(q, mid, r)], "")
  }

  lemma CompiledMatches(p: string, q: string, mid: seq<Piece>, r: string, s: string)
    requires Compiles(p, q, mid, r) && OneLine(s)
    ensures Matches(RegexText(p), s) <==> exists i, j :: 0 <= i <= j <= |s| && Splits(q, mid, r, s, i, j)
  {
    var b := Branch(q, mid, r);
    assert [b][0] == b;
    forall e | 0 <= e <= |s|
      ensures MatchAt(b, s, 0, e) <==> e == |s| && exists i, j :: 0 <= i <= j <= |s| && Splits(q, mid, r, s, i, j)
    {
      BranchMatches(q, mid, r, s, e);
    }
    assert MatchAt(b, s, 0, |s|) <==> exists i, j :: 0 <= i <= j <= |s| && Splits(q, mid, r, s, i, j);
  }

  // ---- ways to tell the two apart ---------------------------------------------------------------------

  /** Glob and compiled text decide some one-line path differently. */
  ghost predicate Differs(p: string) {
    exists s :: OneLine(s) && !(Matches(RegexText(p), s) <==> GlobMatch(p, s))
  }

  /** If the text matches no path at all: the pattern itself is a path that the glob matches. */
  lemma DiffersByNone(p: string)
    requires OneLine(p) && forall s :: OneLine(s) ==> !Matches(RegexText(p), s)
    ensures Differs(p)
  {
    GlobMatchesItself(p);
    assert !Matches(RegexText(p), p);
  }

  lemma DiffersByError(p: string)
    requires OneLine(p) && Read(RegexText(p)).Malformed?
    ensures Differs(p)
  {
    DiffersByNone(p);
  }

  /** If the text matches a path that is too short for the glob. */
  lemma DiffersByShorter(p: string, s: string)
    requires OneLine(s) && Matches(RegexText(p), s) && |s| < |Shortest(p)|
    ensures Differs(p)
  {
    if GlobMatch(p, s) {
      ShortestIsShortest(p, s);
    }
  }

  /** The path made of shortest matches on both sides of `m`. */
  function Around(q: string, m: string, r: string): string {
    Shortest(q) + m + Shortest(r)
  }

  lemma AroundParts(a: string, m: string, b: string)
    ensures (a + m + b)[..|a|] == a && (a + m + b)[|a| + |m|..] == b
    ensures OneLine(a) && OneLine(m) && OneLine(b) ==> OneLine(a + m + b)
  {
  }

  lemma AroundMatches(p: string, q: string, mid: seq<Piece>, r: string, m: string)
    requires Compiles(p, q, mid, r) && OneLine(q) && OneLine(r) && OneLine(m)
    requires MatchAt(mid, Around(q, m, r), |Shortest(q)|, |Shortest(q)| + |m|)
    ensures OneLine(Around(q, m, r)) && Matches(RegexText(p), Around(q, m, r))
  {
    ShortestMatches(q);
    ShortestMatches(r);
    PartsMatch(p, q, mid, r, Shortest(q), m, Shortest(r));
  }

  lemma PartsMatch(p: string, q: string, mid: seq<Piece>, r: string, a: string, m: string, b: string)
    requires Compiles(p, q, mid, r) && OneLine(a) && OneLine(b) && OneLine(m)
    requires GlobMatch(q, a) && GlobMatch(r, b) && MatchAt(mid, a + m + b, |a|, |a| + |m|)
    ensures OneLine(a + m + b) && Matches(RegexText(p), a + m + b)
  {
    var s := a + m + b;
    AroundParts(a, m, b);
    assert Splits(q, mid, r, s, |a|, |a| + |m|);
    CompiledMatches(p, q, mid, r, s);
  }

  // ---- the compiled text with a loose backslash -----------------------------------------------------------

  /** Compiled text up to its end. */
  function Tail(r: string): string {
    Body(r) + "$"
  }

  /** The text of a backslash and what follows it. */
  function LooseText(r: string): string {
    "\\" + Tail(r)
  }

  /** A pattern whose only backslash that is not kept stands between `q` and `r`. */
  function Loose(q: string, r: string): string {
    q + ("\\" + r)
  }

  lemma LooseLength(q: string, r: string)
    ensures |Shortest(Loose(q, r))| == |Shortest(q)| + 1 + |Shortest(r)|
  {
    ShortestJoins(q, "\\" + r);
    BackslashStep("\\" + r);
    assert ("\\" + r)[1..] == r;
  }

  lemma ReadLoose(q: string, r: string)
    requires Kept(q)
    ensures ReadPieces(RegexText(Loose(q, r))) ==
            Prepend([Once(Start)], Prepend(Front(q), ReadPieces(LooseText(r))))
  {
    var x := "\\" + r;
    BodyJoins(q, x);
    BackslashStep(x);
    assert x[1..] == r;
    assert RegexText(Loose(q, r)) == "^" + (Body(q) + LooseText(r));
    BodyStarts(q, LooseText(r));
    ReadStart(Body(q) + LooseText(r));
    ReadFront(q, LooseText(r));
  }

  lemma ReadTail(r: string)
    requires Kept(r)
    ensures ReadPieces(Tail(r)) == Parsed(Pieces(r), "")
  {
    ReadFront(r, "$");
    ReadEnd();
  }

  lemma CompilesLoose(q: string, r: string, mid: seq<Piece>, r': string)
    requires Kept(q) && Kept(r') && ReadPieces(LooseText(r)) == Prepend(mid, ReadPieces(Tail(r')))
    ensures Compiles(Loose(q, r), q, mid, r')
  {
    ReadLoose(q, r);
    ReadTail(r');
  }

  lemma MalformedLoose(q: string, r: string)
    requires Kept(q) && OneLine(q) && OneLine(r)
    requires var t := ReadPieces(LooseText(r)); t.Malformed? || (t.Parsed? && t.rest != "" && t.rest[0] == ')')
    ensures Differs(Loose(q, r))
  {
    ReadLoose(q, r);
    DiffersByError(Loose(q, r));
  }

  /** If what the backslash makes of the pattern matches a path too short for the glob. */
  lemma DiffersByMiddle(q: string, r: string, mid: seq<Piece>, r': string, m: string)
    requires Kept(q) && OneLine(q) && OneLine(r') && OneLine(m) && Kept(r')
    requires ReadPieces(LooseText(r)) == Prepend(mid, ReadPieces(Tail(r')))
    requires |m| + |Shortest(r')| < 1 + |Shortest(r)|
    requires MatchAt(mid, Around(q, m, r'), |Shortest(q)|, |Shortest(q)| + |m|)
    ensures Differs(Loose(q, r))
  {
    CompilesLoose(q, r, mid, r');
    AroundMatches(Loose(q, r), q, mid, r', m);
    LooseLength(q, r);
    DiffersByShorter(Loose(q, r), Around(q, m, r'));
  }

  /** If the middle matches nothing, wherever it starts. */
  lemma DiffersByEmptyMiddle(q: string, r: string, mid: seq<Piece>, r': string)
    requires Kept(q) && OneLine(q) && OneLine(r) && Kept(r')
    requires ReadPieces(LooseText(r)) == Prepend(mid, ReadPieces(Tail(r')))
    requires forall s, i, j :: 0 <= i <= j <= |s| && OneLine(s) ==> !Splits(q, mid, r', s, i, j)
    ensures Differs(Loose(q, r))
  {
    CompilesLoose(q, r, mid, r');
    forall s | OneLine(s)
      ensures !Matches(RegexText(Loose(q, r)), s)
    {
      CompiledMatches(Loose(q, r), q, mid, r', s);
    }
    DiffersByNone(Loose(q, r));
  }

  // ---- a backslash, an escaped character or nothing after it ------------------------------------------------

  lemma TailStarts(r: string)
    ensures PlainStart(Tail(r)) && Tail(r)[0] !in "*+?|){}]^"
  {
    BodyStarts(r, "$");
  }

  lemma BackslashText(r: string)
    requires r != "" && r[0] == '\\'
    ensures LooseText(r) == "\\\\" + Tail(r[1..])
    ensures |Shortest(r)| == 1 + |Shortest(r[1..])|
  {
    BackslashStep(r);
    Associates("\\", Body(r[1..]), "$");
    TwoBackslashes(Tail(r[1..]));
  }

  lemma TwoBackslashes(y: string)
    ensures "\\" + ("\\" + y) == "\\\\" + y
  {
  }

  lemma EscapedText(r: string)
    requires r != "" && Escaped(r[0])
    ensures LooseText(r) == "\\\\" + ([r[0]] + Tail(r[1..]))
    ensures |Shortest(r)| == 1 + |Shortest(r[1..])|
  {
    EscapedStep(r);
    KeptPairText(LooseText(r), Tail(r), Tail(r[1..]), r[0]);
  }

  lemma LiteralMatches(c: char, s: string, i: nat)
    requires i < |s| && s[i] == c
    ensures MatchAt([Once(Chr(c))], s, i, i + 1)
  {
    MatchOne(Once(Chr(c)), s, i, i + 1);
  }

  /** Two backslashes: the compiled text wants only one. */
  lemma BeforeBackslash(q: string, r: string)
    requires Kept(q) && OneLine(q) && OneLine(r) && r != "" && r[0] == '\\' && Kept(r[1..])
    ensures Differs(Loose(q, r))
  {
    BackslashText(r);
    TailStarts(r[1..]);
    ReadBackslash(Tail(r[1..]));
    LiteralMatches('\\', Around(q, "\\", r[1..]), |Shortest(q)|);
    DiffersByMiddle(q, r, [Once(Chr('\\'))], r[1..], "\\");
  }

  /** Before a plus: one backslash, or several, and no plus. */
  lemma BeforePlus(q: string, r: string)
    requires Kept(q) && OneLine(q) && OneLine(r) && r != "" && r[0] == '+' && Kept(r[1..])
    ensures Differs(Loose(q, r))
  {
    EscapedText(r);
    TailStarts(r[1..]);
    ReadPlus(Tail(r[1..]));
    PlusMatches(q, r[1..]);
    DiffersByMiddle(q, r, [Plus(Chr('\\'))], r[1..], "\\");
  }

  lemma ReadPlus(y: string)
    requires PlainStart(y)
    ensures ReadPieces("\\\\" + (['+'] + y)) == Prepend([Plus(Chr('\\'))], ReadPieces(y))
  {
    TwoBackslashes(['+'] + y);
    EscapedAtom('\\', ['+'] + y);
    RepeatedThen(Chr('\\'), '+', y);
    ReadQuantified("\\\\" + (['+'] + y), Chr('\\'), ['+'] + y, Plus(Chr('\\')), y);
  }

  /** An escaped character that is neither a letter nor a digit is that character. */
  lemma EscapedAtom(c: char, t: string)
    requires !IsLetter(c) && !IsDigit(c)
    ensures ReadAtom("\\" + ([c] + t)) == Parsed(Chr(c), t)
  {
    assert ("\\" + ([c] + t))[1..] == [c] + t && ([c] + t)[1..] == t;
  }

  lemma RepeatedThen(a: Atom, c: char, y: string)
    requires a.Chr? && (c == '+' || c == '*') && PlainStart(y)
    ensures ReadQuantifier(a, [c] + y) == Parsed(if c == '+' then Plus(a) else Star(a), y)
  {
    assert ([c] + y)[1..] == y;
  }

  lemma PlusMatches(q: string, r: string)
    ensures MatchAt([Plus(Chr('\\'))], Around(q, "\\", r), |Shortest(q)|, |Shortest(q)| + |"\\"|)
  {
    var s, i := Around(q, "\\", r), |Shortest(q)|;
    assert MatchAtom(Chr('\\'), s, i, i + 1) && Repeat(Chr('\\'), s, i + 1, i + 1);
    MatchOne(Plus(Chr('\\')), s, i, i + 1);
  }

  /** Before an opening parenthesis: a group that is never closed. */
  lemma BeforeOpening(q: string, r: string)
    requires Kept(q) && OneLine(q) && OneLine(r) && r != "" && r[0] == '(' && Kept(r[1..])
    ensures Differs(Loose(q, r))
  {
    var y := Tail(r[1..]);
    EscapedText(r);
    TailStarts(r[1..]);
    ReadTail(r[1..]);
    assert ("(" + y)[1..] == y;
    assert ReadAtom("(" + y).Malformed?;
    ReadBackslash("(" + y);
    MalformedLoose(q, r);
  }

  /** A literal followed by a bar or a closing parenthesis, which end the branch. */
  lemma ReadLast(c: char, y: string)
    requires y != "" && (y[0] == '|' || y[0] == ')')
    ensures ReadPieces("\\\\" + y) == Parsed([Once(Chr('\\'))], y)
  {
    var t := "\\\\" + y;
    assert t[1..] == "\\" + y && t[1..][1..] == y;
    ReadQuantified(t, Chr('\\'), y, Once(Chr('\\')), y);
    assert [Once(Chr('\\'))] + [] == [Once(Chr('\\'))];
  }

  lemma BeforeClosing(q: string, r: string)
    requires Kept(q) && OneLine(q) && OneLine(r) && r != "" && r[0] == ')'
    ensures Differs(Loose(q, r))
  {
    EscapedText(r);
    ReadLast('\\', [r[0]] + Tail(r[1..]));
    MalformedLoose(q, r);
  }

  /** A branch that ends in a literal and is not anchored at its end. */
  lemma UnanchoredMatches(q: string, c: char)
    requires OneLine(q) && c != '\n'
    ensures var s := Shortest(q) + [c];
      OneLine(s) && MatchAt([Once(Start)] + (Front(q) + [Once(Chr(c))]), s, 0, |s|)
  {
    var s, n := Shortest(q) + [c], |Shortest(q)|;
    var ps := Front(q) + [Once(Chr(c))];
    ShortestMatches(q);
    assert s[0..n] == Shortest(q);
    FrontMatchesGlob(q, s, 0, n);
    LiteralMatches(c, s, n);
    MatchConcat(Front(q), [Once(Chr(c))], s, 0, |s|);
    assert ([Once(Start)] + ps)[1..] == ps;
    assert MatchPiece(([Once(Start)] + ps)[0], s, 0, 0);
  }

  /** Before a bar: what stands before it becomes a branch of its own, not anchored at its end. */
  lemma BeforeBar(q: string, r: string)
    requires Kept(q) && OneLine(q) && OneLine(r) && r != "" && r[0] == '|' && Kept(r[1..])
    ensures Differs(Loose(q, r))
  {
    var y := "|" + Tail(r[1..]);
    EscapedText(r);
    ReadLast('\\', y);
    ReadLoose(q, r);
    ReadTail(r[1..]);
    assert y[1..] == Tail(r[1..]);
    var first := [Once(Start)] + (Front(q) + [Once(Chr('\\'))]);
    var s := Shortest(q) + "\\";
    assert Read(RegexText(Loose(q, r))) == Parsed([first] + [Pieces(r[1..])], "");
    UnanchoredMatches(q, '\\');
    assert ([first] + [Pieces(r[1..])])[0] == first;
    assert Matches(RegexText(Loose(q, r)), s);
    LooseLength(q, r);
    DiffersByShorter(Loose(q, r), s);
  }

  /** At the end: the final anchor becomes a literal dollar sign. */
  lemma BeforeTheEnd(q: string)
    requires Kept(q) && OneLine(q)
    ensures Differs(Loose(q, ""))
  {
    var t, s := "\\$", Shortest(q) + "$";
    var first := [Once(Start)] + (Front(q) + [Once(Chr('$'))]);
    assert LooseText("") == t && t[1..] == "$" && "$"[1..] == "";
    ReadQuantified(t, Chr('$'), "", Once(Chr('$')), "");
    assert [Once(Chr('$'))] + [] == [Once(Chr('$'))];
    ReadLoose(q, "");
    UnanchoredMatches(q, '$');
    assert [first][0] == first;
    assert Matches(RegexText(Loose(q, "")), s);
    if GlobMatch(Loose(q, ""), s) {
      EndsInBackslash(q, s);
    }
  }

  lemma EndsInBackslash(q: string, s: string)
    requires GlobMatch(Loose(q, ""), s)
    ensures s != "" && s[|s| - 1] == '\\'
  {
    assert s[0..] == s && "\\" + "" == "\\";
    var k := GlobSplits(q, "\\", s, 0);
    assert GlobMatch("\\"[1..], s[k..][1..]);
    assert s[k..][1..] == "";
  }

  // ---- unsatisfiable middles ---------------------------------------------------------------------------------

  /** Nothing matches an anchor at the start after a character. */
  lemma StartAfterCharacter(c: char, more: seq<Piece>, s: string, i: nat, j: nat)
    requires i <= j <= |s|
    ensures !MatchAt([Once(Chr(c)), Once(Start)] + more, s, i, j)
  {
    var ps := [Once(Chr(c)), Once(Start)] + more;
    assert ps[1..][0] == Once(Start);
    if MatchAt(ps, s, i, j) {
      var k := MatchSplit(ps, s, i, j);
      var l := MatchSplit(ps[1..], s, k, j);
    }
  }

  lemma DiffersByInnerStart(q: string, r: string, c: char, more: seq<Piece>, r': string)
    requires Kept(q) && OneLine(q) && OneLine(r) && Kept(r')
    requires ReadPieces(LooseText(r)) == Prepend([Once(Chr(c)), Once(Start)] + more, ReadPieces(Tail(r')))
    ensures Differs(Loose(q, r))
  {
    var mid := [Once(Chr(c)), Once(Start)] + more;
    forall s, i, j | 0 <= i <= j <= |s| && OneLine(s)
      ensures !Splits(q, mid, r', s, i, j)
    {
      StartAfterCharacter(c, more, s, i, j);
    }
    DiffersByEmptyMiddle(q, r, mid, r');
  }

  /** Before a caret: an anchor at the start, after the backslash. */
  lemma BeforeCaret(q: string, r: string)
    requires Kept(q) && OneLine(q) && OneLine(r) && r != "" && r[0] == '^' && Kept(r[1..])
    ensures Differs(Loose(q, r))
  {
    var y := Tail(r[1..]);
    EscapedText(r);
    TailStarts(r[1..]);
    ReadBackslash("^" + y);
    ReadStart(y);
    PrependTwice([Once(Chr('\\'))], [Once(Start)], ReadPieces(y));
    assert [Once(Chr('\\')), Once(Start)] + [] == [Once(Chr('\\'))] + [Once(Start)];
    DiffersByInnerStart(q, r, '\\', [], r[1..]);
  }


  predicate Ordinary(c: char) {
    c !in ".^$\\[({|)*+?"
  }

  lemma ReadLiteral(c: char, y: string)
    requires Ordinary(c) && PlainStart(y)
    ensures ReadPieces([c] + y) == Prepend([Once(Chr(c))], ReadPieces(y))
  {
    assert ([c] + y)[1..] == y;
    ReadOnce([c] + y, Chr(c), y);
  }

  lemma ReadLiteralStar(c: char, y: string)
    requires Ordinary(c) && PlainStart(y)
    ensures ReadPieces([c] + ("*" + y)) == Prepend([Star(Chr(c))], ReadPieces(y))
  {
    var t := [c] + ("*" + y);
    assert t[1..] == "*" + y && ("*" + y)[1..] == y;
    ReadQuantified(t, Chr(c), "*" + y, Star(Chr(c)), y);
  }

  /** A backslash before text that quotes a punctuation mark. */
  lemma ReadQuoted(c: char, y: string)
    requires !IsLetter(c) && !IsDigit(c) && PlainStart(y)
    ensures ReadPieces("\\" + ([c] + y)) == Prepend([Once(Chr(c))], ReadPieces(y))
  {
    var t := "\\" + ([c] + y);
    assert t[1..] == [c] + y && ([c] + y)[1..] == y;
    ReadOnce(t, Chr(c), y);
  }

  /** A quoted opening bracket exposes the caret of the class behind it. */
  lemma ReadInnerStart(z: string)
    requires PlainStart(z)
    ensures ReadPieces("\\" + ("[" + ("^" + ("/" + z)))) ==
            Prepend([Once(Chr('[')), Once(Start)] + [Once(Chr('/'))], ReadPieces(z))
  {
    var r := ReadPieces(z);
    ReadLiteral('/', z);
    ReadStart("/" + z);
    ReadQuoted('[', "^" + ("/" + z));
    PrependTwice([Once(Start)], [Once(Chr('/'))], r);
    PrependTwice([Once(Chr('['))], [Once(Start)] + [Once(Chr('/'))], r);
    assert [Once(Chr('[')), Once(Start)] + [Once(Chr('/'))] == [Once(Chr('['))] + ([Once(Start)] + [Once(Chr('/'))]);
  }

  lemma DiffersByClass(q: string, r: string, z: string, last: Piece, r': string)
    requires Kept(q) && OneLine(q) && OneLine(r) && Kept(r') && PlainStart(z)
    requires LooseText(r) == "\\" + ("[" + ("^" + ("/" + z)))
    requires ReadPieces(z) == Prepend([last], ReadPieces(Tail(r')))
    ensures Differs(Loose(q, r))
  {
    var front := [Once(Chr('[')), Once(Start)] + [Once(Chr('/'))];
    ReadInnerStart(z);
    PrependTwice(front, [last], ReadPieces(Tail(r')));
    assert front + [last] == [Once(Chr('[')), Once(Start)] + ([Once(Chr('/'))] + [last]);
    DiffersByInnerStart(q, r, '[', [Once(Chr('/'))] + [last], r');
  }

  /** Before one star: a literal bracket, an anchor at the start, and so on. */
  lemma BeforeStar(q: string, r: string)
    requires Kept(q) && OneLine(q) && OneLine(r) && r != "" && r[0] == '*' && !StartsDouble(r) && Kept(r[1..])
    ensures Differs(Loose(q, r))
  {
    var z := "]" + ("*" + Tail(r[1..]));
    StarText(r);
    TailStarts(r[1..]);
    ReadLiteralStar(']', Tail(r[1..]));
    DiffersByClass(q, r, z, Star(Chr(']')), r[1..]);
  }

  lemma StarText(r: string)
    requires r != "" && r[0] == '*' && !StartsDouble(r)
    ensures LooseText(r) == "\\" + ("[" + ("^" + ("/" + ("]" + ("*" + Tail(r[1..]))))))
  {
    BodyStepAs(r, "[^/]*", r[1..]);
    var b := Body(r[1..]);
    assert "[^/]*" + b + "$" == "[" + ("^" + ("/" + ("]" + ("*" + (b + "$")))));
  }

  /** Before a question mark: the same without the star. */
  lemma BeforeQuestion(q: string, r: string)
    requires Kept(q) && OneLine(q) && OneLine(r) && r != "" && r[0] == '?' && Kept(r[1..])
    ensures Differs(Loose(q, r))
  {
    var z := "]" + Tail(r[1..]);
    QuestionText(r);
    TailStarts(r[1..]);
    ReadLiteral(']', Tail(r[1..]));
    DiffersByClass(q, r, z, Once(Chr(']')), r[1..]);
  }

  lemma QuestionText(r: string)
    requires r != "" && r[0] == '?'
    ensures LooseText(r) == "\\" + ("[" + ("^" + ("/" + ("]" + Tail(r[1..])))))
  {
    BodyStepAs(r, "[^/]", r[1..]);
    Associates("[^/]", Body(r[1..]), "$");
    FourThen('[', '^', '/', ']', Tail(r[1..]));
  }

  lemma FourThen(a: char, b: char, c: char, d: char, y: string)
    ensures [a, b, c, d] + y == [a] + ([b] + ([c] + ([d] + y)))
  {
  }

  // ---- double stars ------------------------------------------------------------------------------------------------

  /** Before two stars and a slash: the parenthesis that closes the group is left over. */
  lemma BeforeDirectories(q: string, r: string)
    requires Kept(q) && OneLine(q) && OneLine(r) && r != "" && StartsDoubleSlash(r)
    ensures Differs(Loose(q, r))
  {
    DirectoriesText(r);
    ReadLeftOver("??" + Tail(r[3..]));
    MalformedLoose(q, r);
  }

  lemma DirectoriesText(r: string)
    requires StartsDoubleSlash(r)
    ensures LooseText(r) == "\\" + ("(" + ("?" + (":" + (".*/)" + ("??" + Tail(r[3..]))))))
  {
    BodyStepAs(r, "(?:.*/)??", r[3..]);
    Associates("(?:.*/)??", Body(r[3..]), "$");
    assert "(?:.*/)??" == "(" + ("?" + (":" + (".*/)" + "??")));
    FiveThen("(", "?", ":", ".*/)", "??", Tail(r[3..]));
  }

  lemma FiveThen(a: string, b: string, c: string, d: string, e: string, y: string)
    ensures a + (b + (c + (d + e))) + y == a + (b + (c + (d + (e + y))))
  {
  }

  lemma ReadLeftOver(y: string)
    ensures var t := ReadPieces("\\" + ("(" + ("?" + (":" + (".*/)" + y))))); t.Parsed? && t.rest == ")" + y
  {
    var t2 := ":" + (".*/)" + y);
    ReadAnyThenSlash(y);
    ReadLiteral(':', ".*/)" + y);
    EscapedAtom('(', "?" + t2);
    OptionalThen(Chr('('), t2);
    ReadQuantified("\\" + ("(" + ("?" + t2)), Chr('('), "?" + t2, Optional(Chr('(')), t2);
  }

  lemma OptionalThen(a: Atom, t: string)
    requires a.Chr? && t != "" && t[0] == ':'
    ensures ReadQuantifier(a, "?" + t) == Parsed(Optional(a), t)
  {
    assert ("?" + t)[1..] == t && ("?" + t)[1] == t[0];
  }

  /** Before two stars: any number of dots instead of a backslash and any text. */
  lemma BeforeDouble(q: string, r: string)
    requires Kept(q) && OneLine(q) && OneLine(r) && r != "" && StartsDouble(r) && !StartsDoubleSlash(r) && Kept(r[2..])
    ensures Differs(Loose(q, r))
  {
    TailStarts(r[2..]);
    DoubleText(r);
    ReadDots(Tail(r[2..]));
    var s, i := Around(q, "", r[2..]), |Shortest(q)|;
    MatchOne(Star(Chr('.')), s, i, i);
    DiffersByMiddle(q, r, [Star(Chr('.'))], r[2..], "");
  }

  lemma DoubleText(r: string)
    requires StartsDouble(r) && !StartsDoubleSlash(r)
    ensures LooseText(r) == "\\" + ("." + ("*" + Tail(r[2..]))) && Shortest(r) == Shortest(r[2..])
  {
    BodyStepAs(r, ".*", r[2..]);
    var b := Body(r[2..]);
    assert ".*" + b + "$" == "." + ("*" + (b + "$"));
  }

  lemma ReadDots(y: string)
    requires PlainStart(y)
    ensures ReadPieces("\\" + ("." + ("*" + y))) == Prepend([Star(Chr('.'))], ReadPieces(y))
  {
    EscapedAtom('.', "*" + y);
    RepeatedThen(Chr('.'), '*', y);
    ReadQuantified("\\" + ("." + ("*" + y)), Chr('.'), "*" + y, Star(Chr('.')), y);
  }

  // ---- dot and dollar sign ----------------------------------------------------------------------------------------

  lemma TwoMatch(a: Piece, b: Piece, s: string, i: nat, k: nat, j: nat)
    requires i <= k <= j <= |s| && MatchPiece(a, s, i, k) && MatchPiece(b, s, k, j)
    ensures MatchAt([a] + [b], s, i, j)
  {
    MatchOne(a, s, i, k);
    MatchOne(b, s, k, j);
    MatchConcat([a], [b], s, i, j);
  }

  /** An escaped character whose escape the backslash has used up, read as the atom `a`. */
  lemma ReadExposed(r: string, a: Atom)
    requires r != "" && (r[0] == '.' || r[0] == '$') && a == if r[0] == '.' then Dot else End
    ensures ReadPieces(LooseText(r)) == Prepend([Once(Chr('\\'))] + [Once(a)], ReadPieces(Tail(r[1..])))
  {
    var y := Tail(r[1..]);
    EscapedText(r);
    TailStarts(r[1..]);
    assert ([r[0]] + y)[1..] == y;
    ReadOnce([r[0]] + y, a, y);
    ReadBackslash([r[0]] + y);
    PrependTwice([Once(Chr('\\'))], [Once(a)], ReadPieces(y));
  }

  lemma TwoLiterals(c: char, r: string, t: string)
    requires GlobMatch("\\" + ([c] + r), t) && c != '*' && c != '?'
    ensures |t| >= 2 + |Shortest(r)| && t[0] == '\\' && t[1] == c
  {
    var x := "\\" + ([c] + r);
    assert x[1..] == [c] + r && ([c] + r)[1..] == r;
    assert GlobMatch([c] + r, t[1..]);
    OneLiteral(c, r, t[1..]);
  }

  lemma OneLiteral(c: char, r: string, t: string)
    requires GlobMatch([c] + r, t) && c != '*' && c != '?'
    ensures |t| >= 1 + |Shortest(r)| && t[0] == c
  {
    assert ([c] + r)[1..] == r;
    ShortestIsShortest(r, t[1..]);
  }

  /** Where a match of the whole pattern puts the backslash, if it is as short as possible. */
  lemma AlignedLiterals(q: string, c: char, r: string, s: string)
    requires GlobMatch(Loose(q, [c] + r), s) && c != '*' && c != '?'
    requires |s| == |Shortest(q)| + 2 + |Shortest(r)|
    ensures s[|Shortest(q)|] == '\\' && s[|Shortest(q)| + 1] == c
  {
    var k := WholeSplits(q, "\\" + ([c] + r), s);
    TwoLiterals(c, r, s[k..]);
  }

  lemma WholeSplits(q: string, x: string, s: string) returns (k: nat)
    requires Joins(x) && GlobMatch(q + x, s)
    ensures |Shortest(q)| <= k <= |s| && GlobMatch(x, s[k..])
  {
    assert s[0..] == s;
    k := GlobSplits(q, x, s, 0);
    ShortestIsShortest(q, s[0..k]);
  }

  /** Before a dot: any character instead of the dot. */
  lemma BeforeDot(q: string, r: string)
    requires Kept(q) && OneLine(q) && OneLine(r) && r != "" && r[0] == '.' && Kept(r[1..])
    ensures Differs(Loose(q, r))
  {
    var mid := [Once(Chr('\\'))] + [Once(Dot)];
    ReadExposed(r, Dot);
    DotMatches(q, r[1..]);
    CompilesLoose(q, r, mid, r[1..]);
    AroundMatches(Loose(q, r), q, mid, r[1..], "\\x");
    NotADot(q, r, Around(q, "\\x", r[1..]));
  }

  lemma DotMatches(q: string, r: string)
    ensures MatchAt([Once(Chr('\\'))] + [Once(Dot)], Around(q, "\\x", r), |Shortest(q)|, |Shortest(q)| + |"\\x"|)
  {
    var s, i := Around(q, "\\x", r), |Shortest(q)|;
    assert s[i] == '\\' && s[i + 1] == 'x';
    TwoMatch(Once(Chr('\\')), Once(Dot), s, i, i + 1, i + 2);
  }

  lemma NotADot(q: string, r: string, s: string)
    requires r != "" && r[0] == '.' && s == Around(q, "\\x", r[1..])
    ensures !GlobMatch(Loose(q, r), s)
  {
    assert r == ['.'] + r[1..] && s[|Shortest(q)| + 1] == 'x';
    if GlobMatch(Loose(q, r), s) {
      AlignedLiterals(q, '.', r[1..], s);
    }
  }

  /** Before a dollar sign: the path ends here, or nothing matches. */
  lemma BeforeDollar(q: string, r: string)
    requires Kept(q) && OneLine(q) && OneLine(r) && r != "" && r[0] == '$' && Kept(r[1..])
    ensures Differs(Loose(q, r))
  {
    ReadExposed(r, End);
    EscapedText(r);
    if |Shortest(r[1..])| == 0 {
      DollarMatches(q, r);
    } else {
      DollarNeverMatches(q, r);
    }
  }

  lemma DollarMatches(q: string, r: string)
    requires Kept(q) && OneLine(q) && OneLine(r) && r != "" && Kept(r[1..]) && |Shortest(r[1..])| == 0
            && |Shortest(r)| == 1
    requires ReadPieces(LooseText(r)) == Prepend([Once(Chr('\\'))] + [Once(End)], ReadPieces(Tail(r[1..])))
    ensures Differs(Loose(q, r))
  {
    var r', m, mid := r[1..], ['\\'], [Once(Chr('\\'))] + [Once(End)];
    EndMatches(q, r', m);
    DiffersByMiddle(q, r, mid, r', m);
  }

  lemma DollarNeverMatches(q: string, r: string)
    requires Kept(q) && OneLine(q) && OneLine(r) && r != "" && Kept(r[1..]) && |Shortest(r[1..])| > 0
    requires ReadPieces(LooseText(r)) == Prepend([Once(Chr('\\'))] + [Once(End)], ReadPieces(Tail(r[1..])))
    ensures Differs(Loose(q, r))
  {
    var mid := [Once(Chr('\\'))] + [Once(End)];
    forall s, i, j | 0 <= i <= j <= |s| && OneLine(s)
      ensures !Splits(q, mid, r[1..], s, i, j)
    {
      EndThenMore(mid, r[1..], s, i, j);
    }
    DiffersByEmptyMiddle(q, r, mid, r[1..]);
  }

  lemma EndMatches(q: string, r: string, m: string)
    requires |Shortest(r)| == 0 && m == ['\\']
    ensures MatchAt([Once(Chr('\\'))] + [Once(End)], Around(q, m, r), |Shortest(q)|, |Shortest(q)| + |m|)
  {
    var s, i := Around(q, m, r), |Shortest(q)|;
    TwoMatch(Once(Chr('\\')), Once(End), s, i, i + 1, i + 1);
  }

  lemma EndThenMore(mid: seq<Piece>, r: string, s: string, i: nat, j: nat)
    requires i <= j <= |s| && OneLine(s) && mid == [Once(Chr('\\'))] + [Once(End)] && |Shortest(r)| > 0
    ensures !(MatchAt(mid, s, i, j) && GlobMatch(r, s[j..]))
  {
    if MatchAt(mid, s, i, j) && GlobMatch(r, s[j..]) {
      ShortestIsShortest(r, s[j..]);
      EndIsLast(Once(Chr('\\')), s, i, j);
    }
  }

  lemma EndIsLast(a: Piece, s: string, i: nat, j: nat)
    requires i <= j <= |s| && OneLine(s) && MatchAt([a] + [Once(End)], s, i, j)
    ensures j == |s|
  {
    MatchConcat([a], [Once(End)], s, i, j);
    var k :| i <= k <= j && MatchAt([a], s, i, k) && MatchAt([Once(End)], s, k, j);
    MatchOne(Once(End), s, k, j);
    if k < |s| {
      assert s[k] in s;
    }
  }

  // ---- letters, digits and other characters -----------------------------------------------------------------

  /** A step that stands for itself and is not escaped. */
  predicate Literal(c: char) {
    c != '\\' && c != '*' && c != '?' && !Escaped(c)
  }

  lemma LiteralText(r: string)
    requires r != "" && Literal(r[0])
    ensures Tail(r) == [r[0]] + Tail(r[1..]) && |Shortest(r)| == 1 + |Shortest(r[1..])|
  {
    BodyStep(r);
  }

  predicate Alphanumeric(c: char) {
    IsLetter(c) || IsDigit(c)
  }

  /** Letters and digits in front of compiled text are literals of the pattern. */
  lemma {:induction false} AlphanumericSteps(r: string, n: nat)
    requires n <= |Tail(r)| && forall k :: 0 <= k < n ==> Alphanumeric(Tail(r)[k])
    ensures n <= |r| && Tail(r)[n..] == Tail(r[n..]) && |Shortest(r)| == n + |Shortest(r[n..])|
    decreases n
  {
    if n == 0 {
      assert r[0..] == r;
    } else {
      FirstOfTail(r);
      LiteralText(r);
      OneLess(r[0], Tail(r[1..]), n);
      AlphanumericSteps(r[1..], n - 1);
      assert r[1..][n - 1..] == r[n..];
    }
  }

  lemma OneLess(c: char, y: string, n: nat)
    requires 0 < n <= |[c] + y| && forall k :: 0 <= k < n ==> Alphanumeric(([c] + y)[k])
    ensures forall k :: 0 <= k < n - 1 ==> Alphanumeric(y[k])
    ensures ([c] + y)[n..] == y[n - 1..]
  {
    forall k | 0 <= k < n - 1
      ensures Alphanumeric(y[k])
    {
      assert ([c] + y)[k + 1] == y[k];
    }
  }

  lemma FirstOfTail(r: string)
    requires Alphanumeric(Tail(r)[0])
    ensures r != "" && Literal(r[0]) && Tail(r)[0] == r[0]
  {
    if r != "" {
      BodyStep(r);
      assert Tail(r)[0] == StepText(r)[0];
    }
  }

  predicate OneCharacter(a: Atom) {
    a.Chr? || a.Category? || a.Class?
  }

  predicate ZeroWidth(a: Atom) {
    a.Start? || a.VeryEnd? || a.Boundary?
  }

  /** What an escape in front of `r` reads as: an error, or an atom in place of r[..n]. */
  ghost predicate EscapeReads(r: string, n: nat) {
    var e := ReadEscape(Tail(r));
    || e.Malformed?
    || (e.Parsed? && 1 <= n <= |r| && e.rest == Tail(r[n..]) && |Shortest(r)| == n + |Shortest(r[n..])|
        && (OneCharacter(e.value) || (ZeroWidth(e.value) && IsLetter(r[0]))))
  }

  lemma EscapeOfLiteral(r: string) returns (n: nat)
    requires r != "" && Literal(r[0])
    ensures EscapeReads(r, n)
  {
    var c := r[0];
    n := 1;
    if c == 'x' || c == 'u' || c == 'U' {
      LiteralText(r);
      EscapeIsHex(Tail(r));
      n := EscapeOfHex(r, HexDigits(c));
    } else if c == '0' {
      n := EscapeOfOctal(r);
    } else if IsDigit(c) {
      n := EscapeOfDigits(r);
    } else {
      EscapeOfOther(r);
    }
  }

  lemma EscapeOfOther(r: string)
    requires r != "" && Literal(r[0]) && r[0] != 'x' && r[0] != 'u' && r[0] != 'U' && !IsDigit(r[0])
    ensures EscapeReads(r, 1)
  {
    LiteralText(r);
    assert Tail(r)[1..] == Tail(r[1..]);
    if r[0] == 'N' {
      TailStarts(r[1..]);
    }
  }

  function HexDigits(c: char): nat {
    if c == 'x' then 2 else if c == 'u' then 4 else 8
  }

  lemma EscapeIsHex(t: string)
    requires t != "" && (t[0] == 'x' || t[0] == 'u' || t[0] == 'U')
    ensures ReadEscape(t) == ReadHex(t[1..], HexDigits(t[0]))
  {
  }

  lemma EscapeOfHex(r: string, k: nat) returns (n: nat)
    requires r != "" && Literal(r[0]) && 1 <= k && (r[0] == 'x' || r[0] == 'u' || r[0] == 'U')
    requires ReadEscape(Tail(r)) == ReadHex(Tail(r)[1..], k)
    ensures EscapeReads(r, n)
  {
    n := 1 + k;
    LiteralText(r);
    var t := Tail(r[1..]);
    assert Tail(r)[1..] == t;
    if ReadHex(t, k).Parsed? {
      forall i | 0 <= i < k
        ensures Alphanumeric(t[i])
      {
        assert t[..k][i] in t[..k];
      }
      AlphanumericSteps(r[1..], k);
      assert r[1..][k..] == r[n..];
    }
  }

  lemma EscapeOfOctal(r: string) returns (n: nat)
    requires r != "" && Literal(r[0]) && r[0] == '0'
    ensures EscapeReads(r, n)
  {
    var t := Tail(r);
    LiteralText(r);
    EscapeIsOctal(t);
    n := if |t| >= 3 && IsOctal(t[1]) && IsOctal(t[2]) then 3 else if |t| >= 2 && IsOctal(t[1]) then 2 else 1;
    AlphanumericSteps(r, n);
  }

  lemma EscapeIsOctal(t: string)
    requires t != "" && t[0] == '0'
    ensures ReadEscape(t) == ReadOctal(t) && ReadOctal(t).Parsed? && OneCharacter(ReadOctal(t).value)
  {
  }

  lemma EscapeOfDigits(r: string) returns (n: nat)
    requires r != "" && Literal(r[0]) && IsDigit(r[0]) && r[0] != '0'
    ensures EscapeReads(r, n)
  {
    n := 3;
    LiteralText(r);
    EscapeIsReference(Tail(r));
    if ReadReference(Tail(r)).Parsed? {
      AlphanumericSteps(r, 3);
    }
  }

  lemma EscapeIsReference(t: string)
    requires t != "" && IsDigit(t[0]) && t[0] != '0'
    ensures ReadEscape(t) == ReadReference(t)
    ensures ReadReference(t).Parsed? ==>
              |t| >= 3 && (forall k :: 0 <= k < 3 ==> Alphanumeric(t[k]))
              && OneCharacter(ReadReference(t).value) && ReadReference(t).rest == t[3..]
  {
  }

  ghost predicate Accepts(a: Atom, c: char) {
    MatchAtom(a, [c], 0, 1)
  }

  lemma OneCharacterMatches(a: Atom, s: string, i: nat, j: nat)
    requires OneCharacter(a) && i <= j <= |s|
    ensures MatchAtom(a, s, i, j) <==> j == i + 1 && Accepts(a, s[i])
  {
  }

  lemma ReadOneEscape(r: string, n: nat)
    requires EscapeReads(r, n) && ReadEscape(Tail(r)).Parsed?
    ensures ReadPieces(LooseText(r)) == Prepend([Once(ReadEscape(Tail(r)).value)], ReadPieces(Tail(r[n..])))
  {
    var t := LooseText(r);
    assert t[1..] == Tail(r);
    TailStarts(r[n..]);
    ReadOnce(t, ReadEscape(Tail(r)).value, Tail(r[n..]));
  }

  lemma ReadBadEscape(r: string)
    requires ReadEscape(Tail(r)).Malformed?
    ensures ReadPieces(LooseText(r)).Malformed?
  {
    assert LooseText(r)[1..] == Tail(r);
  }

  /** Before any other character: the backslash and what it takes with it become one character, or an assertion. */
  lemma BeforeLiteral(q: string, r: string)
    requires Kept(q) && OneLine(q) && OneLine(r) && r != "" && Literal(r[0]) && Kept(r)
    ensures Differs(Loose(q, r))
  {
    var n := EscapeOfLiteral(r);
    var e := ReadEscape(Tail(r));
    if e.Malformed? {
      ReadBadEscape(r);
      MalformedLoose(q, r);
    } else {
      ReadOneEscape(r, n);
      KeptSuffix(r, n);
      assert OneLine(r[n..]);
      if OneCharacter(e.value) {
        CharacterDiffers(q, r, n, e.value);
      } else {
        AssertionDiffers(q, r, n, e.value);
      }
    }
  }

  /** The compiled text has one character where the glob has the backslash and `n` more. */
  ghost predicate TakesCharacter(q: string, r: string, n: nat, a: Atom) {
    && Kept(q) && OneLine(q) && OneLine(r) && 1 <= n <= |r| && Kept(r[n..]) && OneLine(r[n..]) && OneCharacter(a)
    && ReadPieces(LooseText(r)) == Prepend([Once(a)], ReadPieces(Tail(r[n..])))
    && |Shortest(r)| == n + |Shortest(r[n..])|
  }

  lemma CharacterDiffers(q: string, r: string, n: nat, a: Atom)
    requires TakesCharacter(q, r, n, a)
    ensures Differs(Loose(q, r))
  {
    if exists c: char :: c != '\n' && Accepts(a, c) {
      var c: char :| c != '\n' && Accepts(a, c);
      SomeCharacterDiffers(q, r, n, a, c);
    } else {
      NoCharacterDiffers(q, r, n, a);
    }
  }

  lemma SomeCharacterDiffers(q: string, r: string, n: nat, a: Atom, c: char)
    requires TakesCharacter(q, r, n, a) && c != '\n' && Accepts(a, c)
    ensures Differs(Loose(q, r))
  {
    OneCharacterInside(q, a, c, r[n..]);
    DiffersByMiddle(q, r, [Once(a)], r[n..], [c]);
  }

  lemma NoCharacterDiffers(q: string, r: string, n: nat, a: Atom)
    requires TakesCharacter(q, r, n, a) && forall c: char :: c != '\n' ==> !Accepts(a, c)
    ensures Differs(Loose(q, r))
  {
    forall s, i, j | 0 <= i <= j <= |s| && OneLine(s)
      ensures !Splits(q, [Once(a)], r[n..], s, i, j)
    {
      NoCharacterInside(a, s, i, j);
    }
    DiffersByEmptyMiddle(q, r, [Once(a)], r[n..]);
  }

  lemma OneCharacterInside(q: string, a: Atom, c: char, r: string)
    requires OneCharacter(a) && Accepts(a, c)
    ensures MatchAt([Once(a)], Around(q, [c], r), |Shortest(q)|, |Shortest(q)| + |[c]|)
  {
    var s, i := Around(q, [c], r), |Shortest(q)|;
    assert s[i] == c;
    OneCharacterMatches(a, s, i, i + 1);
    MatchOne(Once(a), s, i, i + 1);
  }

  lemma NoCharacterInside(a: Atom, s: string, i: nat, j: nat)
    requires OneCharacter(a) && i <= j <= |s| && OneLine(s)
    requires forall c :: c != '\n' ==> !Accepts(a, c)
    ensures !MatchAt([Once(a)], s, i, j)
  {
    MatchOne(Once(a), s, i, j);
    OneCharacterMatches(a, s, i, j);
    if j == i + 1 {
      assert s[i] in s;
    }
  }

  // ---- assertions: soften the path --------------------------------------------------------------------------

  /** `t` is `s` with a hyphen for some of the backslashes that no brace or closing bracket follows. */
  ghost predicate Softened(s: string, t: string) {
    |t| == |s| && forall k :: 0 <= k < |s| ==> SoftenedAt(s, t, k)
  }

  predicate SoftenedAt(s: string, t: string, k: nat)
    requires k < |s| == |t|
  {
    t[k] == s[k] || (s[k] == '\\' && t[k] == '-' && !(k + 1 < |s| && s[k + 1] in "{}]"))
  }

  function Soften(s: string): string {
    seq(|s|, k requires 0 <= k < |s| =>
      if s[k] == '\\' && !(k + 1 < |s| && s[k + 1] in "{}]") then '-' else s[k])
  }

  lemma SoftenSoftens(s: string)
    requires OneLine(s)
    ensures Softened(s, Soften(s)) && OneLine(Soften(s)) && Kept(Soften(s))
  {
    var t := Soften(s);
    forall k | 0 <= k < |t| && t[k] == '\\'
      ensures k + 1 < |t| && t[k + 1] in "{}]"
    {
      assert s[k] == '\\' && t[k + 1] == s[k + 1];
    }
    forall k | 0 <= k < |t|
      ensures t[k] != '\n'
    {
      assert s[k] in s;
    }
  }

  lemma SoftenedRest(s: string, t: string, k: nat)
    requires Softened(s, t) && k <= |s|
    ensures Softened(s[k..], t[k..])
  {
    forall i | 0 <= i < |s[k..]|
      ensures SoftenedAt(s[k..], t[k..], i)
    {
      assert SoftenedAt(s, t, k + i);
    }
  }

  lemma SoftenedFront(s: string, t: string, k: nat)
    requires Softened(s, t) && k <= |s|
    ensures Softened(s[..k], t[..k])
  {
    forall i | 0 <= i < |s[..k]|
      ensures SoftenedAt(s[..k], t[..k], i)
    {
      assert SoftenedAt(s, t, i);
    }
  }

  /** A glob with kept backslashes does not notice. */
  lemma {:induction false} SoftMatches(p: string, s: string, t: string)
    requires Kept(p) && GlobMatch(p, s) && Softened(s, t)
    ensures GlobMatch(p, t)
    decreases |p|
  {
    if p == "" {
    } else {
      assert s[0..] == s && t[0..] == t;
      var k := GlobStepEnds(p, s, 0);
      KeptSuffix(p, StepLength(p));
      SoftenedRest(s, t, k);
      SoftMatches(p[StepLength(p)..], s[k..], t[k..]);
      SoftStep(p, s, t, k);
      GlobStepExtends(p, t, 0, k);
    }
  }

  lemma SoftStep(p: string, s: string, t: string, k: nat)
    requires p != "" && Kept(p) && Softened(s, t) && k <= |s|
    requires StepMatches(p, s, 0, k) && GlobMatch(p[StepLength(p)..], s[k..])
    ensures StepMatches(p, t, 0, k)
  {
    assert forall i :: 0 <= i < |s| ==> SoftenedAt(s, t, i);
    if StartsDoubleSlash(p) {
      assert k > 0 ==> SoftenedAt(s, t, k - 1);
    } else if StartsDouble(p) {
    } else if p[0] == '*' {
      NoSlashSoftened(s, t, k);
    } else {
      assert SoftenedAt(s, t, 0);
      if p[0] == '\\' {
        assert p[1..][0] in "{}]";
        FirstCharacterLiteral(p[1..], s[1..]);
      }
    }
  }

  lemma NoSlashSoftened(s: string, t: string, k: nat)
    requires Softened(s, t) && k <= |s| && '/' !in s[0..k]
    ensures '/' !in t[0..k]
  {
    forall i | 0 <= i < |t[0..k]|
      ensures t[0..k][i] != '/'
    {
      assert SoftenedAt(s, t, i);
      assert s[0..k][i] in s[0..k];
    }
  }

  lemma AssertionSoft(a: Atom, s: string, t: string, i: nat, j: nat)
    requires ZeroWidth(a) && Softened(s, t) && i <= j <= |s| && MatchAtom(a, s, i, j)
    ensures i == j && MatchAtom(a, t, i, j)
  {
    forall k | 0 <= k < |s|
      ensures IsWord(t[k]) == IsWord(s[k])
    {
      assert SoftenedAt(s, t, k);
    }
  }

  /** A match of the glob has the backslash and the letter next to each other. */
  lemma LooseStays(q: string, r: string, s: string)
    requires GlobMatch(Loose(q, r), s) && r != "" && Literal(r[0]) && r[0] !in "{}]"
    ensures !Kept(s)
  {
    var k := WholeSplits(q, "\\" + r, s);
    assert r == [r[0]] + r[1..];
    TwoLiterals(r[0], r[1..], s[k..]);
    assert s[k] == '\\' && s[k + 1] == r[0];
  }

  lemma AssertionDiffers(q: string, r: string, n: nat, a: Atom)
    requires Kept(q) && OneLine(q) && OneLine(r) && 1 <= n <= |r| && Kept(r[n..]) && ZeroWidth(a)
    requires Literal(r[0]) && r[0] !in "{}]"
    requires ReadPieces(LooseText(r)) == Prepend([Once(a)], ReadPieces(Tail(r[n..])))
    ensures Differs(Loose(q, r))
  {
    var mid, r' := [Once(a)], r[n..];
    if s, i, j :| 0 <= i <= j <= |s| && OneLine(s) && Splits(q, mid, r', s, i, j) {
      var t := Soften(s);
      SoftenSoftens(s);
      SoftSplits(q, a, r', s, t, i, j);
      CompilesLoose(q, r, mid, r');
      CompiledMatches(Loose(q, r), q, mid, r', t);
      if GlobMatch(Loose(q, r), t) {
        LooseStays(q, r, t);
      }
    } else {
      DiffersByEmptyMiddle(q, r, mid, r');
    }
  }

  lemma SoftSplits(q: string, a: Atom, r: string, s: string, t: string, i: nat, j: nat)
    requires Kept(q) && Kept(r) && ZeroWidth(a) && Softened(s, t)
    requires i <= j <= |s| && Splits(q, [Once(a)], r, s, i, j)
    ensures Splits(q, [Once(a)], r, t, i, j)
  {
    SoftenedFront(s, t, i);
    SoftenedRest(s, t, j);
    SoftMatches(q, s[..i], t[..i]);
    SoftMatches(r, s[j..], t[j..]);
    MatchOne(Once(a), s, i, j);
    AssertionSoft(a, s, t, i, j);
    MatchOne(Once(a), t, i, j);
  }

  // ---- an opening bracket: a character class ----------------------------------------------------------------

  /**
    Where a class opened inside compiled text ends: with the class of a star or question mark, or
    with a kept bracket.
  */
  ghost predicate Closes(w: string, r: Parse<seq<Token>>, w2: string, star: bool) {
    || r.Malformed?
    || (r.Parsed? && r.value != [] && (r.value[|r.value| - 1].c == '/' || r.value[|r.value| - 1].c == '\\')
        && Kept(w2) && (OneLine(w) ==> OneLine(w2))
        && r.rest == (if star then "*" + Tail(w2) else Tail(w2))
        && |Shortest(w2)| + (if star then 0 else 1) <= |Shortest(w)|)
  }

  lemma ClosesAfter(token: Token, w: string, w': string, r: Parse<seq<Token>>, w2: string, star: bool)
    requires Closes(w', r, w2, star) && |Shortest(w')| <= |Shortest(w)| && (OneLine(w) ==> OneLine(w'))
    ensures Closes(w, PrependToken(token, r), w2, star)
  {
    if r.Parsed? {
      var ts := [token] + r.value;
      assert ts[|ts| - 1] == r.value[|r.value| - 1];
    }
  }

  /** One ordinary token in front. */
  lemma TokenThen(c: char, y: string, first: bool)
    requires c != '\\' && (c != ']' || first)
    ensures ReadTokens([c] + y, first) == PrependToken(Token(c, false), ReadTokens(y, false))
  {
    assert ([c] + y)[1..] == y;
  }

  lemma PlainThenCloses(c: char, y: string, first: bool, w: string, w': string, w2: string, star: bool)
    requires c != '\\' && (c != ']' || first) && Closes(w', ReadTokens(y, false), w2, star)
    requires |Shortest(w')| <= |Shortest(w)| && (OneLine(w) ==> OneLine(w'))
    ensures Closes(w, ReadTokens([c] + y, first), w2, star)
  {
    TokenThen(c, y, first);
    ClosesAfter(Token(c, false), w, w', ReadTokens(y, false), w2, star);
  }

  lemma QuotedThenCloses(c: char, y: string, first: bool, w: string, w': string, w2: string, star: bool)
    requires !IsLetter(c) && !IsDigit(c) && Closes(w', ReadTokens(y, false), w2, star)
    requires |Shortest(w')| <= |Shortest(w)| && (OneLine(w) ==> OneLine(w'))
    ensures Closes(w, ReadTokens("\\" + ([c] + y), first), w2, star)
  {
    QuotedThen(c, y, first);
    ClosesAfter(Token(c, true), w, w', ReadTokens(y, false), w2, star);
  }

  lemma QuotedThen(c: char, y: string, first: bool)
    requires !IsLetter(c) && !IsDigit(c)
    ensures ReadTokens("\\" + ([c] + y), first) == PrependToken(Token(c, true), ReadTokens(y, false))
  {
    var t := "\\" + ([c] + y);
    assert t[1..] == [c] + y && t[2..] == y;
  }

  lemma {:induction false} ClosingOf(w: string, first: bool) returns (w2: string, star: bool)
    requires Kept(w)
    ensures Closes(w, ReadTokens(Tail(w), first), w2, star)
    decreases |w|
  {
    w2, star := "", false;
    if w == "" {
      assert Tail(w) == ['$'] + "";
      TokenThen('$', "", first);
    } else if w[0] == '\\' {
      w2, star := ClosingOfPair(w, first);
    } else if StartsDoubleSlash(w) {
      w2, star := ClosingOfDirectories(w, first);
    } else if StartsDouble(w) {
      w2, star := ClosingOfDouble(w, first);
    } else if w[0] == '*' || w[0] == '?' {
      w2, star := w[1..], w[0] == '*';
      ClosingHere(w, first);
    } else {
      w2, star := ClosingOfCharacter(w, first);
    }
  }

  lemma PairTail(w: string)
    requires Kept(w) && w != "" && w[0] == '\\'
    ensures |w| >= 2 && w[1] in "{}]" && Kept(w[2..]) && (OneLine(w) ==> OneLine(w[2..]))
    ensures Tail(w) == "\\" + (['\\'] + ([w[1]] + Tail(w[2..])))
    ensures |Shortest(w)| == 2 + |Shortest(w[2..])|
  {
    BodyOfKeptPair(w);
    BackslashStep(w);
    EscapedStep(w[1..]);
    KeptSuffix(w, 2);
    assert w[1..][1..] == w[2..];
    PairText(Body(w), w[1], Body(w[2..]));
  }

  lemma PairText(body: string, c: char, rest: string)
    requires body == "\\\\" + ([c] + rest)
    ensures body + "$" == "\\" + (['\\'] + ([c] + (rest + "$")))
  {
    Regroup("\\\\", [c], rest, "$");
    TwoBackslashes([c] + (rest + "$"));
  }

  lemma {:induction false} ClosingOfPair(w: string, first: bool) returns (w2: string, star: bool)
    requires Kept(w) && w != "" && w[0] == '\\'
    ensures Closes(w, ReadTokens(Tail(w), first), w2, star)
    decreases |w|, 0
  {
    var w', c := w[2..], w[1];
    PairTail(w);
    QuotedThen('\\', [c] + Tail(w'), first);
    if c == ']' {
      w2, star := w', false;
      assert ([c] + Tail(w'))[1..] == Tail(w');
      assert ReadTokens([c] + Tail(w'), false) == Parsed([], Tail(w'));
    } else {
      w2, star := ClosingOf(w', false);
      TokenThen(c, Tail(w'), false);
      ClosesAfter(Token(c, false), w, w', ReadTokens(Tail(w'), false), w2, star);
      ClosesAfter(Token('\\', true), w, w, ReadTokens([c] + Tail(w'), false), w2, star);
    }
  }

  lemma {:induction false} ClosingOfDirectories(w: string, first: bool) returns (w2: string, star: bool)
    requires Kept(w) && StartsDoubleSlash(w)
    ensures Closes(w, ReadTokens(Tail(w), first), w2, star)
    decreases |w|, 0
  {
    var w' := w[3..];
    BodyStep(w);
    KeptSuffix(w, 3);
    w2, star := ClosingOf(w', false);
    assert Tail(w) == "(?:.*/)??" + Tail(w');
    ClosesAfterAll("(?:.*/)??", Tail(w'), w, w', first, w2, star);
  }

  lemma {:induction false} ClosingOfDouble(w: string, first: bool) returns (w2: string, star: bool)
    requires Kept(w) && w != "" && StartsDouble(w) && !StartsDoubleSlash(w)
    ensures Closes(w, ReadTokens(Tail(w), first), w2, star)
    decreases |w|, 0
  {
    var w' := w[2..];
    BodyStep(w);
    KeptSuffix(w, 2);
    w2, star := ClosingOf(w', false);
    assert Tail(w) == ".*" + Tail(w');
    ClosesAfterAll(".*", Tail(w'), w, w', first, w2, star);
  }

  /** Several ordinary tokens in front. */
  lemma {:induction false} ClosesAfterAll(u: string, t: string, w: string, w': string, first: bool, w2: string,
                                          star: bool)
    requires '\\' !in u && ']' !in u && u != ""
    requires Closes(w', ReadTokens(t, false), w2, star)
    requires |Shortest(w')| <= |Shortest(w)| && (OneLine(w) ==> OneLine(w'))
    ensures Closes(w, ReadTokens(u + t, first), w2, star)
    decreases |u|
  {
    var y := u[1..] + t;
    assert u + t == [u[0]] + y && u[0] in u;
    if |u| == 1 {
      assert y == t;
      PlainThenCloses(u[0], y, first, w, w', w2, star);
    } else {
      ClosesAfterAll(u[1..], t, w, w', false, w2, star);
      PlainThenCloses(u[0], y, first, w, w, w2, star);
    }
  }

  lemma ClosingHere(w: string, first: bool)
    requires Kept(w) && w != "" && !StartsDouble(w) && (w[0] == '*' || w[0] == '?')
    ensures Closes(w, ReadTokens(Tail(w), first), w[1..], w[0] == '*')
  {
    var rest := if w[0] == '*' then "*" + Tail(w[1..]) else Tail(w[1..]);
    KeptSuffix(w, 1);
    ClassText(w, rest);
    ClassTokens(rest, first);
  }

  lemma ClassText(w: string, rest: string)
    requires w != "" && !StartsDouble(w) && (w[0] == '*' || w[0] == '?')
    requires rest == if w[0] == '*' then "*" + Tail(w[1..]) else Tail(w[1..])
    ensures Tail(w) == "[" + ("^" + ("/" + ("]" + rest)))
  {
    if w[0] == '*' {
      StarText(w);
      assert LooseText(w)[1..] == Tail(w);
    } else {
      QuestionText(w);
      assert LooseText(w)[1..] == Tail(w);
    }
  }

  lemma ClassTokens(rest: string, first: bool)
    ensures ReadTokens("[" + ("^" + ("/" + ("]" + rest))), first) ==
            Parsed([Token('[', false), Token('^', false), Token('/', false)], rest)
  {
    assert ("]" + rest)[1..] == rest && ReadTokens("]" + rest, false) == Parsed([], rest);
    assert "/" == ['/'] && "^" == ['^'] && "[" == ['['];
    TokenThen('/', "]" + rest, false);
    TokenThen('^', "/" + ("]" + rest), false);
    TokenThen('[', "^" + ("/" + ("]" + rest)), first);
    var a, b, c := Token('[', false), Token('^', false), Token('/', false);
    assert [a] + ([b] + ([c] + [])) == [a, b, c];
  }

  lemma {:induction false} ClosingOfCharacter(w: string, first: bool) returns (w2: string, star: bool)
    requires Kept(w) && w != "" && w[0] != '\\' && w[0] != '*' && w[0] != '?'
    ensures Closes(w, ReadTokens(Tail(w), first), w2, star)
    decreases |w|, 0
  {
    var w', c := w[1..], w[0];
    KeptSuffix(w, 1);
    w2, star := ClosingOf(w', false);
    if Escaped(c) {
      EscapedTail(w);
      QuotedThenCloses(c, Tail(w'), first, w, w', w2, star);
    } else {
      LiteralText(w);
      PlainThenCloses(c, Tail(w'), first, w, w', w2, star);
    }
  }

  lemma EscapedTail(w: string)
    requires w != "" && Escaped(w[0])
    ensures Tail(w) == "\\" + ([w[0]] + Tail(w[1..])) && |Shortest(w)| == 1 + |Shortest(w[1..])|
  {
    EscapedStep(w);
    Regroup("\\", [w[0]], Body(w[1..]), "$");
    assert ['\\', w[0]] == "\\" + [w[0]];
    Associates("\\", [w[0]], Body(w[1..]));
  }

  /** The last character of a class is always a member. */
  lemma {:induction false} LastIsMember(tokens: seq<Token>)
    requires tokens != [] && Ranges(tokens).Parsed?
    ensures InRanges(Ranges(tokens).value, tokens[|tokens| - 1].c)
    decreases |tokens|
  {
    var n := if |tokens| >= 3 && tokens[1] == Token('-', false) then 3 else 1;
    var rs, last := Ranges(tokens).value, tokens[|tokens| - 1].c;
    if |tokens| == n {
      assert rs[0].lo <= last <= rs[0].hi;
    } else {
      var more := Ranges(tokens[n..]).value;
      LastIsMember(tokens[n..]);
      assert rs[1..] == more;
      var k :| 0 <= k < |more| && more[k].lo <= last <= more[k].hi;
      assert rs[k + 1] == more[k];
    }
  }

  /** What an opening bracket reads as: a class of the ranges of its tokens, or an error. */
  lemma BracketAtom(y: string)
    requires y != "" && y[0] != '^'
    ensures var tokens := ReadTokens(y, true);
      && (tokens.Malformed? ==> ReadAtom("[" + y).Malformed?)
      && (tokens.Parsed? ==>
            if Ranges(tokens.value).Parsed?
            then ReadAtom("[" + y) == Parsed(Class(false, Ranges(tokens.value).value), tokens.rest)
            else ReadAtom("[" + y).Malformed?)
  {
    assert ("[" + y)[1..] == y;
  }

  /** Before an opening bracket: a class takes in what follows, up to some closing bracket. */
  lemma BeforeBracket(q: string, r: string)
    requires Kept(q) && OneLine(q) && OneLine(r) && r != "" && r[0] == '[' && Kept(r[1..])
    ensures Differs(Loose(q, r))
  {
    var y := Tail(r[1..]);
    EscapedText(r);
    TailStarts(r[1..]);
    ReadBackslash("[" + y);
    BracketAtom(y);
    var w2, star := ClosingOf(r[1..], true);
    var tokens := ReadTokens(y, true);
    if tokens.Malformed? || !Ranges(tokens.value).Parsed? {
      MalformedLoose(q, r);
    } else {
      var a := Class(false, Ranges(tokens.value).value);
      LastIsMember(tokens.value);
      ClassDiffers(q, r, a, tokens.value[|tokens.value| - 1].c, w2, star);
    }
  }

  /** The compiled text has a class where the glob has the bracket and what the class took in. */
  ghost predicate TakesClass(q: string, r: string, a: Atom, c: char, w2: string, star: bool) {
    && Kept(q) && OneLine(q) && OneLine(r) && r != "" && r[0] == '['
    && a.Class? && !a.negated && InRanges(a.ranges, c) && c != '\n'
    && ReadAtom("[" + Tail(r[1..])) == Parsed(a, if star then "*" + Tail(w2) else Tail(w2))
    && ReadPieces(LooseText(r)) == Prepend([Once(Chr('\\'))], ReadPieces("[" + Tail(r[1..])))
    && Kept(w2) && OneLine(w2) && |Shortest(w2)| + (if star then 1 else 2) <= |Shortest(r)|
  }

  lemma ReadTakenClass(q: string, r: string, a: Atom, c: char, w2: string, star: bool)
    requires TakesClass(q, r, a, c, w2, star)
    ensures ReadPieces(LooseText(r)) ==
            Prepend([Once(Chr('\\'))] + [if star then Star(a) else Once(a)], ReadPieces(Tail(w2)))
  {
    var y := "[" + Tail(r[1..]);
    TailStarts(w2);
    if star {
      assert ("*" + Tail(w2))[1..] == Tail(w2);
      ReadQuantified(y, a, "*" + Tail(w2), Star(a), Tail(w2));
    } else {
      ReadOnce(y, a, Tail(w2));
    }
    PrependTwice([Once(Chr('\\'))], [if star then Star(a) else Once(a)], ReadPieces(Tail(w2)));
  }

  lemma ClassDiffers(q: string, r: string, a: Atom, c: char, w2: string, star: bool)
    requires TakesClass(q, r, a, c, w2, star)
    ensures Differs(Loose(q, r))
  {
    if star {
      StarredClassDiffers(q, r, a, c, w2);
    } else {
      PlainClassDiffers(q, r, a, c, w2);
    }
  }

  lemma StarredClassDiffers(q: string, r: string, a: Atom, c: char, w2: string)
    requires TakesClass(q, r, a, c, w2, true)
    ensures Differs(Loose(q, r))
  {
    ReadTakenClass(q, r, a, c, w2, true);
    StarredClassMatches(q, a, w2);
    DiffersByMiddle(q, r, [Once(Chr('\\'))] + [Star(a)], w2, "\\");
  }

  lemma PlainClassDiffers(q: string, r: string, a: Atom, c: char, w2: string)
    requires TakesClass(q, r, a, c, w2, false)
    ensures Differs(Loose(q, r))
  {
    ReadTakenClass(q, r, a, c, w2, false);
    ClassMatches(q, a, c, w2);
    DiffersByMiddle(q, r, [Once(Chr('\\'))] + [Once(a)], w2, ['\\', c]);
  }

  lemma StarredClassMatches(q: string, a: Atom, w2: string)
    ensures MatchAt([Once(Chr('\\'))] + [Star(a)], Around(q, "\\", w2), |Shortest(q)|, |Shortest(q)| + |"\\"|)
  {
    var s, i := Around(q, "\\", w2), |Shortest(q)|;
    TwoMatch(Once(Chr('\\')), Star(a), s, i, i + 1, i + 1);
  }

  lemma ClassMatches(q: string, a: Atom, c: char, w2: string)
    requires a.Class? && !a.negated && InRanges(a.ranges, c)
    ensures MatchAt([Once(Chr('\\'))] + [Once(a)], Around(q, ['\\', c], w2), |Shortest(q)|, |Shortest(q)| + |['\\', c]|)
  {
    var s, i := Around(q, ['\\', c], w2), |Shortest(q)|;
    assert s[i] == '\\' && s[i + 1] == c;
    TwoMatch(Once(Chr('\\')), Once(a), s, i, i + 1, i + 2);
  }

  // ---- the theorem ------------------------------------------------------------------------------------------

  /** What a loose backslash uses up of the pattern after it: another backslash, if one follows. */
  function AfterLoose(r: string): string {
    if r != "" && r[0] == '\\' then r[1..] else r
  }

  /** `p` has exactly one loose backslash, between `q` and `r`. */
  predicate LooseBetween(p: string, q: string, r: string) {
    && p == Loose(q, r) && Kept(q) && Kept(AfterLoose(r))
    && (r == "" || r[0] !in "{}]")
  }

  /** Whatever a loose backslash stands before, it changes what the pattern means. */
  lemma LooseDiffers(q: string, r: string)
    requires OneLine(q) && OneLine(r) && LooseBetween(Loose(q, r), q, r)
    ensures Differs(Loose(q, r))
  {
    if r == "" {
      BeforeTheEnd(q);
    } else {
      KeptSuffix(AfterLoose(r), 0);
      if r[0] == '\\' {
        BeforeBackslash(q, r);
      } else {
        KeptSuffix(r, StepLength(r));
        if StartsDoubleSlash(r) {
          BeforeDirectories(q, r);
        } else if StartsDouble(r) {
          BeforeDouble(q, r);
        } else if r[0] == '*' {
          BeforeStar(q, r);
        } else if r[0] == '?' {
          BeforeQuestion(q, r);
        } else if Escaped(r[0]) {
          BeforeEscaped(q, r);
        } else {
          BeforeLiteral(q, r);
        }
      }
    }
  }

  lemma BeforeEscaped(q: string, r: string)
    requires Kept(q) && OneLine(q) && OneLine(r) && r != "" && Escaped(r[0]) && r[0] !in "{}]" && Kept(r[1..])
    ensures Differs(Loose(q, r))
  {
    match r[0]
    case '.' => BeforeDot(q, r);
    case '^' => BeforeCaret(q, r);
    case '$' => BeforeDollar(q, r);
    case '+' => BeforePlus(q, r);
    case '|' => BeforeBar(q, r);
    case '(' => BeforeOpening(q, r);
    case ')' => BeforeClosing(q, r);
    case _ => BeforeBracket(q, r);
  }

  /** Glob and compiled text decide every one-line path alike. */
  ghost predicate KeepsMeaning(p: string) {
    forall s :: OneLine(s) ==> (Matches(RegexText(p), s) <==> GlobMatch(p, s))
  }

  /**
    Exactly when a pattern keeps its meaning, among those with at most one loose backslash: when
    it has none, that is, when every backslash is followed by a closing bracket or a brace.
  */
  lemma KeepsMeaningIff(p: string)
    requires OneLine(p) && (Kept(p) || exists q, r :: LooseBetween(p, q, r))
    ensures KeepsMeaning(p) <==> Kept(p)
  {
    if Kept(p) {
      forall s | OneLine(s)
        ensures Matches(RegexText(p), s) <==> GlobMatch(p, s)
      {
        CompilationPreservesMeaning(p, s);
      }
    } else {
      var q, r :| LooseBetween(p, q, r);
      PartsOneLine(q, r);
      LooseDiffers(q, r);
    }
  }

  lemma PartsOneLine(q: string, r: string)
    requires OneLine(Loose(q, r))
    ensures OneLine(q) && OneLine(r)
  {
  }
}
