/**
  CODEOWNERS patterns: the compiler from globs to regular-expression text, what the compiled
  text means, and the lookup of owners built on it.
*/
module Ownership {
  import opened Options
  import opened PythonRegex

  // ---- what a glob means, without regular expressions ---------------------------------------

  predicate StartsDoubleSlash(p: string) {
    |p| >= 3 && p[0] == '*' && p[1] == '*' && p[2] == '/'
  }

  predicate StartsDouble(p: string) {
    |p| >= 2 && p[0] == '*' && p[1] == '*'
  }

  /** No separator in the first `k` characters. */
  predicate SlashFree(s: string, k: nat)
    requires k <= |s|
  {
    '/' !in s[..k]
  }

  /**
    `**``/` stands for nothing or for any text ending in a slash, `**` for any text, `*` for any
    text without a slash, `?` for one character other than a slash, and every other character
    for itself.
  */
  ghost predicate GlobMatch(p: string, s: string)
    decreases |p|
  {
    if p == "" then s == ""
    else if StartsDoubleSlash(p) then
      GlobMatch(p[3..], s) || exists k :: 0 <= k < |s| && s[k] == '/' && GlobMatch(p[3..], s[k + 1..])
    else if StartsDouble(p) then
      exists k :: 0 <= k <= |s| && GlobMatch(p[2..], s[k..])
    else if p[0] == '*' then
      exists k :: 0 <= k <= |s| && SlashFree(s, k) && GlobMatch(p[1..], s[k..])
    else if p[0] == '?' then
      s != "" && s[0] != '/' && GlobMatch(p[1..], s[1..])
    else
      s != "" && s[0] == p[0] && GlobMatch(p[1..], s[1..])
  }

  function Slashes(s: string): nat {
    if s == "" then 0 else (if s[0] == '/' then 1 else 0) + Slashes(s[1..])
  }

  lemma {:induction false} SlashesConcat(a: string, b: string)
    ensures Slashes(a + b) == Slashes(a) + Slashes(b)
  {
    if a == "" {
      assert a + b == b;
    } else {
      assert (a + b)[1..] == a[1..] + b;
      SlashesConcat(a[1..], b);
    }
  }

  lemma {:induction false} NoSlashes(s: string)
    requires '/' !in s
    ensures Slashes(s) == 0
  {
    if s == "" {
    } else {
      NoSlashes(s[1..]);
    }
  }

  predicate NoDoubleStar(p: string) {
    forall i :: 0 <= i < |p| - 1 ==> p[i] != '*' || p[i + 1] != '*'
  }

  /** Without a double star a glob matches only paths of its own depth. */
  lemma {:induction false} GlobKeepsDepth(p: string, s: string)
    requires NoDoubleStar(p) && GlobMatch(p, s)
    ensures Slashes(s) == Slashes(p)
    decreases |p|
  {
    if p == "" {
    } else {
      assert !StartsDouble(p);
      assert NoDoubleStar(p[1..]) by {
        assert forall i :: 0 <= i < |p[1..]| ==> p[1..][i] == p[i + 1];
      }
      if p[0] == '*' {
        var k :| 0 <= k <= |s| && SlashFree(s, k) && GlobMatch(p[1..], s[k..]);
        GlobKeepsDepth(p[1..], s[k..]);
        assert s == s[..k] + s[k..];
        SlashesConcat(s[..k], s[k..]);
        NoSlashes(s[..k]);
      } else {
        GlobKeepsDepth(p[1..], s[1..]);
      }
    }
  }

  /** A pattern without stars and question marks matches itself and nothing else. */
  lemma {:induction false} PlainGlobIsText(p: string, s: string)
    requires '*' !in p && '?' !in p
    ensures GlobMatch(p, s) <==> s == p
    decreases |p|
  {
    if p == "" {
    } else {
      assert p[0] in p && p == [p[0]] + p[1..];
      if s != "" {
        assert s == [s[0]] + s[1..];
        PlainGlobIsText(p[1..], s[1..]);
      }
    }
  }

  lemma DoubleStarAlone(s: string)
    ensures GlobMatch("**", s)
  {
    var n := |s|;
    assert "**"[2..] == "" && s[n..] == "";
    assert GlobMatch("", s[n..]);
  }

  lemma StarAlone(s: string)
    ensures GlobMatch("*", s) <==> '/' !in s
  {
    var n := |s|;
    assert "*"[1..] == "" && s[n..] == "" && s[..n] == s;
    assert GlobMatch("", s[n..]);
  }

  lemma QuestionMarkAlone(s: string)
    ensures GlobMatch("?", s) <==> |s| == 1 && s[0] != '/'
  {
    assert "?"[1..] == "";
  }

  lemma OnlyEmpty(s: string)
    ensures GlobMatch("", s) <==> s == ""
  {
  }

  lemma DirectoriesAlone(s: string)
    ensures GlobMatch("**/", s) <==> s == "" || s[|s| - 1] == '/'
  {
    DirectoriesThen("**/", "", s);
    hide GlobMatch;
    OnlyEmpty(s);
    if s != "" {
      var last := |s| - 1;
      OnlyEmpty(s[last + 1..]);
      if GlobMatch("**/", s) {
        var k :| 0 <= k < |s| && s[k] == '/' && GlobMatch("", s[k + 1..]);
        OnlyEmpty(s[k + 1..]);
      }
    }
  }

  lemma DirectoriesThen(p: string, rest: string, s: string)
    requires StartsDoubleSlash(p) && rest == p[3..]
    ensures GlobMatch(p, s) <==>
            GlobMatch(rest, s) || exists k :: 0 <= k < |s| && s[k] == '/' && GlobMatch(rest, s[k + 1..])
  {
  }

  /** What the wildcards stand for on their own. */
  lemma WildcardsAlone(s: string)
    ensures GlobMatch("**", s)
    ensures GlobMatch("*", s) <==> '/' !in s
    ensures GlobMatch("?", s) <==> |s| == 1 && s[0] != '/'
    ensures GlobMatch("**/", s) <==> s == "" || s[|s| - 1] == '/'
  {
    hide GlobMatch;
    DoubleStarAlone(s);
    StarAlone(s);
    QuestionMarkAlone(s);
    DirectoriesAlone(s);
  }

  // ---- the compiler ------------------------------------------------------------------------

  /** The characters the compiler escapes. */
  predicate Escaped(c: char) {
    || c == '.' || c == '^' || c == '$' || c == '+' || c == '{' || c == '}'
    || c == '|' || c == '(' || c == ')' || c == '[' || c == ']'
  }

  /** The characters one step of `_glob_to_regex` consumes, and the text it appends. */
  function StepLength(p: string): (n: nat)
    requires p != ""
    ensures 1 <= n <= |p|
  {
    if StartsDoubleSlash(p) then 3 else if StartsDouble(p) then 2 else 1
  }

  function StepText(p: string): string
    requires p != ""
  {
    if StartsDoubleSlash(p) then "(?:.*/)??"
    else if StartsDouble(p) then ".*"
    else if p[0] == '*' then "[^/]*"
    else if p[0] == '?' then "[^/]"
    else if Escaped(p[0]) then ['\\', p[0]]
    else [p[0]]
  }

  function Body(p: string): string
    decreases |p|
  {
    if p == "" then "" else StepText(p) + Body(p[StepLength(p)..])
  }

  function RegexText(p: string): string {
    "^" + Body(p) + "$"
  }

  lemma BodyStepAs(p: string, t: string, rest: string)
    requires p != "" && t == StepText(p) && rest == p[StepLength(p)..]
    ensures Body(p) == t + Body(rest)
  {
  }

  lemma Associates(a: string, b: string, c: string)
    ensures a + (b + c) == a + b + c
  {
  }

  /** One pass of the loop appends the text of one step. */
  lemma StepAt(pattern: string, i: nat, regex: string, i': nat, regex': string)
    requires i < |pattern|
    requires i' == i + StepLength(pattern[i..]) && regex' == regex + StepText(pattern[i..])
    ensures i' <= |pattern| && regex + Body(pattern[i..]) == regex' + Body(pattern[i'..])
  {
    var p, t := pattern[i..], StepText(pattern[i..]);
    assert p[StepLength(p)..] == pattern[i'..];
    BodyStepAs(p, t, pattern[i'..]);
    Associates(regex, t, Body(pattern[i'..]));
  }

  /** How the step at `i` starts, in terms of the whole pattern. */
  lemma StartsAt(pattern: string, i: nat)
    requires i < |pattern|
    ensures pattern[i..][0] == pattern[i]
    ensures StartsDouble(pattern[i..]) <==> pattern[i] == '*' && i + 1 < |pattern| && pattern[i + 1] == '*'
    ensures StartsDoubleSlash(pattern[i..]) <==>
              StartsDouble(pattern[i..]) && i + 2 < |pattern| && pattern[i + 2] == '/'
  {
  }

  method GlobToRegex(pattern: string) returns (text: string)
    ensures text == RegexText(pattern)
  {
    var regex := "";
    var i := 0;
    while i < |pattern|
      invariant 0 <= i <= |pattern|
      invariant Body(pattern) == regex + Body(pattern[i..])
    {
      var c := pattern[i];
      ghost var i0, regex0 := i, regex;
      StartsAt(pattern, i);
      if c == '*' {
        if i + 1 < |pattern| && pattern[i + 1] == '*' {
          if i + 2 < |pattern| && pattern[i + 2] == '/' {
            regex := regex + "(?:.*/)??";
            i := i + 3;
          } else {
            regex := regex + ".*";
            i := i + 2;
          }
        } else {
          regex := regex + "[^/]*";
          i := i + 1;
        }
      } else if c == '?' {
        regex := regex + "[^/]";
        i := i + 1;
      } else if Escaped(c) {
        regex := regex + ['\\', c];
        i := i + 1;
      } else {
        regex := regex + [c];
        i := i + 1;
      }
      StepAt(pattern, i0, regex0, i, regex);
    }
    text := "^" + regex + "$";
  }

  // ---- reading the compiled text back ---------------------------------------------------------

  const NOT_SLASH := Class(true, [Range('/', '/')])
  const DIRECTORIES := Group([Star(Dot), Once(Chr('/'))])

  /** The piece intended for one step. */
  function StepPiece(p: string): Piece
    requires p != ""
  {
    if StartsDoubleSlash(p) then LazyOptional(DIRECTORIES)
    else if StartsDouble(p) then Star(Dot)
    else if p[0] == '*' then Star(NOT_SLASH)
    else if p[0] == '?' then Once(NOT_SLASH)
    else Once(Chr(p[0]))
  }

  function Front(p: string): seq<Piece>
    decreases |p|
  {
    if p == "" then [] else [StepPiece(p)] + Front(p[StepLength(p)..])
  }

  /** The pieces intended for a whole pattern: one for each step, and an anchor. */
  function Pieces(p: string): seq<Piece> {
    Front(p) + [Once(End)]
  }

  /**
    Every backslash is followed by a closing bracket or a brace. The compiler does not escape a
    backslash, but it does escape these three, and as literals they need no escape: the two
    backslashes read as one, and the bracket or brace as itself.
  */
  predicate Kept(p: string) {
    forall i :: 0 <= i < |p| && p[i] == '\\' ==> i + 1 < |p| && p[i + 1] in "{}]"
  }

  lemma KeptSuffix(p: string, n: nat)
    requires Kept(p) && n <= |p|
    ensures Kept(p[n..])
  {
    forall i | 0 <= i < |p[n..]| && p[n..][i] == '\\'
      ensures i + 1 < |p[n..]| && p[n..][i + 1] in "{}]"
    {
      assert p[n + i] == '\\';
    }
  }

  /** Text that can follow compiled steps here: the final anchor or a further backslash. */
  predicate Follows(x: string) {
    x != "" && (x[0] == '$' || x[0] == '\\')
  }

  /** Compiled text never starts with a quantifier, a closing mark or an anchor other than the last one. */
  lemma BodyStarts(p: string, x: string)
    requires Follows(x)
    ensures Body(p) + x != "" && (Body(p) + x)[0] !in "*+?|){}]^"
    ensures PlainStart(Body(p) + x)
  {
    if p == "" {
      assert Body(p) + x == x;
    } else {
      assert (Body(p) + x)[0] == StepText(p)[0];
    }
  }

  /** Leading digits of compiled text are steps of their own. */
  lemma {:induction false} DigitsAreSteps(p: string, x: string) returns (q: string)
    requires Follows(x)
    ensures AfterDigits(Body(p) + x) == Body(q) + x
    decreases |p|
  {
    BodyStarts(p, x);
    if p != "" && IsDigit(p[0]) {
      assert (Body(p) + x)[1..] == Body(p[1..]) + x;
      q := DigitsAreSteps(p[1..], x);
    } else {
      q := p;
      assert p != "" ==> (Body(p) + x)[0] == StepText(p)[0];
      assert p == "" ==> Body(p) + x == x;
    }
  }

  /** Neither do they lead to the brace that closes a counted repetition. */
  lemma NoBraceAfterDigits(p: string, x: string)
    requires Follows(x)
    ensures AfterDigits(Body(p) + x) != "" && AfterDigits(Body(p) + x)[0] != '}'
  {
    var q := DigitsAreSteps(p, x);
    BodyStarts(q, x);
  }

  lemma NoBraceAfterComma(p: string, x: string)
    requires Follows(x) && Body(p) + x != "" && (Body(p) + x)[0] == ','
    ensures var w := AfterDigits((Body(p) + x)[1..]); w != "" && w[0] != '}'
  {
    assert p != "" by {
      assert p == "" ==> Body(p) + x == x;
    }
    assert (Body(p) + x)[0] == StepText(p)[0];
    assert (Body(p) + x)[1..] == Body(p[1..]) + x;
    NoBraceAfterDigits(p[1..], x);
  }

  lemma NotCounted(p: string, x: string)
    requires Follows(x)
    ensures !Counted("{" + (Body(p) + x))
  {
    var t := "{" + (Body(p) + x);
    assert t[1..] == Body(p) + x;
    var q := DigitsAreSteps(p, x);
    NoBraceAfterDigits(p, x);
    if (Body(q) + x)[0] == ',' {
      NoBraceAfterComma(q, x);
    }
  }

  lemma ReadAnyThenSlash(rest: string)
    ensures ReadPieces(".*/)" + rest) == Parsed([Star(Dot), Once(Chr('/'))], ")" + rest)
  {
    var t := ".*/)" + rest;
    var t1 := "/)" + rest;
    var t2 := ")" + rest;
    assert t[1..] == "*/)" + rest && t[1..][1..] == t1 && t1[1..] == t2;
    assert ReadPieces(t2) == Parsed([], t2);
    ReadQuantified(t1, Chr('/'), t2, Once(Chr('/')), t2);
    ReadQuantified(t, Dot, t[1..], Star(Dot), t1);
    assert [Once(Chr('/'))] + [] == [Once(Chr('/'))];
    assert [Star(Dot)] + [Once(Chr('/'))] == [Star(Dot), Once(Chr('/'))];
  }

  ghost predicate ReadsAs(t: string, p: Piece, rest: string) {
    && t != "" && t[0] != '|' && t[0] != ')'
    && ReadAtom(t).Parsed? && ReadQuantifier(ReadAtom(t).value, ReadAtom(t).rest) == Parsed(p, rest)
  }

  lemma ReadOnward(t: string, p: Piece, rest: string)
    requires ReadsAs(t, p, rest)
    ensures ReadPieces(t) == Prepend([p], ReadPieces(rest))
  {
    ReadQuantified(t, ReadAtom(t).value, ReadAtom(t).rest, p, rest);
  }

  lemma ReadDirectories(rest: string)
    requires PlainStart(rest)
    ensures ReadsAs("(?:.*/)??" + rest, LazyOptional(DIRECTORIES), rest)
  {
    var t, lazy := "(?:.*/)??" + rest, "??" + rest;
    assert t[1..][2..] == ".*/)" + lazy;
    ReadAnyThenSlash(lazy);
    assert (")" + lazy)[1..] == lazy;
    assert ReadAtom(t) == Parsed(DIRECTORIES, lazy);
    assert lazy[2..] == rest;
  }

  lemma ReadDoubleStar(rest: string)
    requires PlainStart(rest)
    ensures ReadsAs(".*" + rest, Star(Dot), rest)
  {
    assert (".*" + rest)[1..] == "*" + rest && ("*" + rest)[1..] == rest;
  }

  lemma ReadNotSlash(rest: string)
    ensures ReadAtom("[^/]" + rest) == Parsed(NOT_SLASH, rest)
  {
    var t := "[^/]" + rest;
    assert t[1..][0] == '^' && t[1..][1..] == "/]" + rest;
    assert ("/]" + rest)[1..] == "]" + rest && ("]" + rest)[1..] == rest;
    assert ReadTokens("]" + rest, false) == Parsed([], rest);
    assert [Token('/', false)] + [] == [Token('/', false)];
    assert ReadTokens("/]" + rest, true) == Parsed([Token('/', false)], rest);
    assert [Token('/', false)][1..] == [];
    assert [Range('/', '/')] + [] == [Range('/', '/')];
  }

  lemma ReadStar(rest: string)
    requires PlainStart(rest)
    ensures ReadsAs("[^/]*" + rest, Star(NOT_SLASH), rest)
  {
    assert "[^/]*" + rest == "[^/]" + ("*" + rest);
    ReadNotSlash("*" + rest);
    assert ("*" + rest)[1..] == rest;
  }

  lemma ReadQuestion(rest: string)
    requires PlainStart(rest)
    ensures ReadsAs("[^/]" + rest, Once(NOT_SLASH), rest)
  {
    ReadNotSlash(rest);
  }

  lemma ReadCharacter(c: char, rest: string)
    requires PlainStart(rest) && c != '\\' && c != '*' && c != '?'
    ensures ReadsAs((if Escaped(c) then ['\\', c] else [c]) + rest, Once(Chr(c)), rest)
  {
    if Escaped(c) {
      var t := ['\\', c] + rest;
      assert t[1..] == [c] + rest && t[1..][1..] == rest;
    } else {
      assert ([c] + rest)[1..] == rest;
    }
  }

  /** The text of one step, followed by text that starts plainly, reads as its piece. */
  lemma ReadStep(p: string, rest: string)
    requires p != "" && p[0] != '\\' && PlainStart(rest)
    ensures ReadsAs(StepText(p) + rest, StepPiece(p), rest)
  {
    if StartsDoubleSlash(p) {
      ReadDirectories(rest);
    } else if StartsDouble(p) {
      ReadDoubleStar(rest);
    } else if p[0] == '*' {
      ReadStar(rest);
    } else if p[0] == '?' {
      ReadQuestion(rest);
    } else {
      ReadCharacter(p[0], rest);
    }
  }

  /** Two backslashes read as a literal one. */
  lemma ReadBackslash(rest: string)
    requires PlainStart(rest)
    ensures ReadPieces("\\\\" + rest) == Prepend([Once(Chr('\\'))], ReadPieces(rest))
  {
    var t := "\\\\" + rest;
    assert t[1..] == "\\" + rest && t[1..][1..] == rest;
    ReadOnce(t, Chr('\\'), rest);
  }

  /** A bare bracket or brace reads as itself. */
  lemma ReadBare(c: char, p: string, x: string)
    requires c in "{}]" && Follows(x)
    ensures PlainStart([c] + (Body(p) + x))
    ensures ReadPieces([c] + (Body(p) + x)) == Prepend([Once(Chr(c))], ReadPieces(Body(p) + x))
  {
    var y := Body(p) + x;
    var t := [c] + y;
    BodyStarts(p, x);
    NotCounted(p, x);
    assert c == '{' ==> t == "{" + y;
    assert c != '{' ==> !Counted(t);
    assert t[1..] == y;
    ReadOnce(t, Chr(c), y);
  }

  lemma BackslashStep(p: string)
    requires p != "" && p[0] == '\\'
    ensures StepLength(p) == 1 && StepText(p) == "\\" && StepPiece(p) == Once(Chr('\\'))
    ensures Body(p) == "\\" + Body(p[1..]) && Front(p) == [Once(Chr('\\'))] + Front(p[1..])
  {
  }

  lemma EscapedStep(p: string)
    requires p != "" && Escaped(p[0])
    ensures StepLength(p) == 1 && StepText(p) == ['\\', p[0]] && StepPiece(p) == Once(Chr(p[0]))
    ensures Body(p) == ['\\', p[0]] + Body(p[1..]) && Front(p) == [Once(Chr(p[0]))] + Front(p[1..])
  {
  }

  lemma BodyOfKeptPair(p: string)
    requires |p| >= 2 && p[0] == '\\' && p[1] in "{}]"
    ensures Body(p) == "\\\\" + ([p[1]] + Body(p[2..]))
    ensures Front(p) == [Once(Chr('\\'))] + ([Once(Chr(p[1]))] + Front(p[2..]))
  {
    BackslashStep(p);
    EscapedStep(p[1..]);
    assert p[1..][1..] == p[2..];
    KeptPairText(Body(p), Body(p[1..]), Body(p[2..]), p[1]);
  }

  lemma KeptPairText(body: string, body1: string, body2: string, c: char)
    requires body == "\\" + body1 && body1 == ['\\', c] + body2
    ensures body == "\\\\" + ([c] + body2)
  {
  }

  lemma Regroup(a: string, b: string, c: string, d: string)
    ensures a + (b + c) + d == a + (b + (c + d))
  {
  }

  /** A backslash with the bracket or brace after it. */
  lemma ReadKeptPair(p: string, x: string)
    requires |p| >= 2 && p[0] == '\\' && p[1] in "{}]" && Follows(x)
    ensures ReadPieces(Body(p) + x) ==
            Prepend([Once(Chr('\\'))], Prepend([Once(Chr(p[1]))], ReadPieces(Body(p[2..]) + x)))
  {
    var y := Body(p[2..]) + x;
    BodyOfKeptPair(p);
    Regroup("\\\\", [p[1]], Body(p[2..]), x);
    ReadBare(p[1], p[2..], x);
    ReadBackslash([p[1]] + y);
  }

  lemma ReadOneStep(p: string, x: string)
    requires p != "" && p[0] != '\\' && Follows(x)
    ensures ReadPieces(Body(p) + x) == Prepend([StepPiece(p)], ReadPieces(Body(p[StepLength(p)..]) + x))
  {
    var t, rest := Body(p) + x, Body(p[StepLength(p)..]) + x;
    BodyStarts(p[StepLength(p)..], x);
    ReadStep(p, rest);
    ReadOnward(StepText(p) + rest, StepPiece(p), rest);
    BodyThen(p, x);
  }

  lemma BodyThen(p: string, x: string)
    requires p != ""
    ensures Body(p) + x == StepText(p) + (Body(p[StepLength(p)..]) + x)
  {
  }

  /** Compiled text reads as exactly the intended pieces, and then as whatever follows it. */
  lemma {:induction false} ReadFront(p: string, x: string)
    requires Kept(p) && Follows(x)
    ensures ReadPieces(Body(p) + x) == Prepend(Front(p), ReadPieces(x))
    decreases |p|
  {
    var r := ReadPieces(x);
    if p == "" {
      assert Body(p) + x == x;
      assert r.Parsed? ==> [] + r.value == r.value;
    } else if p[0] == '\\' {
      KeptSuffix(p, 2);
      ReadKeptPair(p, x);
      ReadFront(p[2..], x);
      BodyOfKeptPair(p);
      PrependTwice([Once(Chr(p[1]))], Front(p[2..]), r);
      PrependTwice([Once(Chr('\\'))], [Once(Chr(p[1]))] + Front(p[2..]), r);
    } else {
      KeptSuffix(p, StepLength(p));
      ReadFront(p[StepLength(p)..], x);
      ReadOneStep(p, x);
      PrependTwice([StepPiece(p)], Front(p[StepLength(p)..]), r);
    }
  }

  lemma ReadEnd()
    ensures ReadPieces("$") == Parsed([Once(End)], "")
  {
    assert "$"[1..] == "" && ReadPieces("") == Parsed([], "");
    assert [Once(End)] + [] == [Once(End)];
  }

  /** A leading anchor and what follows it. */
  lemma ReadStart(t: string)
    requires PlainStart(t)
    ensures ReadPieces("^" + t) == Prepend([Once(Start)], ReadPieces(t))
  {
    assert ("^" + t)[1..] == t;
    ReadOnce("^" + t, Start, t);
  }

  /** The compiled text reads back as an anchor, the intended piece for every step, and an anchor. */
  lemma CompiledReadsBack(p: string)
    requires Kept(p)
    ensures Read(RegexText(p)) == Parsed([[Once(Start)] + Pieces(p)], "")
  {
    assert RegexText(p) == "^" + (Body(p) + "$");
    BodyStarts(p, "$");
    ReadStart(Body(p) + "$");
    ReadFront(p, "$");
    ReadEnd();
  }

  // ---- what the pieces match -------------------------------------------------------------------

  predicate OneLine(s: string) {
    '\n' !in s
  }

  lemma {:induction false} RepeatDot(s: string, i: nat, j: nat)
    requires i <= j <= |s| && OneLine(s)
    ensures Repeat(Dot, s, i, j)
    decreases j - i
  {
    if i == j {
    } else {
      assert s[i] in s;
      assert MatchAtom(Dot, s, i, i + 1);
      RepeatDot(s, i + 1, j);
    }
  }

  lemma NotSlashMatches(s: string, i: nat, j: nat)
    requires i <= j <= |s|
    ensures MatchAtom(NOT_SLASH, s, i, j) <==> j == i + 1 && s[i] != '/'
  {
    assert [Range('/', '/')][0] == Range('/', '/');
  }

  lemma {:induction false} RepeatNotSlash(s: string, i: nat, j: nat)
    requires i <= j <= |s|
    ensures Repeat(NOT_SLASH, s, i, j) <==> '/' !in s[i..j]
    decreases j - i
  {
    if i == j {
    } else {
      assert s[i..j] == [s[i]] + s[i + 1..j];
      RepeatNotSlash(s, i + 1, j);
      NotSlashMatches(s, i, i + 1);
    }
  }

  lemma DirectoriesMatch(s: string, i: nat, j: nat)
    requires i <= j <= |s| && OneLine(s)
    ensures MatchAtom(DIRECTORIES, s, i, j) <==> i < j && s[j - 1] == '/'
  {
    var body := [Star(Dot), Once(Chr('/'))];
    assert body[1..] == [Once(Chr('/'))] && body[1..][1..] == [];
    forall k | i <= k <= j
      ensures MatchAt(body[1..], s, k, j) <==> k + 1 == j && s[k] == '/'
    {
      assert body[1..] == [Once(Chr('/'))];
      MatchOne(Once(Chr('/')), s, k, j);
    }
    if i < j && s[j - 1] == '/' {
      RepeatDot(s, i, j - 1);
      assert MatchPiece(body[0], s, i, j - 1) && MatchAt(body[1..], s, j - 1, j);
    }
  }

  /** Where the piece of one step may stop. */
  ghost predicate StepMatches(p: string, s: string, i: nat, k: nat)
    requires p != "" && i <= k <= |s|
  {
    if StartsDoubleSlash(p) then i == k || (i < k && s[k - 1] == '/')
    else if StartsDouble(p) then true
    else if p[0] == '*' then '/' !in s[i..k]
    else if p[0] == '?' then k == i + 1 && s[i] != '/'
    else k == i + 1 && s[i] == p[0]
  }

  lemma StepPieceMatches(p: string, s: string, i: nat, k: nat)
    requires p != "" && i <= k <= |s| && OneLine(s)
    ensures MatchPiece(StepPiece(p), s, i, k) <==> StepMatches(p, s, i, k)
  {
    if StartsDoubleSlash(p) {
      DirectoriesMatch(s, i, k);
    } else if StartsDouble(p) {
      RepeatDot(s, i, k);
    } else if p[0] == '*' {
      RepeatNotSlash(s, i, k);
    } else {
      NotSlashMatches(s, i, k);
    }
  }

  /** The same step in the direct reading of globs. */
  lemma GlobStep(p: string, s: string, i: nat)
    requires p != "" && i <= |s|
    ensures GlobMatch(p, s[i..]) <==>
            exists k :: i <= k <= |s| && StepMatches(p, s, i, k) && GlobMatch(p[StepLength(p)..], s[k..])
  {
    if GlobMatch(p, s[i..]) {
      var k := GlobStepEnds(p, s, i);
    }
    forall k | i <= k <= |s| && StepMatches(p, s, i, k) && GlobMatch(p[StepLength(p)..], s[k..])
      ensures GlobMatch(p, s[i..])
    {
      GlobStepExtends(p, s, i, k);
    }
  }

  lemma GlobStepEnds(p: string, s: string, i: nat) returns (k: nat)
    requires p != "" && i <= |s| && GlobMatch(p, s[i..])
    ensures i <= k <= |s| && StepMatches(p, s, i, k) && GlobMatch(p[StepLength(p)..], s[k..])
  {
    if StartsDoubleSlash(p) {
      k := DirectoriesEnd(p, s, i);
    } else if StartsDouble(p) {
      var n :| 0 <= n <= |s[i..]| && GlobMatch(p[2..], s[i..][n..]);
      k := i + n;
      Suffix(s, i, n);
    } else if p[0] == '*' {
      var n :| 0 <= n <= |s[i..]| && SlashFree(s[i..], n) && GlobMatch(p[1..], s[i..][n..]);
      k := i + n;
      Suffix(s, i, n);
    } else {
      k := i + 1;
      Suffix(s, i, 1);
    }
  }

  lemma DirectoriesEnd(p: string, s: string, i: nat) returns (k: nat)
    requires StartsDoubleSlash(p) && i <= |s| && GlobMatch(p, s[i..])
    ensures i <= k <= |s| && StepMatches(p, s, i, k) && GlobMatch(p[3..], s[k..])
  {
    var n := DirectoriesPrefix(p, s[i..]);
    k := i + n;
    Suffix(s, i, n);
  }

  lemma DirectoriesPrefix(p: string, t: string) returns (n: nat)
    requires StartsDoubleSlash(p) && GlobMatch(p, t)
    ensures n <= |t| && (n == 0 || t[n - 1] == '/') && GlobMatch(p[3..], t[n..])
  {
    n := SomeDirectories(p[3..], t);
  }

  lemma SomeDirectories(q: string, t: string) returns (n: nat)
    requires GlobMatch(q, t) || exists k :: 0 <= k < |t| && t[k] == '/' && GlobMatch(q, t[k + 1..])
    ensures n <= |t| && (n == 0 || t[n - 1] == '/') && GlobMatch(q, t[n..])
  {
    if GlobMatch(q, t) {
      n := 0;
      assert t[0..] == t;
    } else {
      var m :| 0 <= m < |t| && t[m] == '/' && GlobMatch(q, t[m + 1..]);
      n := m + 1;
    }
  }

  lemma Suffix(s: string, i: nat, n: nat)
    requires i + n <= |s|
    ensures s[i..][n..] == s[i + n..] && s[i..][..n] == s[i..i + n]
  {
  }

  lemma GlobStepExtends(p: string, s: string, i: nat, k: nat)
    requires p != "" && i <= k <= |s| && StepMatches(p, s, i, k) && GlobMatch(p[StepLength(p)..], s[k..])
    ensures GlobMatch(p, s[i..])
  {
    var t, n := s[i..], k - i;
    assert t[n..] == s[k..];
    if StartsDoubleSlash(p) {
      if n > 0 {
        assert t[n - 1] == '/' && GlobMatch(p[3..], t[n - 1 + 1..]);
      }
    } else if !StartsDouble(p) && p[0] == '*' {
      assert t[..n] == s[i..k];
      assert SlashFree(t, n);
    }
  }

  lemma {:induction false} FrontMatchesGlob(p: string, s: string, i: nat, j: nat)
    requires i <= j <= |s| && OneLine(s)
    ensures MatchAt(Front(p), s, i, j) <==> GlobMatch(p, s[i..j])
    decreases |p|
  {
    if p == "" {
    } else {
      var q := p[StepLength(p)..];
      assert Front(p)[0] == StepPiece(p) && Front(p)[1..] == Front(q);
      forall k | i <= k <= j
        ensures MatchPiece(Front(p)[0], s, i, k) <==> StepMatches(p, s[..j], i, k)
        ensures MatchAt(Front(p)[1..], s, k, j) <==> GlobMatch(q, s[..j][k..])
      {
        StepPieceMatches(p, s, i, k);
        assert s[..j][i..k] == s[i..k];
        FrontMatchesGlob(q, s, k, j);
        assert s[..j][k..] == s[k..j];
      }
      assert s[..j][i..] == s[i..j];
      GlobStep(p, s[..j], i);
    }
  }

  lemma PiecesMatchGlob(p: string, s: string, i: nat, j: nat)
    requires i <= j <= |s| && OneLine(s)
    ensures MatchAt(Pieces(p), s, i, j) <==> j == |s| && GlobMatch(p, s[i..])
  {
    MatchConcat(Front(p), [Once(End)], s, i, j);
    forall k | i <= k <= j
      ensures MatchAt([Once(End)], s, k, j) <==> k == j == |s|
      ensures MatchAt(Front(p), s, i, k) <==> GlobMatch(p, s[i..k])
    {
      MatchOne(Once(End), s, k, j);
      if k < |s| {
        assert s[k] in s;
      }
      FrontMatchesGlob(p, s, i, k);
    }
    assert s[i..|s|] == s[i..];
    assert MatchAt([Once(End)], s, j, j) <==> j == |s|;
    assert MatchAt(Front(p), s, i, j) <==> GlobMatch(p, s[i..j]);
  }

  /**
    Compilation preserves meaning: for every pattern with kept backslashes and every path without
    a newline, `re.match` on the compiled text succeeds exactly when the glob matches the path.
  */
  lemma CompilationPreservesMeaning(p: string, s: string)
    requires Kept(p) && OneLine(s)
    ensures Matches(RegexText(p), s) <==> GlobMatch(p, s)
  {
    CompiledReadsBack(p);
    var ps := [Once(Start)] + Pieces(p);
    assert ps[1..] == Pieces(p) && s[0..] == s;
    forall j | 0 <= j <= |s|
      ensures MatchAt(ps, s, 0, j) <==> j == |s| && GlobMatch(p, s)
    {
      forall k | 0 <= k <= j
        ensures MatchPiece(ps[0], s, 0, k) <==> k == 0
        ensures MatchAt(ps[1..], s, k, j) <==> j == |s| && GlobMatch(p, s[k..])
      {
        PiecesMatchGlob(p, s, k, j);
      }
    }
    assert MatchAt(ps, s, 0, |s|) <==> GlobMatch(p, s);
    assert Read(RegexText(p)).value[0] == ps;
  }

  /** Every pattern matches itself read as a path. */
  lemma {:induction false} GlobMatchesItself(p: string)
    ensures GlobMatch(p, p)
    decreases |p|
  {
    if p == "" {
    } else {
      var q := p[StepLength(p)..];
      GlobMatchesItself(q);
      if StartsDoubleSlash(p) {
        assert p[2] == '/' && GlobMatch(p[3..], p[2 + 1..]);
      } else if StartsDouble(p) {
        assert GlobMatch(p[2..], p[2..]);
      } else if p[0] == '*' {
        assert SlashFree(p, 1) && GlobMatch(p[1..], p[1..]);
      }
    }
  }

  // ---- pattern lookup ---------------------------------------------------------------------------

  /** Python's `s.lstrip(chars)`. */
  function LStrip(s: string, chars: string): (r: string)
    ensures r != "" ==> r[0] !in chars
  {
    if s != "" && s[0] in chars then LStrip(s[1..], chars) else s
  }

  /** The first `k` characters are the longest beginning made of these characters. */
  predicate StripsAt(s: string, chars: string, k: int) {
    0 <= k <= |s| && (forall i :: 0 <= i < k ==> s[i] in chars) && (k < |s| ==> s[k] !in chars)
  }

  /** That beginning is what is stripped. */
  lemma {:induction false} LStripSplits(s: string, chars: string) returns (k: nat)
    ensures StripsAt(s, chars, k) && LStrip(s, chars) == s[k..]
  {
    k := 0;
    if s == "" || s[0] !in chars {
    } else {
      var j := LStripSplits(s[1..], chars);
      k := j + 1;
      assert s[1..][j..] == s[k..];
      assert forall i :: 1 <= i < k ==> s[i] == s[1..][i - 1];
    }
  }

  lemma {:induction false} LStripKeepsOneLine(s: string, chars: string)
    requires OneLine(s)
    ensures OneLine(LStrip(s, chars))
  {
    if s == "" || s[0] !in chars {
    } else {
      LStripKeepsOneLine(s[1..], chars);
    }
  }

  // ---- pattern lookup, with exceptions ----------------------------------------------------------

  /** What the call of `re.match` does: `re.error` is an exception that the lookup does not catch. */
  datatype Verdict = Hit | Miss | Raised

  type Engine = (string, string) -> Verdict

  /** An engine that agrees with the model wherever the model says anything. */
  ghost predicate Faithful(engine: Engine) {
    forall t, s ::
      && (Read(t).Parsed? ==> engine(t, s) == if Matches(t, s) then Hit else Miss)
      && (Read(t).Malformed? ==> engine(t, s) == Raised)
  }

  predicate IsDirectoryPattern(p: string) {
    p != "" && p[|p| - 1] == '/'
  }

  function VerdictOf(b: bool): Verdict {
    if b then Hit else Miss
  }

  /** The decision of `_pattern_matches`, branch by branch. */
  function Decision(engine: Engine, p: string, path: string): Verdict {
    if p == "*" || p == "/**" then Hit
    else if p == path then Hit
    else if IsDirectoryPattern(p) then VerdictOf(LStrip(p, "/") <= path)
    else engine(RegexText(p), path)
  }

  function Normalize(path: string): string {
    LStrip(path, "./")
  }

  /** A pattern owns a path: the catch-alls, a directory the path lies in, or a glob. */
  ghost predicate Owns(p: string, path: string) {
    if p == "*" || p == "/**" then true
    else if IsDirectoryPattern(p) then LStrip(p, "/") <= path
    else GlobMatch(p, path)
  }

  /**
    What a lookup decides, in terms of globs alone: the equality shortcut adds nothing once the
    path is normalized, for directory patterns and globs alike, and nothing is raised.
  */
  lemma LookupMeaning(engine: Engine, p: string, file: string)
    requires Faithful(engine) && Kept(p) && OneLine(file)
    ensures Decision(engine, p, Normalize(file)) ==
            VerdictOf(Owns(p, Normalize(file)))
  {
    var path := Normalize(file);
    LStripKeepsOneLine(file, "./");
    CompiledReadsBack(p);
    CompilationPreservesMeaning(p, path);
    if p == path {
      GlobMatchesItself(p);
      assert '.' in "./" && '/' in "./";
    }
  }

  lemma FirstCharacterLiteral(p: string, s: string)
    requires p != "" && p[0] != '*' && p[0] != '?' && GlobMatch(p, s)
    ensures s != "" && s[0] == p[0]
  {
  }

  /** A pattern that starts with a dot owns nothing: lookups strip leading dots from the path first. */
  lemma LeadingDotOwnsNothing(engine: Engine, p: string, file: string)
    requires Faithful(engine) && Kept(p) && OneLine(file)
    requires p != "" && p[0] == '.'
    ensures Decision(engine, p, Normalize(file)) == Miss
  {
    LookupMeaning(engine, p, file);
    var path := Normalize(file);
    assert '.' in "./";
    if GlobMatch(p, path) {
      FirstCharacterLiteral(p, path);
    }
    assert LStrip(p, "/") == p && p[0] in "./";
    assert path != "" ==> path[0] != p[0];
  }

  /** A pattern anchored at the root works only as a directory pattern or as the catch-all. */
  lemma LeadingSlashOwnsIff(engine: Engine, p: string, file: string)
    requires Faithful(engine) && Kept(p) && OneLine(file)
    requires p != "" && p[0] == '/'
    ensures Decision(engine, p, Normalize(file)) ==
            VerdictOf(p == "/**" || (IsDirectoryPattern(p) && LStrip(p, "/") <= Normalize(file)))
  {
    LookupMeaning(engine, p, file);
    var path := Normalize(file);
    assert '/' in "./";
    if GlobMatch(p, path) {
      FirstCharacterLiteral(p, path);
    }
  }

  datatype Entry = Entry(pattern: string, owners: seq<string>)

  /** The owners, or None when a lookup raises. */
  type Answer = Option<seq<string>>

  /** First match in insertion order, nobody if there is none; the first exception ends the lookup. */
  function Owners(engine: Engine, entries: seq<Entry>, path: string): Answer {
    if entries == [] then Some([])
    else match Decision(engine, entries[0].pattern, path)
      case Hit => Some(entries[0].owners)
      case Miss => Owners(engine, entries[1..], path)
      case Raised => None
  }

  /** Some entry settles the lookup. */
  predicate Settles(engine: Engine, entries: seq<Entry>, path: string) {
    exists e :: e in entries && Decision(engine, e.pattern, path) != Miss
  }

  /** Later entries never change the owners of a file that an earlier entry matches. */
  lemma {:induction false} EarlierEntryWins(engine: Engine, entries: seq<Entry>, later: seq<Entry>, path: string)
    ensures Owners(engine, entries + later, path) ==
            if Settles(engine, entries, path) then Owners(engine, entries, path) else Owners(engine, later, path)
  {
    if entries == [] {
      assert entries + later == later;
    } else {
      assert (entries + later)[1..] == entries[1..] + later;
      EarlierEntryWins(engine, entries[1..], later, path);
      assert forall e :: e in entries <==> e == entries[0] || e in entries[1..];
    }
  }

  /** What every entry decides on a path. */
  function Verdicts(engine: Engine, entries: seq<Entry>, path: string): seq<Verdict> {
    seq(|entries|, i requires 0 <= i < |entries| => Decision(engine, entries[i].pattern, path))
  }

  predicate AllMiss(vs: seq<Verdict>) {
    forall i :: 0 <= i < |vs| ==> vs[i] == Miss
  }

  /** The first verdict that is no miss. */
  predicate FirstAt(vs: seq<Verdict>, k: int) {
    0 <= k < |vs| && vs[k] != Miss && forall i :: 0 <= i < k ==> vs[i] == Miss
  }

  /** The answer, by positions: that of the first entry that does not miss, nobody if all miss. */
  ghost predicate AnswersFirst(vs: seq<Verdict>, entries: seq<Entry>, answer: Answer)
    requires |vs| == |entries|
  {
    && (forall k :: FirstAt(vs, k) ==> answer == if vs[k] == Hit then Some(entries[k].owners) else None)
    && (AllMiss(vs) ==> answer == Some([]))
  }

  lemma {:induction false} FirstOrNone(vs: seq<Verdict>)
    ensures AllMiss(vs) || exists k :: FirstAt(vs, k)
  {
    if vs == [] {
    } else if vs[|vs| - 1] == Miss {
      var front := vs[..|vs| - 1];
      FirstOrNone(front);
      if k :| FirstAt(front, k) {
        assert FirstAt(vs, k);
      }
    } else {
      var front := vs[..|vs| - 1];
      FirstOrNone(front);
      if k :| FirstAt(front, k) {
        assert FirstAt(vs, k);
      } else {
        assert forall i :: 0 <= i < |front| ==> vs[i] == front[i];
        assert FirstAt(vs, |vs| - 1);
      }
    }
  }

  lemma {:induction false} OwnersAreFirst(engine: Engine, entries: seq<Entry>, path: string)
    ensures AnswersFirst(Verdicts(engine, entries, path), entries, Owners(engine, entries, path))
  {
    if entries == [] {
    } else {
      OwnersAreFirst(engine, entries[1..], path);
      var vs := Verdicts(engine, entries, path);
      assert vs[1..] == Verdicts(engine, entries[1..], path);
      FirstInTail(vs, entries, Owners(engine, entries[1..], path));
    }
  }

  /** After a miss the answer is that of the other entries. */
  lemma FirstInTail(vs: seq<Verdict>, entries: seq<Entry>, answer: Answer)
    requires |vs| == |entries| && vs != [] && AnswersFirst(vs[1..], entries[1..], answer)
    ensures vs[0] == Miss ==> AnswersFirst(vs, entries, answer)
    ensures vs[0] == Hit ==> AnswersFirst(vs, entries, Some(entries[0].owners))
    ensures vs[0] == Raised ==> AnswersFirst(vs, entries, None)
  {
    if vs[0] == Miss {
      forall k | FirstAt(vs, k)
        ensures answer == if vs[k] == Hit then Some(entries[k].owners) else None
      {
        assert FirstAt(vs[1..], k - 1) && entries[k] == entries[1..][k - 1];
      }
    }
  }

  /**
    Nobody is answered exactly if all entries miss or the first that does not miss is a hit that
    lists nobody; the lookup raises exactly if that first entry does.
  */
  lemma AnswerCases(vs: seq<Verdict>, entries: seq<Entry>, answer: Answer)
    requires |vs| == |entries| && AnswersFirst(vs, entries, answer)
    ensures answer == None <==> exists k :: FirstAt(vs, k) && vs[k] == Raised
    ensures answer == Some([]) <==>
              AllMiss(vs) || exists k :: FirstAt(vs, k) && vs[k] == Hit && entries[k].owners == []
  {
    FirstOrNone(vs);
    if !AllMiss(vs) {
      var k :| FirstAt(vs, k);
      assert forall j :: FirstAt(vs, j) ==> j == k;
    }
  }

  /** The entry at `k` is the first whose pattern owns the path. */
  ghost predicate FirstOwning(entries: seq<Entry>, path: string, k: int) {
    0 <= k < |entries| && Owns(entries[k].pattern, path) && forall i :: 0 <= i < k ==> !Owns(entries[i].pattern, path)
  }

  /** Under patterns whose backslashes are kept, in terms of globs alone: who owns a one-line path. */
  lemma OwnersByGlob(engine: Engine, entries: seq<Entry>, file: string, answer: Answer)
    requires Faithful(engine) && OneLine(file) && forall e :: e in entries ==> Kept(e.pattern)
    requires AnswersFirst(Verdicts(engine, entries, Normalize(file)), entries, answer)
    ensures forall k :: FirstOwning(entries, Normalize(file), k) ==> answer == Some(entries[k].owners)
    ensures (forall e :: e in entries ==> !Owns(e.pattern, Normalize(file))) ==> answer == Some([])
  {
    var vs := Verdicts(engine, entries, Normalize(file));
    forall i | 0 <= i < |entries|
      ensures vs[i] == VerdictOf(Owns(entries[i].pattern, Normalize(file)))
    {
      assert entries[i] in entries;
      LookupMeaning(engine, entries[i].pattern, file);
    }
    AnswerByOwning(vs, entries, Normalize(file), answer);
  }

  lemma AnswerByOwning(vs: seq<Verdict>, entries: seq<Entry>, path: string, answer: Answer)
    requires |vs| == |entries| && AnswersFirst(vs, entries, answer)
    requires forall i :: 0 <= i < |entries| ==> vs[i] == VerdictOf(Owns(entries[i].pattern, path))
    ensures forall k :: FirstOwning(entries, path, k) ==> answer == Some(entries[k].owners)
    ensures (forall e :: e in entries ==> !Owns(e.pattern, path)) ==> answer == Some([])
  {
    forall k | FirstOwning(entries, path, k)
      ensures answer == Some(entries[k].owners)
    {
      assert FirstAt(vs, k);
    }
    if forall e :: e in entries ==> !Owns(e.pattern, path) {
      assert forall i :: 0 <= i < |entries| ==> entries[i] in entries;
    }
  }

  class OwnershipMap {
    var codeowners: seq<Entry>  // the dict in insertion order
    const engine: Engine        // `re.match` on a text and a path

    constructor (entries: seq<Entry>, engine: Engine)
      ensures codeowners == entries && this.engine == engine
    {
      codeowners := entries;
      this.engine := engine;
    }

    method PatternMatches(pattern: string, path: string) returns (v: Verdict)
      ensures v == Decision(engine, pattern, path)
    {
      if pattern == "*" || pattern == "/**" {
        return Hit;
      }
      if pattern == path {
        return Hit;
      }
      if IsDirectoryPattern(pattern) {
        var clean := LStrip(pattern, "/");
        return VerdictOf(clean <= path);
      }
      var text := GlobToRegex(pattern);
      return engine(text, path);
    }

    method GetOwners(file: string) returns (owners: Answer)
      ensures owners == Owners(engine, codeowners, Normalize(file))
      ensures AnswersFirst(Verdicts(engine, codeowners, Normalize(file)), codeowners, owners)
    {
      var path := LStrip(file, "./");
      OwnersAreFirst(engine, codeowners, path);
      for i := 0 to |codeowners|
        invariant Owners(engine, codeowners, path) == Owners(engine, codeowners[i..], path)
      {
        assert codeowners[i..][1..] == codeowners[i + 1..];
        var v := PatternMatches(codeowners[i].pattern, path);
        match v
        case Hit => return Some(codeowners[i].owners);
        case Raised => return None;
        case Miss =>
      }
      return Some([]);
    }
  }
}
