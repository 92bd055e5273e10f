/**
  The part of Python's `re` that compiled globs use: a reader from pattern text to syntax, and
  what it means for `re.match` to succeed. The reader follows the syntax of the `re` module,
  not the shape of any particular emitter. Text that `re` rejects reads as Malformed; text that
  uses constructs outside this model (closed capturing groups, extensions, counted repetition,
  named characters) reads as Unmodelled, and nothing is claimed about it.
*/
module PythonRegex {
  datatype Parse<T> = Parsed(value: T, rest: string) | Malformed | Unmodelled

  datatype Range = Range(lo: char, hi: char)

  datatype Atom =
    | Chr(c: char)
    | Dot
    | Class(negated: bool, ranges: seq<Range>)
    | Category(kind: char)  // `\d`, `\w`, `\s` and their negations
    | Group(body: seq<Piece>)
    | Start                 // `^`, `\A`
    | End                   // `$`
    | VeryEnd               // `\Z`
    | Boundary(here: bool)  // `\b`, `\B`

  /** An atom with its quantifier: exactly once, `*`, `+`, `?` or the lazy `??`. */
  datatype Piece =
    | Once(atom: Atom)
    | Star(atom: Atom)
    | Plus(atom: Atom)
    | Optional(atom: Atom)
    | LazyOptional(atom: Atom)

  // ---- characters --------------------------------------------------------------------------

  predicate IsDigit(c: char) {
    '0' <= c <= '9'
  }

  predicate IsOctal(c: char) {
    '0' <= c <= '7'
  }

  predicate IsHex(c: char) {
    '0' <= c <= '9' || 'a' <= c <= 'f' || 'A' <= c <= 'F'
  }

  predicate IsLetter(c: char) {
    'a' <= c <= 'z' || 'A' <= c <= 'Z'
  }

  function DigitValue(c: char): nat
    requires IsHex(c)
  {
    if c <= '9' then (c - '0') as nat else if c <= 'F' then (c - 'A') as nat + 10 else (c - 'a') as nat + 10
  }

  function Shifted(value: nat, radix: nat, digit: nat): nat {
    value * radix + digit
  }

  function Value(digits: string, radix: nat): nat
    requires forall c :: c in digits ==> IsHex(c)
  {
    if digits == "" then 0
    else Shifted(Value(digits[..|digits| - 1], radix), radix, DigitValue(digits[|digits| - 1]))
  }

  /** The atom of a code point; a lone surrogate is no character of any text here. */
  function CodePoint(v: nat): Atom {
    if v < 0xD800 || 0xE000 <= v < 0x110000 then Chr(v as char) else Class(false, [])
  }

  // ---- reading atoms -----------------------------------------------------------------------

  /** A code of exactly `n` hexadecimal digits. */
  function ReadHex(t: string, n: nat): (r: Parse<Atom>)
    ensures r.Parsed? ==> |r.rest| <= |t|
  {
    if |t| < n || !(forall c :: c in t[..n] ==> IsHex(c)) || Value(t[..n], 16) >= 0x110000 then Malformed
    else Parsed(CodePoint(Value(t[..n], 16)), t[n..])
  }

  /** `\0` takes up to two more octal digits. */
  function ReadOctal(t: string): (r: Parse<Atom>)
    requires t != "" && t[0] == '0'
    ensures r.Parsed? ==> |r.rest| < |t|
  {
    if |t| >= 3 && IsOctal(t[1]) && IsOctal(t[2]) then Parsed(CodePoint(Value(t[..3], 8)), t[3..])
    else if |t| >= 2 && IsOctal(t[1]) then Parsed(CodePoint(Value(t[..2], 8)), t[2..])
    else Parsed(Chr('\0'), t[1..])
  }

  /** Three octal digits are a code; anything else refers to a group, and there is none. */
  function ReadReference(t: string): (r: Parse<Atom>)
    requires t != "" && IsDigit(t[0])
    ensures r.Parsed? ==> |r.rest| < |t|
  {
    if |t| >= 3 && IsOctal(t[0]) && IsOctal(t[1]) && IsOctal(t[2]) && Value(t[..3], 8) <= 0xFF
    then Parsed(CodePoint(Value(t[..3], 8)), t[3..])
    else Malformed
  }

  /** What follows a backslash outside a class. */
  function ReadEscape(t: string): (r: Parse<Atom>)
    ensures r.Parsed? ==> |r.rest| < |t|
  {
    if t == "" then Malformed
    else
      var c := t[0];
      if c in "dDwWsS" then Parsed(Category(c), t[1..])
      else if c == 'A' then Parsed(Start, t[1..])
      else if c == 'Z' then Parsed(VeryEnd, t[1..])
      else if c == 'b' || c == 'B' then Parsed(Boundary(c == 'b'), t[1..])
      else if c == 'a' then Parsed(Chr('\U{7}'), t[1..])
      else if c == 'f' then Parsed(Chr('\U{C}'), t[1..])
      else if c == 'n' then Parsed(Chr('\n'), t[1..])
      else if c == 'r' then Parsed(Chr('\r'), t[1..])
      else if c == 't' then Parsed(Chr('\t'), t[1..])
      else if c == 'v' then Parsed(Chr('\U{B}'), t[1..])
      else if c == 'x' then ReadHex(t[1..], 2)
      else if c == 'u' then ReadHex(t[1..], 4)
      else if c == 'U' then ReadHex(t[1..], 8)
      else if c == 'N' && |t| >= 2 && t[1] == '{' then Unmodelled
      else if IsLetter(c) then Malformed
      else if c == '0' then ReadOctal(t)
      else if IsDigit(c) then ReadReference(t)
      else Parsed(Chr(c), t[1..])
  }

  datatype Token = Token(c: char, escaped: bool)

  /** The tokens of a character class up to its closing bracket, which cannot come first. */
  function ReadTokens(t: string, first: bool): (r: Parse<seq<Token>>)
    ensures r.Parsed? ==> |r.rest| < |t|
  {
    if t == "" then Malformed
    else if t[0] == ']' && !first then Parsed([], t[1..])
    else if t[0] == '\\' then
      if |t| < 2 then Malformed
      else if IsLetter(t[1]) || IsDigit(t[1]) then Unmodelled
      else PrependToken(Token(t[1], true), ReadTokens(t[2..], false))
    else PrependToken(Token(t[0], false), ReadTokens(t[1..], false))
  }

  function PrependToken(token: Token, r: Parse<seq<Token>>): (r': Parse<seq<Token>>)
    ensures r'.Parsed? ==> r.Parsed? && r'.rest == r.rest
  {
    match r
    case Parsed(tokens, rest) => Parsed([token] + tokens, rest)
    case _ => r
  }

  /** A bare hyphen between two tokens makes a range, which must not run backwards. */
  function Ranges(tokens: seq<Token>): Parse<seq<Range>> {
    if tokens == [] then Parsed([], "")
    else if |tokens| >= 3 && tokens[1] == Token('-', false) then
      if tokens[2].c < tokens[0].c then Malformed
      else match Ranges(tokens[3..])
        case Parsed(rs, _) => Parsed([Range(tokens[0].c, tokens[2].c)] + rs, "")
        case _ => Malformed
    else match Ranges(tokens[1..])
      case Parsed(rs, _) => Parsed([Range(tokens[0].c, tokens[0].c)] + rs, "")
      case _ => Malformed
  }

  /** What follows an opening bracket. */
  function ReadClass(t: string): (r: Parse<Atom>)
    ensures r.Parsed? ==> |r.rest| < |t|
  {
    var negated := t != "" && t[0] == '^';
    match ReadTokens(if negated then t[1..] else t, true)
    case Malformed => Malformed
    case Unmodelled => Unmodelled
    case Parsed(tokens, rest) =>
      match Ranges(tokens)
      case Parsed(rs, _) => Parsed(Class(negated, rs), rest)
      case _ => Malformed
  }

  function AfterDigits(t: string): (r: string)
    ensures |r| <= |t|
  {
    if t != "" && IsDigit(t[0]) then AfterDigits(t[1..]) else t
  }

  /** The text starts with a counted repetition such as `{2}` or `{1,3}`. */
  predicate Counted(t: string) {
    && |t| >= 2 && t[0] == '{' && t[1] != '}'
    && var u := AfterDigits(t[1..]);
       var w := if u != "" && u[0] == ',' then AfterDigits(u[1..]) else u;
       w != "" && w[0] == '}'
  }

  /** One atom and the text after it. */
  function ReadAtom(t: string): (r: Parse<Atom>)
    requires t != ""
    ensures r.Parsed? ==> |r.rest| < |t|
    decreases |t|, 0
  {
    if t[0] == '.' then Parsed(Dot, t[1..])
    else if t[0] == '^' then Parsed(Start, t[1..])
    else if t[0] == '$' then Parsed(End, t[1..])
    else if t[0] == '\\' then ReadEscape(t[1..])
    else if t[0] == '[' then ReadClass(t[1..])
    else if t[0] == '(' then ReadGroup(t[1..])
    else if t[0] in "*+?" || Counted(t) then Malformed  // nothing to repeat
    else Parsed(Chr(t[0]), t[1..])
  }

  /** What follows an opening parenthesis: a group that is never closed is an error. */
  function ReadGroup(t: string): (r: Parse<Atom>)
    ensures r.Parsed? ==> |r.rest| < |t|
    decreases |t|, 2
  {
    if |t| >= 2 && t[0] == '?' && t[1] == ':' then
      match ReadPieces(t[2..])
      case Malformed => Malformed
      case Unmodelled => Unmodelled
      case Parsed(ps, rest) =>
        if rest == "" then Malformed else if rest[0] == ')' then Parsed(Group(ps), rest[1..]) else Unmodelled
    else if t != "" && t[0] == '?' then Unmodelled
    else
      match ReadPieces(t)
      case Malformed => Malformed
      case Unmodelled => Unmodelled
      case Parsed(ps, rest) => if rest == "" then Malformed else Unmodelled
  }

  /** The quantifier after an atom; none may follow an anchor or another quantifier. */
  function ReadQuantifier(a: Atom, t: string): (r: Parse<Piece>)
    ensures r.Parsed? ==> |r.rest| <= |t|
  {
    var (p, rest) :=
      if t != "" && t[0] == '*' then (Star(a), t[1..])
      else if t != "" && t[0] == '+' then (Plus(a), t[1..])
      else if |t| >= 2 && t[0] == '?' && t[1] == '?' then (LazyOptional(a), t[2..])
      else if t != "" && t[0] == '?' then (Optional(a), t[1..])
      else (Once(a), t);
    if !p.Once? && (a.Start? || a.End? || a.VeryEnd? || a.Boundary?) then Malformed
    else if (rest != "" && rest[0] in "*+?") || Counted(rest) then Unmodelled
    else Parsed(p, rest)
  }

  /** Pieces up to a bar, a closing parenthesis or the end of the text. */
  function ReadPieces(t: string): (r: Parse<seq<Piece>>)
    ensures r.Parsed? ==> |r.rest| <= |t|
    ensures r.Parsed? && r.rest != "" ==> r.rest[0] == '|' || r.rest[0] == ')'
    decreases |t|, 1
  {
    if t == "" || t[0] == '|' || t[0] == ')' then Parsed([], t)
    else match ReadAtom(t)
      case Malformed => Malformed
      case Unmodelled => Unmodelled
      case Parsed(a, t1) =>
        match ReadQuantifier(a, t1)
        case Malformed => Malformed
        case Unmodelled => Unmodelled
        case Parsed(p, t2) => Prepend([p], ReadPieces(t2))
  }

  function Prepend(front: seq<Piece>, r: Parse<seq<Piece>>): (r': Parse<seq<Piece>>)
    ensures r'.Parsed? <==> r.Parsed?
    ensures r'.Parsed? ==> r'.rest == r.rest
  {
    match r
    case Parsed(ps, rest) => Parsed(front + ps, rest)
    case _ => r
  }

  /** The branches of a whole pattern; a parenthesis left over is an error. */
  function Read(t: string): Parse<seq<seq<Piece>>>
    decreases |t|
  {
    match ReadPieces(t)
    case Malformed => Malformed
    case Unmodelled => Unmodelled
    case Parsed(ps, rest) =>
      if rest == "" then Parsed([ps], "")
      else if rest[0] == ')' then Malformed
      else match Read(rest[1..])
        case Parsed(branches, _) => Parsed([ps] + branches, "")
        case other => other
  }

  // ---- facts about reading ---------------------------------------------------------------------

  /** Text with which no quantifier and no closing of a group starts. */
  predicate PlainStart(t: string) {
    t != "" && t[0] !in "*+?|)" && !Counted(t)
  }

  /** Reading an unquantified atom, and then the rest. */
  lemma ReadOnce(t: string, a: Atom, t1: string)
    requires t != "" && t[0] != '|' && t[0] != ')' && ReadAtom(t) == Parsed(a, t1) && PlainStart(t1)
    ensures ReadPieces(t) == Prepend([Once(a)], ReadPieces(t1))
  {
  }

  /** Reading a quantified atom, and then the rest. */
  lemma ReadQuantified(t: string, a: Atom, t1: string, p: Piece, t2: string)
    requires t != "" && t[0] != '|' && t[0] != ')'
    requires ReadAtom(t) == Parsed(a, t1) && ReadQuantifier(a, t1) == Parsed(p, t2)
    ensures ReadPieces(t) == Prepend([p], ReadPieces(t2))
  {
  }

  lemma PrependTwice(a: seq<Piece>, b: seq<Piece>, r: Parse<seq<Piece>>)
    ensures Prepend(a, Prepend(b, r)) == Prepend(a + b, r)
  {
    if r.Parsed? {
      assert a + (b + r.value) == a + b + r.value;
    }
  }

  // ---- matching --------------------------------------------------------------------------

  /** Membership of characters beyond ASCII in a category: fixed by Unicode, and open here. */
  ghost predicate Beyond(kind: char, c: char) {
    var b: bool :| b || !b || kind == c;
    b
  }

  ghost predicate IsWord(c: char) {
    if c < '\U{80}' then IsLetter(c) || IsDigit(c) || c == '_' else Beyond('w', c)
  }

  ghost predicate InCategory(kind: char, c: char) {
    if kind == 'd' then (if c < '\U{80}' then IsDigit(c) else Beyond('d', c))
    else if kind == 'D' then !(if c < '\U{80}' then IsDigit(c) else Beyond('d', c))
    else if kind == 'w' then IsWord(c)
    else if kind == 'W' then !IsWord(c)
    else
      var space := if c < '\U{80}' then c == ' ' || '\t' <= c <= '\r' || '\U{1C}' <= c <= '\U{1F}' else Beyond('s', c);
      if kind == 's' then space else !space
  }

  predicate InRanges(rs: seq<Range>, c: char) {
    exists k :: 0 <= k < |rs| && rs[k].lo <= c <= rs[k].hi
  }

  /** A word character on exactly one side of position `i`. */
  ghost predicate AtBoundary(s: string, i: nat)
    requires i <= |s|
  {
    (i > 0 && IsWord(s[i - 1])) != (i < |s| && IsWord(s[i]))
  }

  /** `ps` matches `s[i..j]` as part of `s`. */
  ghost predicate MatchAt(ps: seq<Piece>, s: string, i: nat, j: nat)
    requires i <= j <= |s|
    decreases ps, 1, 0
  {
    if ps == [] then i == j
    else exists k :: i <= k <= j && MatchPiece(ps[0], s, i, k) && MatchAt(ps[1..], s, k, j)
  }

  ghost predicate MatchPiece(p: Piece, s: string, i: nat, j: nat)
    requires i <= j <= |s|
    decreases p, 1, 0
  {
    match p
    case Once(a) => MatchAtom(a, s, i, j)
    case Star(a) => Repeat(a, s, i, j)
    case Plus(a) => exists k :: i <= k <= j && MatchAtom(a, s, i, k) && Repeat(a, s, k, j)
    case Optional(a) => i == j || MatchAtom(a, s, i, j)
    case LazyOptional(a) => i == j || MatchAtom(a, s, i, j)
  }

  ghost predicate Repeat(a: Atom, s: string, i: nat, j: nat)
    requires i <= j <= |s|
    decreases a, 2, j - i
  {
    i == j || exists k :: i < k <= j && MatchAtom(a, s, i, k) && Repeat(a, s, k, j)
  }

  ghost predicate MatchAtom(a: Atom, s: string, i: nat, j: nat)
    requires i <= j <= |s|
    decreases a, 1, 0
  {
    match a
    case Chr(c) => j == i + 1 && s[i] == c
    case Dot => j == i + 1 && s[i] != '\n'
    case Class(negated, rs) => j == i + 1 && InRanges(rs, s[i]) != negated
    case Category(kind) => j == i + 1 && InCategory(kind, s[i])
    case Group(body) => MatchAt(body, s, i, j)
    case Start => i == j == 0
    case End => i == j && (i == |s| || (i == |s| - 1 && s[i] == '\n'))
    case VeryEnd => i == j == |s|
    case Boundary(here) => i == j && s != "" && AtBoundary(s, i) == here  // never on the empty text
  }

  /** `re.match(t, s) is not None`: the text compiles and some branch matches some prefix of `s`. */
  ghost predicate Matches(t: string, s: string) {
    Read(t).Parsed? && exists k, j :: 0 <= k < |Read(t).value| && 0 <= j <= |s| && MatchAt(Read(t).value[k], s, 0, j)
  }

  lemma {:induction false} MatchConcat(a: seq<Piece>, b: seq<Piece>, s: string, i: nat, j: nat)
    requires i <= j <= |s|
    ensures MatchAt(a + b, s, i, j) <==> exists k :: i <= k <= j && MatchAt(a, s, i, k) && MatchAt(b, s, k, j)
    decreases |a|
  {
    var ab := a + b;
    if a == [] {
      assert ab == b;
    } else {
      assert ab[0] == a[0] && ab[1..] == a[1..] + b;
      forall m | i <= m <= j
        ensures MatchAt(ab[1..], s, m, j) <==>
                exists k :: m <= k <= j && MatchAt(a[1..], s, m, k) && MatchAt(b, s, k, j)
      {
        MatchConcat(a[1..], b, s, m, j);
      }
      if MatchAt(ab, s, i, j) {
        var m := MatchSplit(ab, s, i, j);
        var k :| m <= k <= j && MatchAt(a[1..], s, m, k) && MatchAt(b, s, k, j);
        assert MatchPiece(a[0], s, i, m);
        assert MatchAt(a, s, i, k);
      }
      if exists k :: i <= k <= j && MatchAt(a, s, i, k) && MatchAt(b, s, k, j) {
        var k :| i <= k <= j && MatchAt(a, s, i, k) && MatchAt(b, s, k, j);
        var m := MatchSplit(a, s, i, k);
        assert MatchAt(ab[1..], s, m, j);
      }
    }
  }

  lemma MatchSplit(ps: seq<Piece>, s: string, i: nat, j: nat) returns (k: nat)
    requires i <= j <= |s| && ps != [] && MatchAt(ps, s, i, j)
    ensures i <= k <= j && MatchPiece(ps[0], s, i, k) && MatchAt(ps[1..], s, k, j)
  {
    k :| i <= k <= j && MatchPiece(ps[0], s, i, k) && MatchAt(ps[1..], s, k, j);
  }

  lemma MatchOne(p: Piece, s: string, i: nat, j: nat)
    requires i <= j <= |s|
    ensures MatchAt([p], s, i, j) <==> MatchPiece(p, s, i, j)
  {
    assert [p][1..] == [];
    if MatchPiece(p, s, i, j) {
      assert MatchAt([p][1..], s, j, j);
    }
  }
}
