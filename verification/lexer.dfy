/** The TOKEN_SPEC pattern set as a hand-written scanner.  At each position the patterns are
    tried in declaration order and the first that matches wins (Python's alternation is
    leftmost-first, not longest-match); scanning resumes where the match ended. */
module Lexer {
  import opened Text

  /** Token kinds: the pattern names, plus Op for a promoted identifier. */
  datatype Kind =
    | Label | Reg | Pointer | Imm | Comma | SColon | LBracket | RBracket | Space | Comment
    | Unknown | Op

  /** A (kind, text) pair, as the source's tuples. */
  datatype Token = Token(kind: Kind, text: string)

  predicate IsIdentStart(c: char) { 'A' <= c <= 'Z' || 'a' <= c <= 'z' || c == '_' }

  predicate IsIdentChar(c: char) { IsIdentStart(c) || IsDigit(c) }

  /** The character classes repeated by `*`, `+` and `.*` in the patterns. */
  datatype CharClass = IdentClass | DigitClass | HexClass | SpaceClass | NotNewline

  predicate InClass(cls: CharClass, c: char)
  {
    match cls
    case IdentClass => IsIdentChar(c)
    case DigitClass => IsDigit(c)
    case HexClass => IsHexDigit(c)
    case SpaceClass => IsSpace(c)
    case NotNewline => c != '\n'
  }

  /** End of the longest run of `cls` characters starting at i (a greedy repetition). */
  function RunEnd(s: string, i: nat, cls: CharClass): (j: nat)
    requires i <= |s|
    ensures i <= j <= |s|
    ensures forall k | i <= k < j :: InClass(cls, s[k])
    ensures j == |s| || !InClass(cls, s[j])
    decreases |s| - i
  {
    if i < |s| && InClass(cls, s[i]) then RunEnd(s, i + 1, cls) else i
  }

  predicate IsIdentifier(t: string)
  {
    |t| > 0 && IsIdentStart(t[0]) && forall k | 0 <= k < |t| :: IsIdentChar(t[k])
  }

  /** Text the REG pattern `R(?:1[0-5]|[0-9])` matches (case-insensitively). */
  predicate IsRegLexeme(t: string)
  {
    (|t| == 2 || |t| == 3) && (t[0] == 'R' || t[0] == 'r') && IsDigit(t[1])
    && (|t| == 3 ==> t[1] == '1' && '0' <= t[2] <= '5')
  }

  /** Text the IMM pattern `#(?:0x[0-9a-fA-F]+|[0-9]+)` matches (case-insensitively). */
  predicate IsImmLexeme(t: string)
  {
    |t| >= 2 && t[0] == '#'
    && (AllDigits(t[1..]) || (|t| >= 4 && t[1] == '0' && (t[2] == 'x' || t[2] == 'X') && AllHex(t[3..])))
  }

  /** What the text of a raw match of each kind looks like. */
  predicate LexemeShape(kind: Kind, t: string)
  {
    t != [] &&
    match kind
    case Label => IsIdentifier(t[..|t| - 1]) && t[|t| - 1] == ':'
    case Reg => IsRegLexeme(t)
    case Pointer => IsIdentifier(t)
    case Imm => IsImmLexeme(t)
    case Comma => t == ","
    case SColon => t == ";"
    case LBracket => t == "["
    case RBracket => t == "]"
    case Space => forall k | 0 <= k < |t| :: IsSpace(t[k])
    case Comment => |t| >= 2 && t[0] == '/' && t[1] == '/' && forall k | 0 <= k < |t| :: t[k] != '\n'
    case Unknown => |t| == 1
    case Op => false
  }

  predicate WellFormedLexeme(t: Token)
  {
    LexemeShape(t.kind, t.text)
  }

  datatype Match = Match(kind: Kind, end: nat)

  /** Position of each pattern in TOKEN_SPEC; Op, which no pattern produces, comes last. */
  function Rank(kind: Kind): (r: nat)
    ensures r <= 11 && (r == 11 <==> kind == Op)
  {
    match kind
    case Label => 0
    case Reg => 1
    case Pointer => 2
    case Imm => 3
    case Comma => 4
    case SColon => 5
    case LBracket => 6
    case RBracket => 7
    case Space => 8
    case Comment => 9
    case Unknown => 10
    case Op => 11
  }

  /** Whether the pattern of `kind` matches some non-empty text starting at i. */
  predicate PatternMatches(kind: Kind, s: string, i: nat)
    requires i <= |s|
  {
    exists j | i < j <= |s| :: LexemeShape(kind, s[i..j])
  }

  /** What re.finditer takes at position i: a match of the first pattern, in declaration
      order, that matches there at all, as long as that pattern allows.  For these patterns
      the leftmost alternative under greedy repetition is always the longest match. */
  predicate FirstLongest(s: string, i: nat, m: Match)
    requires i < |s|
  {
    && i < m.end <= |s|
    && LexemeShape(m.kind, s[i..m.end])
    && (forall k: Kind | Rank(k) < Rank(m.kind) :: !PatternMatches(k, s, i))
    && (forall j | m.end < j <= |s| :: !LexemeShape(m.kind, s[i..j]))
  }

  /** The characters at i that a match of each pattern has to start with. */
  predicate CanStart(kind: Kind, s: string, i: nat)
    requires i < |s|
  {
    match kind
    case Label => IsIdentStart(s[i])
    case Reg => (s[i] == 'R' || s[i] == 'r') && i + 1 < |s| && IsDigit(s[i + 1])
    case Pointer => IsIdentStart(s[i])
    case Imm => s[i] == '#' && i + 1 < |s| && IsDigit(s[i + 1])
    case Comma => s[i] == ','
    case SColon => s[i] == ';'
    case LBracket => s[i] == '['
    case RBracket => s[i] == ']'
    case Space => IsSpace(s[i])
    case Comment => s[i] == '/' && i + 1 < |s| && s[i + 1] == '/'
    case Unknown => true
    case Op => false
  }

  lemma ShapeNeedsStart(kind: Kind, s: string, i: nat, j: nat)
    requires i < j <= |s|
    ensures LexemeShape(kind, s[i..j]) ==> CanStart(kind, s, i)
  {
    var t := s[i..j];
    assert t[0] == s[i];
    if |t| >= 2 {
      assert t[1] == s[i + 1];
    }
    if kind == Label && LexemeShape(kind, t) {
      assert t[..|t| - 1][0] == s[i];
    }
  }

  /** A pattern whose first characters are absent at i does not match there. */
  lemma NoMatchWithoutStart(kind: Kind, s: string, i: nat)
    requires i < |s| && !CanStart(kind, s, i)
    ensures !PatternMatches(kind, s, i)
  {
    forall j | i < j <= |s| ensures !LexemeShape(kind, s[i..j]) {
      ShapeNeedsStart(kind, s, i, j);
    }
  }

  /** The identifier run at an identifier start is the longest Pointer text there. */
  lemma PointerShape(s: string, i: nat, e: nat)
    requires i < |s| && IsIdentStart(s[i]) && e == RunEnd(s, i, IdentClass)
    ensures i < e && IsIdentifier(s[i..e])
    ensures forall j | e < j <= |s| :: !LexemeShape(Pointer, s[i..j])
  {
    assert InClass(IdentClass, s[i]);
    var id := s[i..e];
    forall k | 0 <= k < |id| ensures IsIdentChar(id[k]) {
      assert InClass(IdentClass, s[i + k]);
    }
    forall j | e < j <= |s| ensures !LexemeShape(Pointer, s[i..j]) {
      assert s[i..j][e - i] == s[e];
    }
  }

  /** An identifier run followed by ':' is LABEL text. */
  lemma LabelShape(s: string, i: nat, e: nat)
    requires i < |s| && IsIdentStart(s[i])
    requires e == RunEnd(s, i, IdentClass) && e < |s| && s[e] == ':'
    ensures i < e && LexemeShape(Label, s[i..e + 1])
  {
    PointerShape(s, i, e);
    var t := s[i..e + 1];
    assert |t| - 1 == e - i;
    assert t[..e - i] == s[i..e];
    assert t[e - i] == s[e];
  }

  /** A LABEL match at i ends just after the identifier run, on a ':'. */
  lemma LabelEnd(s: string, i: nat, j: nat)
    requires i < j <= |s|
    ensures LexemeShape(Label, s[i..j]) ==> j - 1 == RunEnd(s, i, IdentClass) && s[j - 1] == ':'
  {
    var t := s[i..j];
    if LexemeShape(Label, t) {
      forall k | i <= k < j - 1 ensures IsIdentChar(s[k]) {
        assert t[..|t| - 1][k - i] == s[k];
      }
      assert t[|t| - 1] == s[j - 1];
    }
  }

  /** LABEL, REG and Pointer, tried in that order at a position holding an identifier start
      (every character REG can start with is one). */
  function MatchWord(s: string, i: nat): (m: Match)
    requires i < |s| && IsIdentStart(s[i])
    ensures m.kind in {Label, Reg, Pointer}
    ensures FirstLongest(s, i, m)
    ensures m.kind == Pointer ==> m.end == |s| || !IsIdentChar(s[m.end])
  {
    var c := s[i];
    var ident := RunEnd(s, i, IdentClass);
    if IsIdentStart(c) && ident < |s| && s[ident] == ':' then
      LabelShape(s, i, ident);
      forall j | ident + 1 < j <= |s| ensures !LexemeShape(Label, s[i..j]) {
        LabelEnd(s, i, j);
      }
      Match(Label, ident + 1)
    else
      assert !PatternMatches(Label, s, i) by {
        forall j | i < j <= |s| ensures !LexemeShape(Label, s[i..j]) {
          LabelEnd(s, i, j);
        }
      }
      if (c == 'R' || c == 'r') && i + 1 < |s| && IsDigit(s[i + 1]) then
        RegLongest(s, i)
      else
        NoMatchWithoutStart(Reg, s, i);
        PointerShape(s, i, ident);
        Match(Pointer, ident)
  }

  /** REG at a position holding R and a digit: `1[0-5]` is tried before `[0-9]`. */
  function RegLongest(s: string, i: nat): (m: Match)
    requires i + 1 < |s| && (s[i] == 'R' || s[i] == 'r') && IsDigit(s[i + 1])
    ensures m.kind == Reg && i < m.end <= |s| && LexemeShape(Reg, s[i..m.end])
    ensures forall j | m.end < j <= |s| :: !LexemeShape(Reg, s[i..j])
  {
    if s[i + 1] == '1' && i + 2 < |s| && '0' <= s[i + 2] <= '5' then
      Match(Reg, i + 3)
    else
      assert forall j | i + 2 < j <= |s| :: s[i..j][1] == s[i + 1] && (j == i + 3 ==> s[i..j][2] == s[i + 2]);
      Match(Reg, i + 2)
  }

  /** IMM at a position holding '#' followed by a digit: the hex form is tried first. */
  function MatchImm(s: string, i: nat): (m: Match)
    requires i + 1 < |s| && s[i] == '#' && IsDigit(s[i + 1])
    ensures i < m.end <= |s| && m.kind == Imm
    ensures IsImmLexeme(s[i..m.end])
    ensures forall j | m.end < j <= |s| :: !LexemeShape(Imm, s[i..j])
  {
    if s[i + 1] == '0' && i + 3 < |s| && (s[i + 2] == 'x' || s[i + 2] == 'X') && IsHexDigit(s[i + 3]) then
      var e := RunEnd(s, i + 3, HexClass);
      assert s[i..e][3..] == s[i + 3..e];
      forall j | e < j <= |s| ensures !LexemeShape(Imm, s[i..j]) {
        HexImmMaximal(s, i, e, j);
      }
      Match(Imm, e)
    else
      var e := RunEnd(s, i + 1, DigitClass);
      assert s[i..e][1..] == s[i + 1..e];
      forall j | e < j <= |s| ensures !LexemeShape(Imm, s[i..j]) {
        DecimalImmMaximal(s, i, e, j);
      }
      Match(Imm, e)
  }

  /** The first pattern of TOKEN_SPEC that matches at position i, and where its match ends. */
  function MatchAt(s: string, i: nat): (m: Match)
    requires i < |s|
    ensures FirstLongest(s, i, m)
    ensures m.kind == Pointer ==> m.end == |s| || !IsIdentChar(s[m.end])
  {
    var c := s[i];
    if IsIdentStart(c) then MatchWord(s, i)
    else
      var m := MatchOther(s, i);
      forall k: Kind | Rank(k) < Rank(m.kind) ensures !PatternMatches(k, s, i) {
        NoMatchWithoutStart(k, s, i);
      }
      m
  }

  /** The patterns after the identifier ones, at a position that holds no identifier start. */
  function MatchOther(s: string, i: nat): (m: Match)
    requires i < |s| && !IsIdentStart(s[i])
    ensures i < m.end <= |s| && LexemeShape(m.kind, s[i..m.end]) && m.kind != Pointer
    ensures forall k: Kind | Rank(k) < Rank(m.kind) :: !CanStart(k, s, i)
    ensures forall j | m.end < j <= |s| :: !LexemeShape(m.kind, s[i..j])
  {
    var c := s[i];
    if c == '#' && i + 1 < |s| && IsDigit(s[i + 1]) then MatchImm(s, i)
    else if c == ',' then Match(Comma, i + 1)
    else if c == ';' then Match(SColon, i + 1)
    else if c == '[' then Match(LBracket, i + 1)
    else if c == ']' then Match(RBracket, i + 1)
    else if IsSpace(c) then
      var e := RunEnd(s, i, SpaceClass);
      SpaceMaximal(s, i, e);
      Match(Space, e)
    else if c == '/' && i + 1 < |s| && s[i + 1] == '/' then
      var e := RunEnd(s, i, NotNewline);
      CommentMaximal(s, i, e);
      Match(Comment, e)
    else Match(Unknown, i + 1)
  }

  /** Past the end of its hex digits, `#0x...` is no IMM text. */
  lemma HexImmMaximal(s: string, i: nat, e: nat, j: nat)
    requires i + 3 < |s| && s[i] == '#' && s[i + 1] == '0' && (s[i + 2] == 'x' || s[i + 2] == 'X')
    requires IsHexDigit(s[i + 3]) && e == RunEnd(s, i + 3, HexClass) && e < j <= |s|
    ensures !IsImmLexeme(s[i..j])
  {
    var t := s[i..j];
    assert t[1..][1] == s[i + 2];
    assert t[3..][e - i - 3] == s[e];
  }

  /** Where the hex form does not apply, IMM text ends with its decimal digits. */
  lemma DecimalImmMaximal(s: string, i: nat, e: nat, j: nat)
    requires i + 1 < |s| && s[i] == '#' && IsDigit(s[i + 1])
    requires !(s[i + 1] == '0' && i + 3 < |s| && (s[i + 2] == 'x' || s[i + 2] == 'X') && IsHexDigit(s[i + 3]))
    requires e == RunEnd(s, i + 1, DigitClass) && e < j <= |s|
    ensures !IsImmLexeme(s[i..j])
  {
    var t := s[i..j];
    assert t[1..][e - i - 1] == s[e];
    assert t[1] == s[i + 1] && t[2] == s[i + 2];
    if |t| >= 4 {
      assert t[3..][0] == s[i + 3];
    }
  }

  /** SPACE text ends where the whitespace run ends. */
  lemma SpaceMaximal(s: string, i: nat, e: nat)
    requires i <= |s| && e == RunEnd(s, i, SpaceClass)
    ensures forall j | e < j <= |s| :: !LexemeShape(Space, s[i..j])
  {
    forall j | e < j <= |s| ensures !LexemeShape(Space, s[i..j]) {
      assert s[i..j][e - i] == s[e];
    }
  }

  /** COMMENT text ends at the first newline, if any. */
  lemma CommentMaximal(s: string, i: nat, e: nat)
    requires i <= |s| && e == RunEnd(s, i, NotNewline)
    ensures forall j | e < j <= |s| :: !LexemeShape(Comment, s[i..j])
  {
    forall j | e < j <= |s| ensures !LexemeShape(Comment, s[i..j]) {
      assert s[i..j][e - i] == s[e];
    }
  }

  /** UNKNOWN is taken exactly when no other pattern matches at i. */
  lemma UnknownOnlyWhenNothingElse(s: string, i: nat)
    requires i < |s|
    ensures MatchAt(s, i).kind == Unknown <==> forall k: Kind | k != Unknown && k != Op :: !PatternMatches(k, s, i)
  {
    var m := MatchAt(s, i);
    if m.kind != Unknown {
      assert m.kind != Op;
      assert PatternMatches(m.kind, s, i);
    } else {
      forall k: Kind | k != Unknown && k != Op ensures !PatternMatches(k, s, i) {
        assert Rank(k) < Rank(Unknown);
      }
    }
  }

  /** All matches from position i on, in order (finditer); no character is skipped. */
  function Matches(s: string, i: nat): (ms: seq<Token>)
    requires i <= |s|
    ensures forall t | t in ms :: WellFormedLexeme(t)
    decreases |s| - i
  {
    if i == |s| then []
    else
      var m := MatchAt(s, i);
      [Token(m.kind, s[i..m.end])] + Matches(s, m.end)
  }

  function Concat(ts: seq<Token>): string
  {
    if ts == [] then [] else ts[0].text + Concat(ts[1..])
  }

  /** One lexeme s[i..e] in front of lexemes that cover s[e..] covers s[i..]. */
  lemma CoverStep(s: string, i: nat, e: nat, kind: Kind, rest: seq<Token>)
    requires i < e <= |s| && Concat(rest) == s[e..]
    ensures Concat([Token(kind, s[i..e])] + rest) == s[i..]
  {
    assert ([Token(kind, s[i..e])] + rest)[1..] == rest;
    assert s[i..] == s[i..e] + s[e..];
  }

  /** The matches partition the text: concatenated, they give back exactly s[i..]. */
  lemma {:induction false} MatchesCover(s: string, i: nat)
    requires i <= |s|
    ensures Concat(Matches(s, i)) == s[i..]
    decreases |s| - i
  {
    if i < |s| {
      var m := MatchAt(s, i);
      MatchesCover(s, m.end);
      CoverStep(s, i, m.end, m.kind, Matches(s, m.end));
    }
  }

}
