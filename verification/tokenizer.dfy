/** tokenize_instruction: the raw matches of a line with whitespace and comments dropped and
    instruction names promoted from Pointer to OP. */
module Tokenizer {
  import opened Text
  import opened Mnemonic
  import opened Tables
  import opened Lexer
  import opened Values

  /** An identifier is an instruction name when its decoded base is a known mnemonic
      (the decoded condition is always a table key, so the source's second test adds nothing). */
  predicate IsOpName(v: Variant, text: string)
  {
    Decode(text).base in ValidOps(v)
  }

  /** Reclassify a Pointer match whose decoded base is a known mnemonic as OP. */
  function Promote(v: Variant, t: Token): (r: Token)
    ensures r.text == t.text
    ensures r.kind == (if t.kind == Pointer && IsOpName(v, t.text) then Op else t.kind)
  {
    if t.kind == Pointer then
      var d := Decode(t.text);
      if d.base in ValidOps(v) && d.cond in Conds then Token(Op, t.text) else t
    else t
  }

  predicate Dropped(t: Token)
  {
    t.kind == Space || t.kind == Comment
  }

  /** What every token of a tokenized line looks like. */
  predicate Lexed(v: Variant, t: Token)
  {
    && t.text != []
    && !Dropped(t)
    && (t.kind == Op ==> IsIdentifier(t.text) && IsOpName(v, t.text))
    && (t.kind == Pointer ==> IsIdentifier(t.text) && !IsOpName(v, t.text))
    && (t.kind == Label ==> IsIdentifier(t.text[..|t.text| - 1]) && t.text[|t.text| - 1] == ':')
    && (t.kind == Reg ==> IsRegLexeme(t.text))
    && (t.kind == Imm ==> IsImmLexeme(t.text))
    && (t.kind == Unknown ==> |t.text| == 1)
  }

  /** The tokens kept from a sequence of raw matches, in order. */
  function TokensOf(v: Variant, ms: seq<Token>): (ts: seq<Token>)
    requires forall m | m in ms :: WellFormedLexeme(m)
    ensures |ts| <= |ms|
    ensures forall t | t in ts :: Lexed(v, t)
  {
    if ms == [] then []
    else
      var rest := TokensOf(v, ms[1..]);
      if Dropped(ms[0]) then rest
      else
        assert ms[0] in ms;
        PromoteLexed(v, ms[0]);
        [Promote(v, ms[0])] + rest
  }

  lemma PromoteLexed(v: Variant, m: Token)
    requires WellFormedLexeme(m) && !Dropped(m)
    ensures Lexed(v, Promote(v, m))
  {
    if m.kind == Pointer {
      PromotePointerLexed(v, m);
    } else {
      assert Promote(v, m) == m;
      RawLexed(v, m);
    }
  }

  /** A Pointer identifier stays a well-formed token whichever way it is classified. */
  lemma PromotePointerLexed(v: Variant, m: Token)
    requires m.kind == Pointer && IsIdentifier(m.text)
    ensures Lexed(v, Promote(v, m))
  {
  }

  /** A raw match of any other kind is already a well-formed token. */
  lemma RawLexed(v: Variant, m: Token)
    requires WellFormedLexeme(m) && !Dropped(m) && m.kind != Pointer
    ensures Lexed(v, m)
  {
    match m.kind
    case Label =>
    case Reg =>
    case Imm =>
    case Comma =>
    case SColon =>
    case LBracket =>
    case RBracket =>
    case Unknown =>
  }

  /** tokenize_instruction(line) */
  function Tokens(v: Variant, line: string): (ts: seq<Token>)
    ensures forall t | t in ts :: Lexed(v, t)
  {
    TokensOf(v, Matches(line, 0))
  }

  /** Tokenizing from position i is the first match, kept (and promoted) unless it is
      whitespace or a comment, followed by tokenizing from the end of that match. */
  lemma TokensOfStep(v: Variant, s: string, i: nat)
    requires i < |s|
    ensures var m := MatchAt(s, i);
            var raw := Token(m.kind, s[i..m.end]);
            TokensOf(v, Matches(s, i)) == (if Dropped(raw) then [] else [Promote(v, raw)]) + TokensOf(v, Matches(s, m.end))
  {
    var m := MatchAt(s, i);
    var raw := Token(m.kind, s[i..m.end]);
    var ms := Matches(s, i);
    assert ms == [raw] + Matches(s, m.end);
    assert ms[0] == raw && ms[1..] == Matches(s, m.end);
    if Dropped(raw) {
      assert [] + TokensOf(v, Matches(s, m.end)) == TokensOf(v, Matches(s, m.end));
    }
  }

  /** The same step seen from a loop that has already kept `done` for the matches before i. */
  lemma TokensAfter(v: Variant, s: string, i: nat, done: seq<Token>)
    requires i < |s|
    requires Tokens(v, s) == done + TokensOf(v, Matches(s, i))
    ensures var m := MatchAt(s, i);
            var raw := Token(m.kind, s[i..m.end]);
            Tokens(v, s) == (if Dropped(raw) then done else done + [Promote(v, raw)]) + TokensOf(v, Matches(s, m.end))
  {
    var m := MatchAt(s, i);
    var raw := Token(m.kind, s[i..m.end]);
    var tail := TokensOf(v, Matches(s, m.end));
    TokensOfStep(v, s, i);
    if !Dropped(raw) {
      assert done + ([Promote(v, raw)] + tail) == (done + [Promote(v, raw)]) + tail;
    }
  }

  /** A token is kept exactly when it is the promotion of a raw match that is neither
      whitespace nor a comment. */
  lemma {:induction false} TokensOfMembers(v: Variant, ms: seq<Token>, t: Token)
    requires forall m | m in ms :: WellFormedLexeme(m)
    ensures t in TokensOf(v, ms) <==> exists m | m in ms :: !Dropped(m) && t == Promote(v, m)
  {
    if ms != [] {
      TokensOfMembers(v, ms[1..], t);
      assert forall m | m in ms :: m == ms[0] || m in ms[1..];
    }
  }

  /** Keeping tokens distributes over concatenation of match sequences; this lets a loop
      over the matches build the token list one match at a time. */
  lemma {:induction false} TokensOfAppend(v: Variant, a: seq<Token>, b: seq<Token>)
    requires forall m | m in a :: WellFormedLexeme(m)
    requires forall m | m in b :: WellFormedLexeme(m)
    ensures TokensOf(v, a + b) == TokensOf(v, a) + TokensOf(v, b)
  {
    if a != [] {
      assert (a + b)[0] == a[0];
      assert (a + b)[1..] == a[1..] + b;
      TokensOfAppend(v, a[1..], b);
    } else {
      assert a + b == b;
    }
  }

  /** The register of every lexed REG token lies in 0..15, so the register range check never
      fails on a tokenized line. */
  lemma TokenizedRegsParse(v: Variant, ts: seq<Token>)
    requires forall t | t in ts :: Lexed(v, t)
    ensures RegValues(ts).Ok?
  {
    LexedRegsParse(ts);
  }
}
