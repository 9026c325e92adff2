/** reg_val, imm_val and the list comprehensions that apply them to a token line. */
module Values {
  import opened Common
  import opened Text
  import opened Lexer

  /** The text after the one-character prefix ('R' or '#'), as `s[1:]`. */
  function AfterPrefix(s: string): string
  {
    if s == [] then [] else s[1..]
  }

  /** reg_val: the decimal number after the prefix, which must lie in 0..15. */
  function RegVal(text: string): (r: Result<nat, AsmError>)
    ensures r.Ok? ==> r.value <= 15
    ensures r.Ok? <==> ParseDecimal(AfterPrefix(text)).Some? && ParseDecimal(AfterPrefix(text)).value <= 15
    ensures r.Err? ==> r.error == (if ParseDecimal(AfterPrefix(text)).None? then BadRegister else RegisterOutOfRange)
  {
    match ParseDecimal(AfterPrefix(text))
    case None => Err(BadRegister)
    case Some(n) => if n <= 15 then Ok(n) else Err(RegisterOutOfRange)
  }

  /** imm_val: the base-0 number after the prefix, which must lie in 0..max. */
  function ImmVal(text: string, max: nat): (r: Result<nat, AsmError>)
    ensures r.Ok? ==> r.value <= max
    ensures r.Ok? <==> ParseBase0(AfterPrefix(text)).Some? && ParseBase0(AfterPrefix(text)).value <= max
    ensures r.Err? ==> r.error == (if ParseBase0(AfterPrefix(text)).None? then BadImmediate else ImmediateOutOfRange)
  {
    match ParseBase0(AfterPrefix(text))
    case None => Err(BadImmediate)
    case Some(n) => if n <= max then Ok(n) else Err(ImmediateOutOfRange)
  }

  /** `[f(v) for v in texts]` where f may raise: all values, or the first failure. */
  function ParseAll(texts: seq<string>, f: string -> Result<nat, AsmError>): (r: Result<seq<nat>, AsmError>)
    ensures r.Ok? ==> |r.value| == |texts| && forall i | 0 <= i < |texts| :: f(texts[i]) == Ok(r.value[i])
    ensures r.Err? ==> FirstFailure(texts, f, r.error)
  {
    if texts == [] then Ok([])
    else
      match f(texts[0])
      case Err(e) => Err(e)
      case Ok(x) =>
        match ParseAll(texts[1..], f)
        case Err(e) => FirstFailureShifts(texts, f, e); Err(e)
        case Ok(xs) => Ok([x] + xs)
  }

  /** f fails with e on some text, and succeeds on every text before it. */
  predicate FirstFailure(texts: seq<string>, f: string -> Result<nat, AsmError>, e: AsmError)
  {
    exists i | 0 <= i < |texts| :: f(texts[i]) == Err(e) && forall j | 0 <= j < i :: f(texts[j]).Ok?
  }

  lemma FirstFailureShifts(texts: seq<string>, f: string -> Result<nat, AsmError>, e: AsmError)
    requires texts != [] && f(texts[0]).Ok? && FirstFailure(texts[1..], f, e)
    ensures FirstFailure(texts, f, e)
  {
    var i :| 0 <= i < |texts[1..]| && f(texts[1..][i]) == Err(e) && forall j | 0 <= j < i :: f(texts[1..][j]).Ok?;
    assert f(texts[i + 1]) == Err(e);
    forall j | 0 < j < i + 1 ensures f(texts[j]).Ok? {
      assert texts[j] == texts[1..][j - 1];
    }
  }

  /** The texts of the tokens of one kind, in order. */
  function TextsOf(tokens: seq<Token>, kind: Kind): (texts: seq<string>)
    ensures |texts| <= |tokens|
  {
    if tokens == [] then []
    else
      var rest := TextsOf(tokens[1..], kind);
      if tokens[0].kind == kind then [tokens[0].text] + rest else rest
  }

  /** A text is kept exactly when some token of the line has that kind and that text. */
  lemma {:induction false} TextsOfMembers(tokens: seq<Token>, kind: Kind, t: string)
    ensures t in TextsOf(tokens, kind) <==> exists tok | tok in tokens :: tok.kind == kind && tok.text == t
  {
    if tokens != [] {
      TextsOfMembers(tokens[1..], kind, t);
      assert forall tok | tok in tokens :: tok == tokens[0] || tok in tokens[1..];
      assert tokens[0] in tokens;
    }
  }

  /** `regs = [reg_val(v) for (k, v) in tokens if k == "REG"]` */
  function RegValues(tokens: seq<Token>): (r: Result<seq<nat>, AsmError>)
    ensures r.Ok? ==> |r.value| == |TextsOf(tokens, Reg)| && forall i | 0 <= i < |r.value| :: r.value[i] < 16
    ensures r.Err? ==> r.error == BadRegister || r.error == RegisterOutOfRange
  {
    ParseAll(TextsOf(tokens, Reg), RegVal)
  }

  /** `imms = [imm_val(v, max) for (k, v) in tokens if k == "IMM"]` */
  function ImmValues(tokens: seq<Token>, max: nat): (r: Result<seq<nat>, AsmError>)
    ensures r.Ok? ==> |r.value| == |TextsOf(tokens, Imm)| && forall i | 0 <= i < |r.value| :: r.value[i] <= max
    ensures r.Err? ==> r.error == BadImmediate || r.error == ImmediateOutOfRange
  {
    var r := ParseAll(TextsOf(tokens, Imm), t => ImmVal(t, max));
    if r.Ok? then
      assert forall i | 0 <= i < |r.value| :: ImmVal(TextsOf(tokens, Imm)[i], max) == Ok(r.value[i]);
      r
    else r
  }

  /** The REG pattern only admits R0..R15, so reg_val never fails on a lexed register. */
  lemma RegLexemeInRange(t: string)
    requires IsRegLexeme(t)
    ensures RegVal(t).Ok?
    ensures RegVal(t).value == (if |t| == 2 then DigitValue(t[1]) else 10 + DigitValue(t[2]))
  {
    var d := AfterPrefix(t);
    assert d == t[1..];
    assert AllDigits(d);
    assert Value(d, 10) == 10 * Value(d[..|d| - 1], 10) + DigitValue(d[|d| - 1]);
    if |t| == 3 {
      var h := d[..1];
      assert Value(h, 10) == 10 * Value(h[..0], 10) + DigitValue(h[0]);
    }
  }

  /** Every register of a lexed line parses, so `regs` is never the source of an error. */
  lemma {:induction false} LexedRegsParse(tokens: seq<Token>)
    requires forall t | t in tokens :: t.kind == Reg ==> IsRegLexeme(t.text)
    ensures RegValues(tokens).Ok?
  {
    var texts := TextsOf(tokens, Reg);
    forall i | 0 <= i < |texts| ensures RegVal(texts[i]).Ok? {
      assert texts[i] in texts;
      TextsOfMembers(tokens, Reg, texts[i]);
      RegLexemeInRange(texts[i]);
    }
    ParseAllOk(texts, RegVal);
  }

  lemma {:induction false} ParseAllOk(texts: seq<string>, f: string -> Result<nat, AsmError>)
    requires forall i | 0 <= i < |texts| :: f(texts[i]).Ok?
    ensures ParseAll(texts, f).Ok?
  {
    if texts != [] {
      ParseAllOk(texts[1..], f);
    }
  }

  /** R<n> in plain decimal is register n when n <= 15 and out of range otherwise. */
  lemma RegValRoundTrip(n: nat)
    ensures RegVal("R" + Digits(n, 10)) == if n <= 15 then Ok(n) else Err(RegisterOutOfRange)
  {
    ParseBase0RoundTrip(n);
    assert AfterPrefix("R" + Digits(n, 10)) == Digits(n, 10);
  }

  /** #<n> in decimal is accepted exactly up to the limit. */
  lemma ImmValDecimal(n: nat, max: nat)
    ensures ImmVal("#" + Digits(n, 10), max) == if n <= max then Ok(n) else Err(ImmediateOutOfRange)
  {
    ParseBase0RoundTrip(n);
    assert AfterPrefix("#" + Digits(n, 10)) == Digits(n, 10);
  }

  /** #0x<n> in hexadecimal is accepted exactly up to the limit. */
  lemma ImmValHex(n: nat, max: nat)
    ensures ImmVal("#0x" + Digits(n, 16), max) == if n <= max then Ok(n) else Err(ImmediateOutOfRange)
  {
    ParseBase0RoundTrip(n);
    assert AfterPrefix("#0x" + Digits(n, 16)) == "0x" + Digits(n, 16);
  }

  /** A decimal written with a leading zero (such as #08) is refused whatever the limit. */
  lemma ImmValLeadingZero(n: nat, max: nat)
    requires n > 0
    ensures ImmVal("#0" + Digits(n, 10), max) == Err(BadImmediate)
  {
    var d := "0" + Digits(n, 10);
    assert ("#0" + Digits(n, 10))[1..] == d;
    ParseBase0RoundTrip(n);
    assert ParseBase0(d).None?;
  }

  /** A decimal digit string with a redundant leading zero, which int(s, 0) refuses. */
  predicate LeadingZeroDecimal(d: string)
  {
    |d| >= 2 && AllDigits(d) && d[0] == '0' && exists k | 0 <= k < |d| :: d[k] != '0'
  }

  /** On a lexed immediate, imm_val fails for a malformed number exactly when the digits
      carry a redundant leading zero; every other failure is the range check. */
  lemma LexedImmediate(t: string, max: nat)
    requires IsImmLexeme(t)
    ensures ImmVal(t, max) == Err(BadImmediate) <==> LeadingZeroDecimal(t[1..])
  {
    var d := AfterPrefix(t);
    assert d == t[1..];
    if !AllDigits(d) {
      assert |t| >= 4 && t[1] == '0' && (t[2] == 'x' || t[2] == 'X') && AllHex(t[3..]);
      assert d[2..] == t[3..];
    }
  }
}
