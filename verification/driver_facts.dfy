/** Properties of the two passes of assemble_program. */
module DriverFacts {
  import opened Common
  import opened Text
  import opened Tables
  import opened Lexer
  import opened Tokenizer
  import opened Encoder
  import opened EncoderFacts
  import opened Driver

  /** Whether a line defines the label `name`. */
  predicate Defines(line: TokenLine, name: string)
  {
    DefinedLabel(line.tokens) == Some(name)
  }

  /** One step of pass 1 only appends to the retained lines and their texts, so whatever
      was a prefix of them before still is. */
  lemma Pass1StepAppends(early: Pass1State, st: Pass1State, line: TokenLine)
    requires early.retained <= st.retained && early.extract <= st.extract
    ensures early.retained <= Pass1Step(st, line).retained && early.extract <= Pass1Step(st, line).extract
  {
  }

  /** One step of pass 1 leaves alone a label the line does not define. */
  lemma Pass1StepKeeps(st: Pass1State, line: TokenLine, name: string)
    requires !Defines(line, name)
    ensures name in Pass1Step(st, line).labels <==> name in st.labels
    ensures name in st.labels ==> Pass1Step(st, line).labels[name] == st.labels[name]
  {
  }

  /** Pass 1 only ever appends: the state after a prefix of the lines is a prefix of the
      final state, so a PC handed out early is never reassigned. */
  lemma {:induction false} Pass1Prefix(labels0: map<string, nat>, lines: seq<TokenLine>, k: nat)
    requires k <= |lines|
    ensures Pass1(labels0, lines[..k]).retained <= Pass1(labels0, lines).retained
    ensures Pass1(labels0, lines[..k]).extract <= Pass1(labels0, lines).extract
    decreases |lines|
  {
    if k == |lines| {
      assert lines[..k] == lines;
    } else {
      var n := |lines| - 1;
      PrefixOfPrefix(lines, n, k);
      Pass1Prefix(labels0, lines[..n], k);
      Pass1Grows(labels0, lines, Pass1(labels0, lines[..k]));
    }
  }

  /** The step of Pass1Prefix: pass 1 over all the lines extends what extended pass 1 over
      all but the last. */
  lemma Pass1Grows(labels0: map<string, nat>, lines: seq<TokenLine>, early: Pass1State)
    requires lines != []
    requires early.retained <= Pass1(labels0, lines[..|lines| - 1]).retained
    requires early.extract <= Pass1(labels0, lines[..|lines| - 1]).extract
    ensures early.retained <= Pass1(labels0, lines).retained && early.extract <= Pass1(labels0, lines).extract
  {
    Pass1StepAppends(early, Pass1(labels0, lines[..|lines| - 1]), lines[|lines| - 1]);
  }

  lemma PrefixOfPrefix<T>(s: seq<T>, n: nat, k: nat)
    requires k <= n <= |s|
    ensures s[..n][..k] == s[..k]
  {
  }

  /** The PC moves past line k exactly when tokens are left on it after a leading label, and
      then the line is retained with that PC and those tokens. */
  lemma Pass1Advance(labels0: map<string, nat>, lines: seq<TokenLine>, k: nat)
    requires k < |lines|
    ensures var before := Pass1(labels0, lines[..k]);
            var after := Pass1(labels0, lines[..k + 1]);
            var instr := Instruction(lines[k].tokens);
            && |after.retained| == |before.retained| + (if instr == [] then 0 else 1)
            && (instr != [] ==> after.retained[|before.retained|] == Retained(lines[k].number, |before.retained|, instr)
                                && after.extract[|before.retained|] == lines[k].text)
  {
    assert lines[..k + 1][..k] == lines[..k];
  }

  /** A label that no line defines keeps whatever the assembler held for it before. */
  lemma {:induction false} Pass1LabelUntouched(labels0: map<string, nat>, lines: seq<TokenLine>, name: string)
    requires forall j | 0 <= j < |lines| :: !Defines(lines[j], name)
    ensures name in Pass1(labels0, lines).labels <==> name in labels0
    ensures name in labels0 ==> Pass1(labels0, lines).labels[name] == labels0[name]
    decreases |lines|
  {
    if lines != [] {
      var n := |lines| - 1;
      assert forall j | 0 <= j < n :: lines[..n][j] == lines[j];
      Pass1LabelUntouched(labels0, lines[..n], name);
      assert Pass1(labels0, lines) == Pass1Step(Pass1(labels0, lines[..n]), lines[n]);
      Pass1StepKeeps(Pass1(labels0, lines[..n]), lines[n], name);
    }
  }

  /** A label is bound to the PC current at the last line that defines it: the number of lines
      retained before that line, which is the PC of the next retained line. */
  lemma {:induction false} Pass1LabelLastDefinition(labels0: map<string, nat>, lines: seq<TokenLine>,
                                                    name: string, k: nat)
    requires k < |lines| && Defines(lines[k], name)
    requires forall j | k < j < |lines| :: !Defines(lines[j], name)
    ensures name in Pass1(labels0, lines).labels
    ensures Pass1(labels0, lines).labels[name] == |Pass1(labels0, lines[..k]).retained|
    decreases |lines|
  {
    var n := |lines| - 1;
    var prev := Pass1(labels0, lines[..n]);
    assert Pass1(labels0, lines) == Pass1Step(prev, lines[n]);
    if k == n {
      assert lines[..n] == lines[..k];
    } else {
      assert lines[..n][k] == lines[k];
      assert lines[..n][..k] == lines[..k];
      assert forall j | k < j < n :: lines[..n][j] == lines[j];
      Pass1LabelLastDefinition(labels0, lines[..n], name, k);
      assert !Defines(lines[n], name);
    }
  }

  /** How many lines hold no instruction and so give no word. */
  function Skipped(es: seq<Encoded>): (n: nat)
    ensures n <= |es|
  {
    if es == [] then 0
    else Skipped(es[..|es| - 1]) + (if es[|es| - 1].NoInstruction? then 1 else 0)
  }

  /** A completed pass 2 gives one word for every retained line except the skipped ones; the
      skipped lines still took a PC in pass 1. */
  lemma {:induction false} Pass2WordCount(es: seq<Encoded>, rs: seq<Retained>, extract: seq<string>)
    requires |es| == |rs| == |extract|
    ensures Pass2(es, rs, extract).Ok? ==> |Pass2(es, rs, extract).value| + Skipped(es) == |es|
    decreases |es|
  {
    if es != [] {
      var n := |es| - 1;
      Pass2WordCount(es[..n], rs[..n], extract[..n]);
    }
  }

  /** ASM_v2's pass 2 never completes over a retained line that holds an UNKNOWN token. */
  lemma AsmV2RejectsUnknown(labels: map<string, nat>, rs: seq<Retained>, extract: seq<string>)
    requires |rs| == |extract|
    ensures Pass2(LineResults(AsmV2, labels, rs), rs, extract).Ok? ==>
              forall k, j | 0 <= k < |rs| && 0 <= j < |rs[k].tokens| :: rs[k].tokens[j].kind != Unknown
  {
    var es := LineResults(AsmV2, labels, rs);
    if Pass2(es, rs, extract).Ok? {
      forall k, j | 0 <= k < |rs| && 0 <= j < |rs[k].tokens|
        ensures rs[k].tokens[j].kind != Unknown
      {
        assert !es[k].Error?;
      }
    }
  }

  /** scpython encodes a line with UNKNOWN tokens as if they were not there. */
  lemma ScPythonIgnoresUnknown(labels: map<string, nat>, r: Retained)
    ensures LineResult(ScPython, labels, r) == Encode(ScPython, labels, Without(r.tokens, Unknown), r.pc)
  {
    EncodeIgnoresUnknown(ScPython, labels, r.tokens, r.pc);
  }

  /** Errors that the lexer makes unreachable from a tokenized line. */
  predicate Unreachable(e: AsmError)
  {
    e.NotImplemented? || e == SpecialUnimplemented || e == BadRegister || e == RegisterOutOfRange
  }

  /** One retained line whose tokens are all lexed never fails with such an error. */
  lemma LineResultReachable(v: Variant, labels: map<string, nat>, r: Retained)
    requires forall t | t in r.tokens :: Lexed(v, t)
    ensures LineResult(v, labels, r).Error? ==> !Unreachable(LineResult(v, labels, r).error)
  {
    TokenizedLineErrors(v, labels, r.tokens, r.pc);
  }

  /** The error pass 2 reports is the error of one of the lines. */
  lemma Pass2ErrorFromLine(es: seq<Encoded>, rs: seq<Retained>, extract: seq<string>)
    requires |es| == |rs| == |extract|
    requires forall k | 0 <= k < |es| :: es[k].Error? ==> !Unreachable(es[k].error)
    ensures Pass2(es, rs, extract).Err? ==> !Unreachable(Pass2(es, rs, extract).error.error)
  {
    Pass2FirstFailure(es, rs, extract);
  }

  /** Pass 1 keeps only tokens of the lines it is given. */
  lemma Pass1RetainsLexed(v: Variant, labels0: map<string, nat>, lines: seq<TokenLine>)
    requires forall j, t | 0 <= j < |lines| && t in lines[j].tokens :: Lexed(v, t)
    ensures forall k, t | 0 <= k < |Pass1(labels0, lines).retained| && t in Pass1(labels0, lines).retained[k].tokens :: Lexed(v, t)
  {
    var st := Pass1(labels0, lines);
    Pass1Origin(labels0, lines);
    forall k, t | 0 <= k < |st.retained| && t in st.retained[k].tokens ensures Lexed(v, t) {
      assert FromLine(lines, st.retained[k], st.extract[k]);
      var j :| 0 <= j < |lines| && lines[j].number == st.retained[k].number && lines[j].text == st.extract[k]
               && st.retained[k].tokens == Instruction(lines[j].tokens);
      assert t in lines[j].tokens;
    }
  }

  /** assemble_program stops only for a bad immediate, an operand shape the mnemonic
      refuses, a missing or undefined label, scpython's MOV unpack or ASM_v2's UNKNOWN check:
      never for a register out of range, an unknown mnemonic or an unimplemented special. */
  lemma AssembleAbortReasons(v: Variant, labels0: map<string, nat>, program: string)
    ensures Assemble(v, labels0, program).Aborted? ==> !Unreachable(Assemble(v, labels0, program).failure.error)
  {
    var lines := TokenizeLines(v, SourceLines(v, program));
    var st := Pass1(labels0, lines);
    Pass1RetainsLexed(v, labels0, lines);
    var es := LineResults(v, st.labels, st.retained);
    forall k | 0 <= k < |es| ensures es[k].Error? ==> !Unreachable(es[k].error) {
      LineResultReachable(v, st.labels, st.retained[k]);
    }
    Pass2ErrorFromLine(es, st.retained, st.extract);
  }
}
