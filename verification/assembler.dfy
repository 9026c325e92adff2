/** The ARM_Assembler object: the label table it keeps from one call to the next, and the
    methods whose loops decode mnemonics, tokenize lines and run the two passes. */
module AssemblerClass {
  import opened Common
  import opened Text
  import opened Mnemonic
  import opened Tables
  import opened Lexer
  import opened Tokenizer
  import opened Encoder
  import opened Driver

  class Assembler {
    /** Which of the two programs the object is. */
    const variant: Variant

    /** `self.labels`: label name -> PC.  It is never cleared, so labels bound by one call of
        AssembleProgram are still there in the next. */
    var labels: map<string, nat>

    constructor(v: Variant)
      ensures variant == v && labels == map[]
    {
      variant := v;
      labels := map[];
    }

    /** The promotion in tokenize_instruction: a Pointer whose decoded base is a mnemonic
        and whose condition is a known suffix becomes OP. */
    method PromoteToken(raw: Token) returns (token: Token)
      ensures token == Promote(variant, raw)
    {
      token := raw;
      if raw.kind == Pointer {
        var base, cond, flags := DecodeMnemonic(raw.text);
        if base in ValidOps(variant) && cond in Conds {
          token := Token(Op, raw.text);
        }
      }
    }

    /** decode_mnemonic: upper-case, strip one flags 'S', then strip the first condition
        suffix in table order. */
    method DecodeMnemonic(name: string) returns (base: string, cond: string, flags: bool)
      ensures Decoded(base, cond, flags) == Decode(name)
    {
      var instr := Upper(name);
      flags := EndsWith(instr, "S");
      if flags {
        instr := instr[..|instr| - 1];
      }
      assert instr == Unflagged(name);
      base, cond := StripCondition(instr);
      match FirstCondSuffix(instr, 0)
      case Some(k) => DecodeFound(name, k);
      case None => DecodeNotFound(name);
    }

    /** The suffix loop of decode_mnemonic: try the conditions in table order and strip the
        first one the name ends with; AL when none matches. */
    method StripCondition(instr: string) returns (base: string, cond: string)
      ensures FirstCondSuffix(instr, 0).None? ==> base == instr && cond == "AL"
      ensures FirstCondSuffix(instr, 0).Some? ==>
                var k := FirstCondSuffix(instr, 0).value;
                cond == CondOrder[k] && base == instr[..|instr| - |CondOrder[k]|]
    {
      base, cond := instr, "AL";
      var k := 0;
      while k < |CondOrder|
        invariant 0 <= k <= |CondOrder|
        invariant FirstCondSuffix(instr, 0) == FirstCondSuffix(instr, k)
      {
        if EndsWith(instr, CondOrder[k]) {
          cond := CondOrder[k];
          base := instr[..|instr| - |cond|];
          return;
        }
        k := k + 1;
      }
    }

    /** tokenize_instruction: walk the matches of the line left to right, drop whitespace and
        comments, and turn a Pointer naming a known mnemonic into OP. */
    method TokenizeInstruction(line: string) returns (tokens: seq<Token>)
      ensures tokens == Tokens(variant, line)
    {
      tokens := [];
      var i := 0;
      assert [] + TokensOf(variant, Matches(line, 0)) == Tokens(variant, line);
      while i < |line|
        invariant 0 <= i <= |line|
        invariant Tokens(variant, line) == tokens + TokensOf(variant, Matches(line, i))
        decreases |line| - i
      {
        var m := MatchAt(line, i);
        var raw := Token(m.kind, line[i..m.end]);
        TokensAfter(variant, line, i, tokens);
        if raw.kind != Space && raw.kind != Comment {
          var token := PromoteToken(raw);
          tokens := tokens + [token];
        }
        i := m.end;
      }
      assert tokens + [] == tokens;
    }

    /** assemble_program: pass 1 numbers and tokenizes the cleaned lines, binds labels and
        hands out PCs; pass 2 encodes the retained lines and stops at the first failure. */
    method AssembleProgram(program: string) returns (outcome: Outcome)
      modifies this
      ensures labels == FirstPass(variant, old(labels), program).labels
      ensures outcome == Assemble(variant, old(labels), program)
    {
      var lines := SourceLines(variant, program);
      var tokenLines, extract := LabelPass(lines);
      outcome := EncodePass(tokenLines, extract);
    }

    /** The first loop of assemble_program. */
    method LabelPass(lines: seq<Line>) returns (tokenLines: seq<Retained>, extract: seq<string>)
      modifies this
      ensures Pass1(old(labels), TokenizeLines(variant, lines)) == Pass1State(labels, tokenLines, extract)
    {
      ghost var tlines := TokenizeLines(variant, lines);
      tokenLines, extract := [], [];
      var pc := 0;
      var i := 0;
      while i < |lines|
        invariant 0 <= i <= |lines|
        invariant Pass1(old(labels), tlines[..i]) == Pass1State(labels, tokenLines, extract)
        invariant pc == |tokenLines|
      {
        ghost var before := Pass1State(labels, tokenLines, extract);
        var instr := LabelLine(lines[i], pc);
        assert tlines[i] == TokenLine(lines[i].number, lines[i].text, Tokens(variant, lines[i].text));
        Pass1Extend(old(labels), tlines, i, before, labels, instr);
        if instr != [] {
          tokenLines := tokenLines + [Retained(lines[i].number, pc, instr)];
          extract := extract + [lines[i].text];
          pc := pc + 1;
        }
        i := i + 1;
      }
      assert tlines[..|lines|] == tlines;
    }

    /** One iteration of the first loop: tokenize the line, bind a leading label to the
        current PC, and give back the instruction tokens left on the line. */
    method LabelLine(line: Line, pc: nat) returns (instr: seq<Token>)
      modifies this
      ensures var tokens := Tokens(variant, line.text);
              && instr == Instruction(tokens)
              && labels == if DefinedLabel(tokens).Some? then old(labels)[DefinedLabel(tokens).value := pc] else old(labels)
    {
      var tokens := TokenizeInstruction(line.text);
      instr := [];
      if tokens != [] {
        if tokens[0].kind == Label {
          labels := labels[LabelName(tokens[0].text) := pc];
          if |tokens| > 1 {
            instr := tokens[1..];
          }
        } else {
          instr := tokens;
        }
      }
    }

    /** The body of the second loop for one retained line: ASM_v2 first refuses a line
        holding an UNKNOWN token, then the line goes to assemble_instruction. */
    method AssembleLine(r: Retained) returns (code: Encoded)
      ensures code == LineResult(variant, labels, r)
    {
      if variant == AsmV2 && exists j | 0 <= j < |r.tokens| :: r.tokens[j].kind == Unknown {
        code := Error(BadFormation);
      } else {
        code := Encode(variant, labels, r.tokens, r.pc);
      }
    }

    /** The second loop of assemble_program. */
    method EncodePass(tokenLines: seq<Retained>, extract: seq<string>) returns (outcome: Outcome)
      requires |tokenLines| == |extract|
      ensures var r := Pass2(LineResults(variant, labels, tokenLines), tokenLines, extract);
              outcome == if r.Ok? then Completed(r.value, extract) else Aborted(r.error)
    {
      ghost var es := LineResults(variant, labels, tokenLines);
      var result: seq<nat> := [];
      var k := 0;
      while k < |tokenLines|
        invariant 0 <= k <= |tokenLines|
        invariant Pass2(es[..k], tokenLines[..k], extract[..k]) == Ok(result)
      {
        var code := AssembleLine(tokenLines[k]);
        assert code == es[k];
        Pass2Advance(es, tokenLines, extract, k, result);
        if code.Error? {
          outcome := Aborted(Failure(code.error, tokenLines[k].number, extract[k]));
          return;
        }
        if code.Word? {
          result := result + [code.word];
        }
        k := k + 1;
      }
      assert es[..k] == es && tokenLines[..k] == tokenLines && extract[..k] == extract;
      outcome := Completed(result, extract);
    }
  }
}
