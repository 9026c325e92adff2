/** assemble_program as a specification: the clean-up of the source lines, the first pass that
    gives PCs and binds labels, and the second pass that encodes every retained line. */
module Driver {
  import opened Common
  import opened Text
  import opened Tables
  import opened Lexer
  import opened Tokenizer
  import opened Encoder

  /** A source line that survives the clean-up, with its 1-based number. */
  datatype Line = Line(number: nat, text: string)

  /** An entry of `token_lines`: the line number, the PC given to the line and its
      instruction tokens. */
  datatype Retained = Retained(number: nat, pc: nat, tokens: seq<Token>)

  /** What pass 2 reports before it exits: the error, the line number and the line's text. */
  datatype Failure = Failure(error: AsmError, line: nat, text: string)

  /** `(result, extract)`, or the failure that ends the run. */
  datatype Outcome = Completed(words: seq<nat>, extract: seq<string>) | Aborted(failure: Failure)

  /** `l.split('//', 1)[0].strip()` */
  function Clean(raw: string): string
  {
    Strip(BeforeComment(raw))
  }

  /** Clean every raw line, keeping their order and count. */
  function CleanAll(raw: seq<string>): (cleaned: seq<string>)
    ensures |cleaned| == |raw|
    ensures forall i | 0 <= i < |raw| :: cleaned[i] == Clean(raw[i])
  {
    seq(|raw|, i requires 0 <= i < |raw| => Clean(raw[i]))
  }

  /** Number the cleaned lines from `first` and keep the non-empty ones. */
  function NonEmptyLines(cleaned: seq<string>, first: nat): (lines: seq<Line>)
    ensures |lines| <= |cleaned|
    ensures forall k | 0 <= k < |lines| :: first <= lines[k].number < first + |cleaned| && lines[k].text != []
    decreases |cleaned|
  {
    if cleaned == [] then []
    else
      var rest := NonEmptyLines(cleaned[1..], first + 1);
      if cleaned[0] == [] then rest else [Line(first, cleaned[0])] + rest
  }

  /** The kept lines are in increasing order of line number. */
  lemma {:induction false} NonEmptyLinesIncreasing(cleaned: seq<string>, first: nat)
    ensures forall j, k | 0 <= j < k < |NonEmptyLines(cleaned, first)| ::
              NonEmptyLines(cleaned, first)[j].number < NonEmptyLines(cleaned, first)[k].number
    decreases |cleaned|
  {
    if cleaned != [] {
      NonEmptyLinesIncreasing(cleaned[1..], first + 1);
      var lines := NonEmptyLines(cleaned, first);
      var rest := NonEmptyLines(cleaned[1..], first + 1);
      if cleaned[0] != [] {
        forall j, k | 0 <= j < k < |lines| ensures lines[j].number < lines[k].number {
          NonEmptyLinesTail(cleaned, first, k - 1);
          if j > 0 {
            NonEmptyLinesTail(cleaned, first, j - 1);
          }
        }
      }
    }
  }

  /** Every kept line carries the text its number names. */
  predicate TextsAtNumbers(cleaned: seq<string>, first: nat)
  {
    forall k | 0 <= k < |NonEmptyLines(cleaned, first)| ::
      NonEmptyLines(cleaned, first)[k].text == cleaned[NonEmptyLines(cleaned, first)[k].number - first]
  }

  lemma {:induction false} NonEmptyLinesText(cleaned: seq<string>, first: nat)
    ensures TextsAtNumbers(cleaned, first)
    decreases |cleaned|
  {
    if cleaned != [] {
      NonEmptyLinesText(cleaned[1..], first + 1);
      forall k | 0 <= k < |NonEmptyLines(cleaned, first)|
        ensures NonEmptyLines(cleaned, first)[k].text == cleaned[NonEmptyLines(cleaned, first)[k].number - first]
      {
        NonEmptyLinesTextAt(cleaned, first, k);
      }
    }
  }

  /** The inductive step of NonEmptyLinesText for line k. */
  lemma NonEmptyLinesTextAt(cleaned: seq<string>, first: nat, k: nat)
    requires cleaned != [] && k < |NonEmptyLines(cleaned, first)|
    requires TextsAtNumbers(cleaned[1..], first + 1)
    ensures NonEmptyLines(cleaned, first)[k].text == cleaned[NonEmptyLines(cleaned, first)[k].number - first]
  {
    if cleaned[0] == [] || k > 0 {
      var rest := NonEmptyLines(cleaned[1..], first + 1);
      var j := if cleaned[0] == [] then k else k - 1;
      NonEmptyLinesTail(cleaned, first, j);
      assert rest[j].text == cleaned[1..][rest[j].number - (first + 1)];
      assert cleaned[rest[j].number - first] == cleaned[1..][rest[j].number - (first + 1)];
    }
  }

  /** No non-empty line is dropped. */
  lemma {:induction false} NonEmptyLinesComplete(cleaned: seq<string>, first: nat, i: nat)
    requires i < |cleaned| && cleaned[i] != []
    ensures exists k | 0 <= k < |NonEmptyLines(cleaned, first)| :: NonEmptyLines(cleaned, first)[k].number == first + i
    decreases |cleaned|
  {
    var lines := NonEmptyLines(cleaned, first);
    if i > 0 {
      var rest := NonEmptyLines(cleaned[1..], first + 1);
      assert cleaned[i] == cleaned[1..][i - 1];
      NonEmptyLinesComplete(cleaned[1..], first + 1, i - 1);
      var k :| 0 <= k < |rest| && rest[k].number == first + i;
      NonEmptyLinesTail(cleaned, first, k);
    } else {
      assert lines[0].number == first;
    }
  }

  /** Line k of the lines kept after the first is line k or k + 1 of all kept lines. */
  lemma NonEmptyLinesTail(cleaned: seq<string>, first: nat, k: nat)
    requires cleaned != [] && k < |NonEmptyLines(cleaned[1..], first + 1)|
    ensures var j := if cleaned[0] == [] then k else k + 1;
            j < |NonEmptyLines(cleaned, first)| && NonEmptyLines(cleaned, first)[j] == NonEmptyLines(cleaned[1..], first + 1)[k]
  {
  }

  /** The raw lines a program is split into: ASM_v2 strips the whole text first. */
  function RawLines(v: Variant, program: string): seq<string>
  {
    if v == AsmV2 then SplitLines(Strip(program)) else SplitLines(program)
  }

  /** The lines of a program: ASM_v2 strips the whole text before splitting it, so its line
      numbers count from the first line that is not blank; scpython numbers the raw lines. */
  function SourceLines(v: Variant, program: string): (lines: seq<Line>)
    ensures forall k | 0 <= k < |lines| :: lines[k].text != [] && 1 <= lines[k].number
    ensures forall j, k | 0 <= j < k < |lines| :: lines[j].number < lines[k].number
  {
    var cleaned := CleanAll(RawLines(v, program));
    NonEmptyLinesIncreasing(cleaned, 1);
    NonEmptyLines(cleaned, 1)
  }

  /** `labels`, `token_lines` and `extract` as pass 1 leaves them; the PC is |retained|. */
  datatype Pass1State = Pass1State(labels: map<string, nat>, retained: seq<Retained>, extract: seq<string>)

  /** A LABEL token's text without its final ':'. */
  function LabelName(text: string): string
  {
    if text == [] then [] else text[..|text| - 1]
  }

  /** The label a line defines: the name of its leading LABEL token, if it has one. */
  function DefinedLabel(tokens: seq<Token>): Option<string>
  {
    if tokens != [] && tokens[0].kind == Label then Some(LabelName(tokens[0].text)) else None
  }

  /** The instruction tokens of a line: those after a leading LABEL token, or all of them. */
  function Instruction(tokens: seq<Token>): (instr: seq<Token>)
    ensures DefinedLabel(tokens).Some? ==> [tokens[0]] + instr == tokens
    ensures DefinedLabel(tokens).None? ==> instr == tokens
  {
    if DefinedLabel(tokens).Some? then tokens[1..] else tokens
  }

  /** A cleaned line with the tokens tokenize_instruction gives for it. */
  datatype TokenLine = TokenLine(number: nat, text: string, tokens: seq<Token>)

  /** Tokenize every cleaned line. */
  function TokenizeLines(v: Variant, lines: seq<Line>): (tls: seq<TokenLine>)
    ensures |tls| == |lines|
    ensures forall i | 0 <= i < |lines| ::
              tls[i] == TokenLine(lines[i].number, lines[i].text, Tokens(v, lines[i].text))
  {
    seq(|lines|, i requires 0 <= i < |lines| => TokenLine(lines[i].number, lines[i].text, Tokens(v, lines[i].text)))
  }

  /** One line of pass 1: bind a leading label to the current PC; keep the line (and give it
      that PC) when tokens are left after the label. */
  function Pass1Step(st: Pass1State, line: TokenLine): Pass1State
  {
    var pc := |st.retained|;
    var labels := if DefinedLabel(line.tokens).Some? then st.labels[DefinedLabel(line.tokens).value := pc] else st.labels;
    var instr := Instruction(line.tokens);
    if instr == [] then Pass1State(labels, st.retained, st.extract)
    else Pass1State(labels, st.retained + [Retained(line.number, pc, instr)], st.extract + [line.text])
  }

  /** Pass 1 over the lines, starting from the labels the assembler already holds. */
  function Pass1(labels0: map<string, nat>, lines: seq<TokenLine>): (st: Pass1State)
    ensures |st.retained| == |st.extract| <= |lines|
    ensures forall k | 0 <= k < |st.retained| :: st.retained[k].pc == k && st.retained[k].tokens != []
    decreases |lines|
  {
    if lines == [] then Pass1State(labels0, [], [])
    else Pass1Step(Pass1(labels0, lines[..|lines| - 1]), lines[|lines| - 1])
  }

  /** Pass 1 over a prefix of the lines is pass 1 over the shorter prefix plus one step. */
  lemma Pass1Last(labels0: map<string, nat>, lines: seq<TokenLine>, n: nat)
    requires 0 < n <= |lines|
    ensures Pass1(labels0, lines[..n]) == Pass1Step(Pass1(labels0, lines[..n - 1]), lines[n - 1])
  {
    assert lines[..n][..n - 1] == lines[..n - 1];
  }

  /** The loop's view of one more line of pass 1, given the labels after binding the line's
      label and the instruction tokens left on it. */
  lemma Pass1Extend(labels0: map<string, nat>, lines: seq<TokenLine>, i: nat, st: Pass1State,
                    labels: map<string, nat>, instr: seq<Token>)
    requires i < |lines| && Pass1(labels0, lines[..i]) == st
    requires instr == Instruction(lines[i].tokens)
    requires labels == if DefinedLabel(lines[i].tokens).Some? then st.labels[DefinedLabel(lines[i].tokens).value := |st.retained|] else st.labels
    ensures Pass1(labels0, lines[..i + 1])
            == if instr == [] then Pass1State(labels, st.retained, st.extract)
               else Pass1State(labels, st.retained + [Retained(lines[i].number, |st.retained|, instr)], st.extract + [lines[i].text])
  {
    Pass1Last(labels0, lines, i + 1);
  }

  /** The retained line r, with text `text`, comes from one of the lines: same number, same
      text, and the tokens left after its leading label. */
  predicate FromLine(lines: seq<TokenLine>, r: Retained, text: string)
  {
    exists j | 0 <= j < |lines| ::
      lines[j].number == r.number && lines[j].text == text && r.tokens == Instruction(lines[j].tokens)
  }

  /** Every retained line comes from a source line. */
  lemma {:induction false} Pass1Origin(labels0: map<string, nat>, lines: seq<TokenLine>)
    ensures forall k | 0 <= k < |Pass1(labels0, lines).retained| ::
              FromLine(lines, Pass1(labels0, lines).retained[k], Pass1(labels0, lines).extract[k])
    decreases |lines|
  {
    if lines != [] {
      var n := |lines| - 1;
      Pass1Origin(labels0, lines[..n]);
      var prev := Pass1(labels0, lines[..n]);
      var st := Pass1(labels0, lines);
      assert st == Pass1Step(prev, lines[n]);
      forall k | 0 <= k < |st.retained|
        ensures FromLine(lines, st.retained[k], st.extract[k])
      {
        if k < |prev.retained| {
          assert prev.retained[k] == st.retained[k] && prev.extract[k] == st.extract[k];
          assert FromLine(lines[..n], prev.retained[k], prev.extract[k]);
          var j :| 0 <= j < n && lines[..n][j].number == prev.retained[k].number
                   && lines[..n][j].text == prev.extract[k]
                   && prev.retained[k].tokens == Instruction(lines[..n][j].tokens);
          assert lines[j] == lines[..n][j];
        } else {
          assert st.retained[k].number == lines[n].number;
        }
      }
    }
  }

  /** What pass 2 makes of one retained line: ASM_v2 refuses a line holding an UNKNOWN token
      before it encodes anything; scpython hands every line to the encoder. */
  function LineResult(v: Variant, labels: map<string, nat>, r: Retained): (e: Encoded)
    ensures e.Word? ==> e.word < 0x1_0000_0000
    ensures v == AsmV2 && (exists k | 0 <= k < |r.tokens| :: r.tokens[k].kind == Unknown) ==> e == Error(BadFormation)
    ensures v == ScPython ==> e == Encode(v, labels, r.tokens, r.pc)
  {
    if v == AsmV2 && exists k | 0 <= k < |r.tokens| :: r.tokens[k].kind == Unknown then Error(BadFormation)
    else Encode(v, labels, r.tokens, r.pc)
  }

  /** What pass 2 makes of every retained line, in order. */
  function LineResults(v: Variant, labels: map<string, nat>, rs: seq<Retained>): (es: seq<Encoded>)
    ensures |es| == |rs|
    ensures forall k | 0 <= k < |rs| :: es[k] == LineResult(v, labels, rs[k])
  {
    seq(|rs|, k requires 0 <= k < |rs| => LineResult(v, labels, rs[k]))
  }

  /** Pass 2 over the results of the retained lines: the words in order, with the lines that
      hold no instruction skipped, or the first failure with its line number and text. */
  function Pass2(es: seq<Encoded>, rs: seq<Retained>, extract: seq<string>): (r: Result<seq<nat>, Failure>)
    requires |es| == |rs| == |extract|
    ensures r.Ok? <==> forall k | 0 <= k < |es| :: !es[k].Error?
    ensures r.Ok? ==> |r.value| <= |es|
    decreases |es|
  {
    if es == [] then Ok([])
    else
      var n := |es| - 1;
      assert forall k | 0 <= k < n :: es[..n][k] == es[k];
      match Pass2(es[..n], rs[..n], extract[..n])
      case Err(f) => Err(f)
      case Ok(words) =>
        match es[n]
        case Error(e) => Err(Failure(e, rs[n].number, extract[n]))
        case NoInstruction => Ok(words)
        case Word(w) => Ok(words + [w])
  }

  /** A failed pass 2 reports the first failing line: its error, its number and its text. */
  lemma {:induction false} Pass2FirstFailure(es: seq<Encoded>, rs: seq<Retained>, extract: seq<string>)
    requires |es| == |rs| == |extract|
    ensures var r := Pass2(es, rs, extract);
            r.Err? ==>
              exists k | 0 <= k < |es| ::
                es[k] == Error(r.error.error) && r.error.line == rs[k].number && r.error.text == extract[k]
                && forall j | 0 <= j < k :: !es[j].Error?
    decreases |es|
  {
    if es != [] {
      var n := |es| - 1;
      Pass2FirstFailure(es[..n], rs[..n], extract[..n]);
      var prev := Pass2(es[..n], rs[..n], extract[..n]);
      if prev.Err? {
        var f := prev.error;
        var k :| 0 <= k < n && es[..n][k] == Error(f.error)
                 && f.line == rs[..n][k].number && f.text == extract[..n][k]
                 && forall j | 0 <= j < k :: !es[..n][j].Error?;
        assert es[k] == es[..n][k] && rs[k] == rs[..n][k] && extract[k] == extract[..n][k];
        assert forall j | 0 <= j < k :: es[j] == es[..n][j];
      } else {
        assert forall j | 0 <= j < n :: es[j] == es[..n][j];
      }
    }
  }

  /** One more line of pass 2 after a prefix that succeeded. */
  lemma Pass2Next(es: seq<Encoded>, rs: seq<Retained>, extract: seq<string>, k: nat, words: seq<nat>)
    requires |es| == |rs| == |extract| && k < |es|
    requires Pass2(es[..k], rs[..k], extract[..k]) == Ok(words)
    ensures Pass2(es[..k + 1], rs[..k + 1], extract[..k + 1])
            == if es[k].Error? then Err(Failure(es[k].error, rs[k].number, extract[k]))
               else if es[k].Word? then Ok(words + [es[k].word])
               else Ok(words)
  {
    assert es[..k + 1][..k] == es[..k] && rs[..k + 1][..k] == rs[..k] && extract[..k + 1][..k] == extract[..k];
  }

  /** Once a prefix of the lines has failed, the lines after it change nothing. */
  lemma {:induction false} Pass2StopsAtFailure(es: seq<Encoded>, rs: seq<Retained>, extract: seq<string>, k: nat)
    requires |es| == |rs| == |extract| && k <= |es|
    requires Pass2(es[..k], rs[..k], extract[..k]).Err?
    ensures Pass2(es, rs, extract) == Pass2(es[..k], rs[..k], extract[..k])
    decreases |es|
  {
    var n := |es| - 1;
    if k <= n {
      assert es[..n][..k] == es[..k] && rs[..n][..k] == rs[..k] && extract[..n][..k] == extract[..k];
      Pass2StopsAtFailure(es[..n], rs[..n], extract[..n], k);
    } else {
      assert es[..k] == es && rs[..k] == rs && extract[..k] == extract;
    }
  }

  /** The loop's view of one more line: a failing line decides the whole pass, any other
      line extends the words of the prefix. */
  lemma Pass2Advance(es: seq<Encoded>, rs: seq<Retained>, extract: seq<string>, k: nat, words: seq<nat>)
    requires |es| == |rs| == |extract| && k < |es|
    requires Pass2(es[..k], rs[..k], extract[..k]) == Ok(words)
    ensures es[k].Error? ==> Pass2(es, rs, extract) == Err(Failure(es[k].error, rs[k].number, extract[k]))
    ensures !es[k].Error? ==>
              Pass2(es[..k + 1], rs[..k + 1], extract[..k + 1]) == Ok(if es[k].Word? then words + [es[k].word] else words)
  {
    Pass2Next(es, rs, extract, k, words);
    if es[k].Error? {
      Pass2StopsAtFailure(es, rs, extract, k + 1);
    }
  }

  /** Every word of a completed pass 2 is the word of some line, so it fits in 32 bits. */
  lemma {:induction false} Pass2WordsFromLines(es: seq<Encoded>, rs: seq<Retained>, extract: seq<string>)
    requires |es| == |rs| == |extract|
    ensures var r := Pass2(es, rs, extract);
            r.Ok? ==> forall i | 0 <= i < |r.value| :: exists k | 0 <= k < |es| :: es[k] == Word(r.value[i])
    decreases |es|
  {
    if es != [] {
      var n := |es| - 1;
      Pass2WordsFromLines(es[..n], rs[..n], extract[..n]);
      var r := Pass2(es, rs, extract);
      if r.Ok? {
        var words := Pass2(es[..n], rs[..n], extract[..n]).value;
        forall i | 0 <= i < |r.value| ensures exists k | 0 <= k < |es| :: es[k] == Word(r.value[i]) {
          if i < |words| {
            assert r.value[i] == words[i];
            var k :| 0 <= k < n && es[..n][k] == Word(words[i]);
            assert es[k] == es[..n][k];
          } else {
            assert es[n] == Word(r.value[i]);
          }
        }
      }
    }
  }

  /** When every retained line holds an instruction that encodes, pass 2 gives one word per
      line, in order. */
  lemma {:induction false} Pass2AllWords(es: seq<Encoded>, rs: seq<Retained>, extract: seq<string>)
    requires |es| == |rs| == |extract|
    requires forall k | 0 <= k < |es| :: es[k].Word?
    ensures Pass2(es, rs, extract).Ok?
    ensures |Pass2(es, rs, extract).value| == |es|
    ensures forall k | 0 <= k < |es| :: Pass2(es, rs, extract).value[k] == es[k].word
    decreases |es|
  {
    if es != [] {
      var n := |es| - 1;
      assert forall j | 0 <= j < n :: es[..n][j] == es[j];
      Pass2AllWords(es[..n], rs[..n], extract[..n]);
      var words := Pass2(es[..n], rs[..n], extract[..n]).value;
      assert Pass2(es, rs, extract) == Ok(words + [es[n].word]);
    }
  }

  /** Pass 1 over a program's lines. */
  function FirstPass(v: Variant, labels0: map<string, nat>, program: string): Pass1State
  {
    Pass1(labels0, TokenizeLines(v, SourceLines(v, program)))
  }

  /** assemble_program: pass 1 from the labels already held, then pass 2 with the labels
      pass 1 leaves. */
  function Assemble(v: Variant, labels0: map<string, nat>, program: string): (o: Outcome)
    ensures o.Completed? ==>
              |o.words| <= |o.extract| && forall k | 0 <= k < |o.words| :: o.words[k] < 0x1_0000_0000
  {
    var st := FirstPass(v, labels0, program);
    var es := LineResults(v, st.labels, st.retained);
    match Pass2(es, st.retained, st.extract)
    case Ok(words) =>
      assert forall k | 0 <= k < |words| :: words[k] < 0x1_0000_0000 by {
        Pass2WordsFromLines(es, st.retained, st.extract);
        forall k | 0 <= k < |words| ensures words[k] < 0x1_0000_0000 {
          var j :| 0 <= j < |es| && es[j] == Word(words[k]);
          assert es[j] == LineResult(v, st.labels, st.retained[j]);
        }
      }
      Completed(words, st.extract)
    case Err(f) => Aborted(f)
  }
}
