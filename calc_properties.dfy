/** Properties of one run of the pipeline (CalcHandler.py, `run_single_exp`). */
module CalcProperties {
  import opened Errors
  import opened Operators
  import opened Tokenizer
  import opened TokenizerProperties
  import opened Converter
  import opened ConverterProperties
  import opened Evaluator
  import opened EvaluatorProperties
  import opened CalcHandler

  /** An expression of whitespace only stops at the first gate with exactly one Empty_Input_Error. */
  lemma EmptyExpressionReported(exp: string, hit: bool, lib: FloatLib)
    requires Clean(exp) == []
    ensures RunSingleExpSpec(exp, hit, lib) == Reported([Diagnostic(EmptyInputError, NoPos)])
  {
    EmptyInput(exp, None);
  }

  /**
   * When the tokenizer records anything, the run stops there (unless the
   * tokenizer raised first): the converter and the evaluator never see the
   * tokens, and every reported error is lexical.
   */
  lemma LexicalErrorsStopTheRun(exp: string, hit: bool, lib: FloatLib)
    requires DiagnosticsOf(exp, None) != []
    ensures RunSingleExpSpec(exp, hit, lib) == if TokenizeCrashes(exp, None) then Crash else Reported(DiagnosticsOf(exp, None))
    ensures forall j :: 0 <= j < |DiagnosticsOf(exp, None)| ==> IsLexical(DiagnosticsOf(exp, None)[j].kind)
  {
    if Clean(exp) != [] {
      DiagnosticsAreLexical(TokensOf(exp, None));
    }
  }

  /**
   * A reported run has at least one error; when the first two stages passed,
   * the evaluator reported exactly one, since its first error is fatal.
   */
  lemma EvaluatorReportsOneError(exp: string, hit: bool, lib: FloatLib)
    requires DiagnosticsOf(exp, None) == []
    requires ConvertSpec(FreshConvState(hit), TokensOf(exp, None)).errors == []
    requires RunSingleExpSpec(exp, hit, lib).Reported?
    ensures |RunSingleExpSpec(exp, hit, lib).errors| == 1
  {
    var cs := ConvertSpec(FreshConvState(hit), TokensOf(exp, None));
    AtMostOneError(FreshEvalState, cs.output, lib);
  }

  /** A run that ends with a value recorded no error in any stage. */
  lemma AnswerHasNoErrors(exp: string, hit: bool, lib: FloatLib)
    requires RunSingleExpSpec(exp, hit, lib).Answer?
    ensures DiagnosticsOf(exp, None) == []
    ensures ConvertSpec(FreshConvState(hit), TokensOf(exp, None)).errors == []
    ensures !EvalSpec(FreshEvalState, ConvertSpec(FreshConvState(hit), TokensOf(exp, None)).output, lib).value.fatal
  {
    var cs := ConvertSpec(FreshConvState(hit), TokensOf(exp, None));
    AtMostOneError(FreshEvalState, cs.output, lib);
  }

  const One: Token := Token(NumberTok, "1", 0, 0)
  const Plus: Token := Token(OpTok(OperatorData(PlusOp)), "+", 1, 1)
  const Two: Token := Token(NumberTok, "2", 2, 2)

  /** The tokens of "1+2": a number, a binary '+', a number, with their positions. */
  lemma TokensOfOnePlusTwo()
    ensures TokensOf("1+2", None) == [One, Plus, Two]
    ensures DiagnosticsOf("1+2", None) == []
  {
    CleanOnePlusTwo();
    ScanOnePlusTwo();
    NoDiagnosticsOnePlusTwo();
  }

  lemma NoDiagnosticsOnePlusTwo()
    ensures Diagnostics([One, Plus, Two]) == []
  {
    assert [One, Plus, Two][1..] == [Plus, Two] && [Plus, Two][1..] == [Two] && [Two][1..] == [];
    assert Diagnostics([Two]) == [];
    assert Diagnostics([Plus, Two]) == [];
  }

  lemma CleanOnePlusTwo()
    ensures Clean("1+2") == "1+2"
  {
    var s := "1+2";
    assert s[1..][1..][1..] == [];
    assert !IsWhitespace(s[0]) && !IsWhitespace(s[1]) && !IsWhitespace(s[2]);
  }

  /** The scan of "1+2" from its start, one token at a time. */
  lemma ScanOnePlusTwo()
    ensures ScanFrom("1+2", 0, None) == [One, Plus, Two]
  {
    var s := "1+2";
    OnePlusTwoTokens();
    RemainingStep(s, 0, None);
    RemainingStep(s, 1, Some(One));
    RemainingStep(s, 2, Some(Plus));
    assert Remaining(s, 3, Some(Two)) == [];
  }

  lemma OnePlusTwoTokens()
    ensures NextToken("1+2", 0, None) == One
    ensures NextToken("1+2", 1, Some(One)) == Plus
    ensures NextToken("1+2", 2, Some(Plus)) == Two
  {
    var s := "1+2";
    assert NextToken(s, 0, None) == One by {
      assert NumberRunEnd(s, 0) == 0;
      assert CountChar("1", '.') == 0;
    }
    assert NextToken(s, 1, Some(One)) == Plus;
    assert NextToken(s, 2, Some(Plus)) == Two by {
      assert NumberRunEnd(s, 2) == 2;
      assert CountChar("2", '.') == 0;
    }
  }

  /** Its postfix form is "1 2 +" with no converter error. */
  lemma ConvertOnePlusTwo()
    ensures ConvertSpec(FreshConvState(false), [One, Plus, Two]) == ConvState([One, Two, Plus], [], [], false, [])
  {
    var ts := [One, Plus, Two];
    var st0 := FreshConvState(false);
    var st1 := st0.(output := [One]);
    var st2 := st1.(stack := [Plus]);
    var st3 := st2.(output := [One, Two]);
    assert Run(st0, ts, 1) == st1;
    assert Run(st0, ts, 2) == st2 by {
      assert PlacementSpec(st1, ts, 1) == st1;
      assert !IsSignMinus(ts, 1, []);
      assert PopHigher([One], [], 1.0) == ([One], []);
    }
    assert Run(st0, ts, 3) == st3;
    assert !HasOpen(st3.stack) by { assert !IsOpen(st3.stack[0]); }
    assert Reverse([Plus]) == [Plus];
  }

  /** "1 2 +" leaves 3.0 alone on the stack. */
  lemma EvalOnePlusTwo(lib: FloatLib)
    ensures EvalSpec(FreshEvalState, [One, Two, Plus], lib) == Some(EvalState([3.0], false, []))
  {
    var post := [One, Two, Plus];
    assert NatText(1) == "1" && NatText(2) == "2";
    var e0 := FreshEvalState;
    var e1 := e0.(stack := [1.0]);
    var e2 := e0.(stack := [1.0, 2.0]);
    NatNumberPushesItsValue(e0, One, 1, lib);
    NatNumberPushesItsValue(e1, Two, 2, lib);
    BinaryOperands(e2, Plus, [], 1.0, 2.0, lib);
    assert Plus.kind.op.cls == PlusOp;
    assert EvalStep(e2, Plus, lib) == Some(EvalState([] + [3.0], false, []));
    assert [] + [3.0] == [3.0];
    assert e0.stack + [1.0] == e1.stack && e1.stack + [2.0] == e2.stack;
    assert EvalUpTo(e0, post, 0, lib) == Some(e0);
    assert EvalUpTo(e0, post, 1, lib) == Some(e1);
    assert EvalUpTo(e0, post, 2, lib) == Some(e2);
    assert EvalUpTo(e0, post, 3, lib) == Some(EvalState([3.0], false, []));
  }

  /** "1 2 +" after both gates: the answer is the int 3. */
  lemma AfterLexingOnePlusTwo(lib: FloatLib)
    ensures AfterLexing([One, Plus, Two], false, lib) == Answer(IntValue(3))
  {
    ConvertCrashesIff([One, Plus, Two]);
    ConvertOnePlusTwo();
    EvalOnePlusTwo(lib);
    assert IsIntegral(3.0) && (3.0).Floor == 3;
    assert EvalOutcome(Some(EvalState([3.0], false, []))) == Answer(IntValue(3));
  }

  /** "1+2" evaluates to the int 3. */
  lemma OnePlusTwo(lib: FloatLib)
    ensures RunSingleExpSpec("1+2", false, lib) == Answer(IntValue(3))
  {
    TokensOfOnePlusTwo();
    TokenizeCrashesIff("1+2");
    assert !TokenizeCrashes("1+2", None) by { CleanOnePlusTwo(); }
    AfterLexingOnePlusTwo(lib);
  }

  // -------------------------------------------------- the as-written crashes

  /**
   * A text whose cleaned form ends in "(-" (three characters or more) makes
   * `tokenize_expression` raise IndexError, which `run_single_exp` does not catch.
   */
  lemma TrailingOpenMinusCrashes(exp: string, hit: bool, lib: FloatLib)
    requires |Clean(exp)| >= 3 && Clean(exp)[|Clean(exp)| - 2] == '(' && Clean(exp)[|Clean(exp)| - 1] == '-'
    ensures RunSingleExpSpec(exp, hit, lib) == Crash
  {
    TokenizeCrashesIff(exp);
  }

  /**
   * A text that passes the tokenizer and whose cleaned form ends in '(' makes
   * `convert` raise AttributeError, which `run_single_exp` does not catch.
   */
  lemma TrailingOpenParenCrashes(exp: string, hit: bool, lib: FloatLib)
    requires Clean(exp) != [] && Clean(exp)[|Clean(exp)| - 1] == '('
    requires DiagnosticsOf(exp, None) == []
    ensures RunSingleExpSpec(exp, hit, lib) == Crash
  {
    var s := Clean(exp);
    var ts := TokensOf(exp, None);
    TokenizeCrashesIff(exp);
    TokensTileCleanedText(exp, None);
    TokensOfOk(exp, None);
    var t := ts[|ts| - 1];
    assert TokenOk(s, t);
    assert t.start == t.end by {
      if IsNumberKind(t) {
        assert IsNumberChar(s[t.end]);
      } else if IsInvalidKind(t) {
        assert !IsValidChar(s[t.end]);
      }
    }
    assert IsOpen(t);
    ConvertCrashesIff(ts);
  }
}
