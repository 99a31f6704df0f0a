/**
 * One run of an expression through the three stages (CalcHandler.py,
 * `run_single_exp`). The stages share one error list; after each stage the
 * error gate stops the run with the list recorded so far when it is not
 * empty. The read-eval-print loop, its console I/O and the output formatting
 * are not part of this model.
 */
module CalcHandler {
  import opened Errors
  import opened Operators
  import opened Tokenizer
  import opened Converter
  import opened ConverterProperties
  import opened Evaluator
  import opened ErrorHandling

  /** What `run_single_exp` ends with: the final value, the recorded errors, or an uncaught exception. */
  datatype RunResult = Answer(value: FinalValue) | Reported(errors: seq<Diagnostic>) | Crash

  /** The converter state at the start of a run: only the Missing_Operands flag survives a clear. */
  function FreshConvState(hit: bool): ConvState {
    ConvState([], [], [], hit, [])
  }

  const FreshEvalState: EvalState := EvalState([], false, [])

  /**
   * `run_single_exp` on cleared stages; `hit` is the converter's
   * `_hit_missing_operands_error`, which `clear_converter` leaves as it was.
   * A stage that raises ends the run with `Crash`; a gate that finds errors
   * ends it with every error recorded so far, never with an empty list.
   */
  function RunSingleExpSpec(exp: string, hit: bool, lib: FloatLib): (r: RunResult)
    ensures r.Reported? ==> r.errors != []
    ensures TokenizeCrashes(exp, None) ==> r == Crash
    ensures !TokenizeCrashes(exp, None) && DiagnosticsOf(exp, None) != [] ==> r == Reported(DiagnosticsOf(exp, None))
  {
    if TokenizeCrashes(exp, None) then Crash
    else
      var lexErrors := DiagnosticsOf(exp, None);
      if lexErrors != [] then Reported(lexErrors)
      else AfterLexing(TokensOf(exp, None), hit, lib)
  }

  /** The run once the tokens passed the first gate: convert, gate, evaluate. */
  function AfterLexing(ts: seq<Token>, hit: bool, lib: FloatLib): (r: RunResult)
    ensures r.Reported? ==> r.errors != []
    ensures ConvertCrashes(ts) ==> r == Crash
    ensures !ConvertCrashes(ts) && ConvertSpec(FreshConvState(hit), ts).errors != []
            ==> r == Reported(ConvertSpec(FreshConvState(hit), ts).errors)
  {
    if ConvertCrashes(ts) then Crash
    else
      var cs := ConvertSpec(FreshConvState(hit), ts);
      if cs.errors != [] then Reported(cs.errors)
      else EvalOutcome(EvalSpec(FreshEvalState, cs.output, lib))
  }

  /** The last gate and `get_final`: a crash, the evaluator's errors, or the value on top of the stack. */
  function EvalOutcome(ev: Option<EvalState>): (r: RunResult)
    ensures r.Reported? ==> ev.Some? && r.errors == ev.value.errors != []
    ensures r.Answer? <==> ev.Some? && ev.value.errors == [] && ev.value.stack != []
    ensures r.Answer? ==> r.value == FinalOf(ev.value.stack[|ev.value.stack| - 1])
  {
    match ev
    case None => Crash
    case Some(es) =>
      if es.errors != [] then Reported(es.errors)
      else if es.stack == [] then Crash
      else Answer(FinalOf(es.stack[|es.stack| - 1]))
  }

  class Calculator {
    const handler: ErrorHandler
    const tokenizer: Tokenizer
    const converter: Converter
    const evaluator: Evaluator

    /** The three stages record into this calculator's one error list. */
    ghost predicate Valid()
      reads this, tokenizer, converter, evaluator
    {
      tokenizer.handler == handler && converter.handler == handler && evaluator.handler == handler
    }

    constructor ()
      ensures Valid() && fresh(handler) && fresh(tokenizer) && fresh(converter) && fresh(evaluator)
      ensures handler.errors == [] && !converter.hitMissingOperandsError
    {
      var h := new ErrorHandler();
      handler := h;
      tokenizer := new Tokenizer(h);
      converter := new Converter(h);
      evaluator := new Evaluator(h);
    }

    /** `_clear_values`. */
    method ClearValues()
      requires Valid()
      modifies handler, tokenizer, converter, evaluator
      ensures tokenizer.tokenList == [] && handler.errors == []
      ensures converter.State() == FreshConvState(old(converter.hitMissingOperandsError))
      ensures evaluator.State() == FreshEvalState
    {
      tokenizer.ClearTokenizer();
      handler.ClearErrors();
      converter.ClearConverter();
      evaluator.ClearEvaluator();
    }

    /** `run_single_exp`: clear, then each stage followed by the error gate, then `get_final`. */
    method RunSingleExp(exp: string, lib: FloatLib) returns (r: RunResult)
      requires Valid()
      modifies handler, tokenizer, converter, evaluator
      ensures r == RunSingleExpSpec(exp, old(converter.hitMissingOperandsError), lib)
      ensures !old(converter.hitMissingOperandsError) && !ConvertCrashes(TokensOf(exp, None))
              ==> !converter.hitMissingOperandsError
    {
      ghost var hit := converter.hitMissingOperandsError;
      ClearValues();
      var crashed := tokenizer.TokenizeExpression(exp);
      if crashed {
        return Crash;
      }
      if handler.HasErrors() {
        return Reported(handler.errors);
      }
      assert tokenizer.GetTokens() == TokensOf(exp, None) && DiagnosticsOf(exp, None) == [];
      r := ConvertAndEvaluate(tokenizer.GetTokens(), lib);
    }

    /** The part of `run_single_exp` after the first gate, on cleared converter and evaluator. */
    method ConvertAndEvaluate(ts: seq<Token>, lib: FloatLib) returns (r: RunResult)
      requires Valid() && handler.errors == []
      requires converter.State() == FreshConvState(converter.hitMissingOperandsError)
      requires evaluator.State() == FreshEvalState
      modifies handler, converter, evaluator
      ensures r == AfterLexing(ts, old(converter.hitMissingOperandsError), lib)
      ensures !old(converter.hitMissingOperandsError) && !ConvertCrashes(ts) ==> !converter.hitMissingOperandsError
    {
      ghost var hit := converter.hitMissingOperandsError;
      var convCrashed := converter.Convert(ts);
      if convCrashed {
        return Crash;
      }
      assert !hit ==> !converter.hitMissingOperandsError by {
        if !hit {
          HitFlagClearedByConvert(FreshConvState(hit), ts);
        }
      }
      if handler.HasErrors() {
        return Reported(handler.errors);
      }
      var crashed := evaluator.Eval(converter.GetPostFix(), lib);
      if crashed {
        return Crash;
      }
      if handler.HasErrors() {
        return Reported(handler.errors);
      }
      var f := evaluator.GetFinal();
      if f.None? {
        return Crash;
      }
      r := Answer(f.value);
    }
  }
}
