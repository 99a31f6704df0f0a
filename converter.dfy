/**
 * The infix-to-postfix pass (CalcParts/Converter.py): a shunting-yard loop
 * over the token list with an output list and an operator stack, which on
 * the way checks operator placement and parenthesis use and records the
 * structural diagnostics in the shared error list.
 *
 * Each step of the loop is specified by a function on ConvState; the class
 * methods are proved to move the object exactly as those functions say.
 */
module Converter {
  import opened Errors
  import opened Operators
  import opened Tokenizer
  import opened ErrorHandling

  /** `error_dir`: which neighbour a unary-usage message names. */
  datatype Dir = NoDir | Before | After

  /**
   * The converter's whole state: `_output_lst`, `_op_stack` (top last),
   * `_signed_minus_indexes`, `_hit_missing_operands_error`, and the shared
   * error list.
   */
  datatype ConvState = ConvState(
    output: seq<Token>, stack: seq<Token>, signed: seq<int>, hitMissing: bool, errors: seq<Diagnostic>)

  /** `_unary_sign_token`: "U-" with precedence 7 and no position. */
  const SignToken: Token := Token(OpTok(Operator(UMinusOp, 7.0, '-', Left)), "-", -1, -1)

  // --------------------------------------------------------------- neighbours

  function PrevAt(ts: seq<Token>, i: nat): Option<Token>
    requires i < |ts|
  {
    if i >= 1 then Some(ts[i - 1]) else None
  }

  function NextAt(ts: seq<Token>, i: nat): Option<Token>
    requires i < |ts|
  {
    if i + 1 < |ts| then Some(ts[i + 1]) else None
  }

  /** `_check_prev_token(prev, ("Number", ")"))`. */
  predicate CheckPrevToken(prev: Option<Token>) {
    prev.Some? && (IsNumber(prev.value) || IsClose(prev.value) || IsRightSidedTok(prev.value))
  }

  /** `_check_next_token(next, ("Number", "("))`. */
  predicate CheckNextToken(next: Option<Token>) {
    next.Some? && (IsNumber(next.value) || IsOpen(next.value) || IsLeftSidedTok(next.value))
  }

  // ---------------------------------------------------------------- placement

  /** `_check_left_op`. */
  function CheckLeftOp(ts: seq<Token>, i: nat): (bool, Dir)
    requires i < |ts|
  {
    var next := NextAt(ts, i);
    if next.None? then (false, NoDir)
    else if IsLeftSidedTok(ts[i]) then
      if !(IsUMinus(next.value) || IsNumber(next.value) || IsOpen(next.value)) then (false, Before)
      else if CheckPrevToken(PrevAt(ts, i)) then (false, After)
      else (true, NoDir)
    else (CheckNextToken(next), NoDir)
  }

  /** `_check_right_op`. */
  function CheckRightOp(ts: seq<Token>, i: nat): (bool, Dir)
    requires i < |ts|
  {
    var prev := PrevAt(ts, i);
    if prev.None? then (false, NoDir)
    else if IsRightSidedTok(ts[i]) then
      if !(IsNumber(prev.value) || IsClose(prev.value) || IsRightSidedTok(prev.value)) then (false, After)
      else if CheckNextToken(NextAt(ts, i)) then (false, Before)
      else (true, NoDir)
    else (CheckPrevToken(prev), After)
  }

  /** `_check_mid_op`. */
  function CheckMidOp(ts: seq<Token>, i: nat): (bool, Dir)
    requires i < |ts|
  {
    (CheckRightOp(ts, i).0 && CheckLeftOp(ts, i).0, NoDir)
  }

  /** The check `_check_operator_placement` picks by placement. */
  function PlacementCheckFor(ts: seq<Token>, i: nat, p: Placement): (bool, Dir)
    requires i < |ts|
  {
    match p
    case Left => CheckLeftOp(ts, i)
    case Right => CheckRightOp(ts, i)
    case Mid => CheckMidOp(ts, i)
  }

  /**
   * `_handle_unary_op_errors`: Invalid_Unary_Usage when the token on the
   * operand side exists (`has_after` is then always true, since list entries
   * are never None), Missing_Operand otherwise.
   */
  function UnaryOpError(ts: seq<Token>, i: nat, p: Placement): Diagnostic
    requires i < |ts|
  {
    var hasErrorToken := if p == Left then i + 1 < |ts| else i >= 1;
    if hasErrorToken then Diagnostic(InvalidUnaryUsageError, ts[i].start)
    else Diagnostic(MissingOperandError, ts[i].start)
  }

  /**
   * `_check_operator_placement` for the operator token ts[i]: the diagnostic
   * it records, if any, and the new `_hit_missing_operands_error` flag.
   */
  function PlacementCheck(ts: seq<Token>, i: nat, hit: bool): (Option<Diagnostic>, bool)
    requires i < |ts| && IsOp(ts[i])
  {
    var p := ts[i].kind.op.placement;
    if hit && p == Mid then (None, false)
    else if PlacementCheckFor(ts, i, p).0 then (None, hit)
    else if p == Mid then
      var nextIsMid := i + 1 < |ts| && IsOp(ts[i + 1]) && ts[i + 1].kind.op.placement == Mid;
      (Some(Diagnostic(MissingOperandsError, ts[i].start)), if nextIsMid then true else hit)
    else (Some(UnaryOpError(ts, i, p)), hit)
  }

  function OptionToSeq(d: Option<Diagnostic>): seq<Diagnostic> {
    if d.Some? then [d.value] else []
  }

  function PlacementSpec(st: ConvState, ts: seq<Token>, i: nat): ConvState
    requires i < |ts| && IsOp(ts[i])
  {
    var r := PlacementCheck(ts, i, st.hitMissing);
    st.(errors := st.errors + OptionToSeq(r.0), hitMissing := r.1)
  }

  // ----------------------------------------------------------------- operators

  /** `_check_for_sign_minus`, given `_signed_minus_indexes`. */
  predicate IsSignMinus(ts: seq<Token>, i: nat, signed: seq<int>)
    requires i < |ts|
  {
    IsUMinus(ts[i]) && i >= 1 &&
    ((i - 1) in signed || (!IsOpen(ts[i - 1]) && !IsUMinus(ts[i - 1])))
  }

  /** The precedence of a stacked operator token (a '(' never reaches the comparison). */
  function PrecOf(t: Token): real {
    if t.kind.OpTok? then t.kind.op.precedence else 0.0
  }

  function Top(stack: seq<Token>): Token
    requires stack != []
  {
    stack[|stack| - 1]
  }

  function Pop(stack: seq<Token>): seq<Token>
    requires stack != []
  {
    stack[..|stack| - 1]
  }

  /** Whether the pop loop of `_handle_operator` pops once more. */
  predicate PopsHigher(output: seq<Token>, stack: seq<Token>, prec: real) {
    stack != [] && !IsOpen(Top(stack)) && prec - PrecOf(Top(stack)) <= 0.0 && output != []
  }

  /** The pop loop of `_handle_operator`: (output, stack) once it stops. */
  function PopHigher(output: seq<Token>, stack: seq<Token>, prec: real): (seq<Token>, seq<Token>)
    decreases |stack|
  {
    if PopsHigher(output, stack, prec) then PopHigher(output + [Top(stack)], Pop(stack), prec)
    else (output, stack)
  }

  /** `_handle_operator` for the operator token ts[i]. */
  function OperatorSpec(st: ConvState, ts: seq<Token>, i: nat): ConvState
    requires i < |ts| && IsOp(ts[i])
  {
    if IsSignMinus(ts, i, st.signed) then
      st.(stack := st.stack + [SignToken], signed := st.signed + [i])
    else
      var r := PopHigher(st.output, st.stack, ts[i].kind.op.precedence);
      st.(output := r.0, stack := r.1 + [ts[i]])
  }

  // ------------------------------------------------------------- parentheses

  /** `_check_list_for_paren('(')`. */
  predicate HasOpen(stack: seq<Token>) {
    exists k :: 0 <= k < |stack| && IsOpen(stack[k])
  }

  /**
   * `_check_opening_paren` AS WRITTEN: None where `next_token.get_token_type()`
   * is called on None (the '(' is the last token) and Python raises AttributeError.
   */
  function OpeningParenErrorsAsWritten(prev: Option<Token>, next: Option<Token>, pos: int): Option<seq<Diagnostic>> {
    var before := if prev.Some? && (IsFactorial(prev.value) || IsNumber(prev.value))
      then [Diagnostic(InvalidBeforeOpenParenError, pos)] else [];
    if next.None? then None
    else Some(before + (if IsClose(next.value) then [Diagnostic(InvalidEmptyParenError, next.value.start - 1)] else []))
  }

  /** `_check_opening_paren` with the missing next token guarded: a final '(' has no empty-paren error. */
  function OpeningParenErrors(prev: Option<Token>, next: Option<Token>, pos: int): (ds: seq<Diagnostic>)
    ensures OpeningParenErrorsAsWritten(prev, next, pos).Some? ==> OpeningParenErrorsAsWritten(prev, next, pos).value == ds
  {
    (if prev.Some? && (IsFactorial(prev.value) || IsNumber(prev.value)) then [Diagnostic(InvalidBeforeOpenParenError, pos)] else [])
    + (if next.Some? && IsClose(next.value) then [Diagnostic(InvalidEmptyParenError, next.value.start - 1)] else [])
  }

  /** `_check_closing_paren`. */
  function ClosingParenErrors(next: Option<Token>, pos: int): seq<Diagnostic> {
    if next.Some? && (IsUMinus(next.value) || IsNumber(next.value)) then [Diagnostic(InvalidAfterCloseParenError, pos)] else []
  }

  /** `_check_invalid_paren` for ts[i]: any token whose type is not '(' gets the ')' checks. */
  function InvalidParenErrors(ts: seq<Token>, i: nat): seq<Diagnostic>
    requires i < |ts|
  {
    if IsOpen(ts[i]) then OpeningParenErrors(PrevAt(ts, i), NextAt(ts, i), ts[i].start)
    else ClosingParenErrors(NextAt(ts, i), ts[i].start)
  }

  /** `_check_invalid_paren` for ts[i] AS WRITTEN: None where `_check_opening_paren` raises. */
  function InvalidParenErrorsAsWritten(ts: seq<Token>, i: nat): (r: Option<seq<Diagnostic>>)
    requires i < |ts|
    ensures r.Some? ==> r.value == InvalidParenErrors(ts, i)
    ensures r.None? <==> IsOpen(ts[i]) && i == |ts| - 1
  {
    if IsOpen(ts[i]) then OpeningParenErrorsAsWritten(PrevAt(ts, i), NextAt(ts, i), ts[i].start)
    else Some(ClosingParenErrors(NextAt(ts, i), ts[i].start))
  }

  /** The pop loop of the ')' branch: everything above the nearest '(' goes to the output, then the '(' is dropped. */
  function PopToOpen(output: seq<Token>, stack: seq<Token>): (seq<Token>, seq<Token>)
    requires HasOpen(stack)
    decreases |stack|
  {
    if IsOpen(Top(stack)) then (output, Pop(stack))
    else
      assert HasOpen(Pop(stack)) by {
        var k :| 0 <= k < |stack| && IsOpen(stack[k]);
        assert k < |stack| - 1 && Pop(stack)[k] == stack[k];
      }
      PopToOpen(output + [Top(stack)], Pop(stack))
  }

  /** `_handle_paren` for ts[i] (every token that is neither a number nor an operator). */
  function ParenSpec(st: ConvState, ts: seq<Token>, i: nat): ConvState
    requires i < |ts|
  {
    var errors := st.errors + InvalidParenErrors(ts, i);
    if IsOpen(ts[i]) then st.(errors := errors, stack := st.stack + [ts[i]])
    else if HasOpen(st.stack) then
      var r := PopToOpen(st.output, st.stack);
      st.(errors := errors, output := r.0, stack := r.1)
    else st.(errors := errors + [Diagnostic(MissingOpenParenError, ts[i].start)])
  }

  // ----------------------------------------------------------------- the loop

  /** One pass of the loop in `convert`, for ts[i]. */
  function Step(st: ConvState, ts: seq<Token>, i: nat): ConvState
    requires i < |ts|
  {
    if IsNumber(ts[i]) then st.(output := st.output + [ts[i]])
    else if IsOp(ts[i]) then OperatorSpec(PlacementSpec(st, ts, i), ts, i)
    else ParenSpec(st, ts, i)
  }

  /** The state after the loop has handled ts[..n]. */
  function Run(st: ConvState, ts: seq<Token>, n: nat): ConvState
    requires n <= |ts|
  {
    if n == 0 then st else Step(Run(st, ts, n - 1), ts, n - 1)
  }

  /** Whether the loop pass for ts[i], as written, raises: the '(' branch reaching `_check_opening_paren`'s crash. */
  predicate StepCrashes(ts: seq<Token>, i: nat)
    requires i < |ts|
  {
    !IsNumber(ts[i]) && !IsOp(ts[i]) && InvalidParenErrorsAsWritten(ts, i).None?
  }

  /** Whether `convert`, as written, raises: no pass of its loop stops it early, so any crashing pass is reached. */
  predicate ConvertCrashes(ts: seq<Token>) {
    exists i :: 0 <= i < |ts| && StepCrashes(ts, i)
  }

  /** One Missing_Close_Paren diagnostic per '(' in the stack, bottom to top. */
  function OpenParenErrors(stack: seq<Token>): seq<Diagnostic> {
    if stack == [] then []
    else
      var last := if IsOpen(Top(stack)) then [Diagnostic(MissingCloseParenError, Top(stack).start)] else [];
      OpenParenErrors(Pop(stack)) + last
  }

  function Reverse(s: seq<Token>): seq<Token> {
    if s == [] then [] else [Top(s)] + Reverse(Pop(s))
  }

  /** `_handle_end_input`. */
  function EndInputSpec(st: ConvState): ConvState {
    if HasOpen(st.stack) then st.(errors := st.errors + OpenParenErrors(st.stack))
    else st.(output := st.output + Reverse(st.stack), stack := [])
  }

  /**
   * `convert` up to its final `check_errors` call: the reference definition
   * the `Convert` method is proved against. After the end-of-input step the
   * stack is empty unless a '(' is left on it.
   */
  function ConvertSpec(st: ConvState, ts: seq<Token>): (r: ConvState)
    ensures r.stack == [] || HasOpen(r.stack)
  {
    EndInputSpec(Run(st, ts, |ts|))
  }

  // -------------------------------------------------------------------- class

  class Converter {
    const handler: ErrorHandler
    var outputLst: seq<Token>
    var opStack: seq<Token>
    var signedMinusIndexes: seq<int>
    var hitMissingOperandsError: bool

    constructor (h: ErrorHandler)
      ensures handler == h && outputLst == [] && opStack == [] && signedMinusIndexes == [] && !hitMissingOperandsError
    {
      handler := h;
      outputLst := [];
      opStack := [];
      signedMinusIndexes := [];
      hitMissingOperandsError := false;
    }

    function State(): ConvState
      reads this, handler
    {
      ConvState(outputLst, opStack, signedMinusIndexes, hitMissingOperandsError, handler.errors)
    }

    /** `get_post_fix`. */
    function GetPostFix(): seq<Token>
      reads this
    {
      outputLst
    }

    /** `clear_converter`: the flag `_hit_missing_operands_error` is not reset. */
    method ClearConverter()
      modifies this
      ensures outputLst == [] && opStack == [] && signedMinusIndexes == []
      ensures hitMissingOperandsError == old(hitMissingOperandsError)
    {
      opStack := [];
      outputLst := [];
      signedMinusIndexes := [];
    }

    /**
     * `convert` (the final `check_errors` call is the caller's gate). `crashed`
     * is the AttributeError of the as-written `_check_opening_paren`.
     */
    method Convert(ts: seq<Token>) returns (crashed: bool)
      modifies this, handler
      ensures crashed == ConvertCrashes(ts)
      ensures !crashed ==> State() == ConvertSpec(old(State()), ts)
    {
      ghost var st0 := State();
      var i := 0;
      while i < |ts|
        invariant 0 <= i <= |ts|
        invariant State() == Run(st0, ts, i)
        invariant forall k :: 0 <= k < i ==> !StepCrashes(ts, k)
      {
        var token := ts[i];
        if IsNumber(token) {
          HandleNumber(token);
        } else if IsOp(token) {
          CheckOperatorPlacement(ts, i);
          HandleOperator(ts, i);
        } else {
          crashed := HandleParen(ts, i);
          if crashed {
            assert StepCrashes(ts, i);
            return;
          }
        }
        i := i + 1;
      }
      HandleEndInput();
      crashed := false;
    }

    /** `_handle_number`. */
    method HandleNumber(t: Token)
      modifies this
      ensures State() == old(State()).(output := old(outputLst) + [t])
    {
      outputLst := outputLst + [t];
    }

    /** `_check_operator_placement`. */
    method CheckOperatorPlacement(ts: seq<Token>, i: nat)
      requires i < |ts| && IsOp(ts[i])
      modifies this, handler
      ensures State() == PlacementSpec(old(State()), ts, i)
    {
      var placement := ts[i].kind.op.placement;
      if hitMissingOperandsError && placement == Mid {
        hitMissingOperandsError := false;
        return;
      }
      var check := PlacementCheckFor(ts, i, placement);
      if !check.0 {
        if placement == Mid {
          handler.AddError(Diagnostic(MissingOperandsError, ts[i].start));
          if i + 1 < |ts| && IsOp(ts[i + 1]) && ts[i + 1].kind.op.placement == Mid {
            hitMissingOperandsError := true;
          }
        } else {
          HandleUnaryOpErrors(ts, i, placement);
        }
      }
    }

    /** `_handle_unary_op_errors` (its direction argument only shapes the message). */
    method HandleUnaryOpErrors(ts: seq<Token>, i: nat, placement: Placement)
      requires i < |ts|
      modifies handler
      ensures handler.errors == old(handler.errors) + [UnaryOpError(ts, i, placement)]
    {
      var hasErrorToken := if placement == Left then i + 1 < |ts| else i >= 1;
      if hasErrorToken {
        handler.AddError(Diagnostic(InvalidUnaryUsageError, ts[i].start));
      } else {
        handler.AddError(Diagnostic(MissingOperandError, ts[i].start));
      }
    }

    /** `_check_for_sign_minus`: records i when the "U-" at i is a sign minus. */
    method CheckForSignMinus(ts: seq<Token>, i: nat) returns (b: bool)
      requires i < |ts|
      modifies this
      ensures b == IsSignMinus(ts, i, old(signedMinusIndexes))
      ensures signedMinusIndexes == if b then old(signedMinusIndexes) + [i] else old(signedMinusIndexes)
      ensures outputLst == old(outputLst) && opStack == old(opStack)
      ensures hitMissingOperandsError == old(hitMissingOperandsError)
    {
      if !IsUMinus(ts[i]) {
        return false;
      }
      if i != 0 && (i - 1) in signedMinusIndexes {
        signedMinusIndexes := signedMinusIndexes + [i];
        return true;
      }
      if i == 0 || IsOpen(ts[i - 1]) || IsUMinus(ts[i - 1]) {
        return false;
      }
      signedMinusIndexes := signedMinusIndexes + [i];
      return true;
    }

    /** `_handle_operator`. */
    method HandleOperator(ts: seq<Token>, i: nat)
      requires i < |ts| && IsOp(ts[i])
      modifies this
      ensures State() == OperatorSpec(old(State()), ts, i)
    {
      var sign := CheckForSignMinus(ts, i);
      if sign {
        opStack := opStack + [SignToken];
      } else {
        var prec := ts[i].kind.op.precedence;
        while opStack != [] && !IsOpen(Top(opStack)) && prec - PrecOf(Top(opStack)) <= 0.0 && outputLst != []
          invariant PopHigher(outputLst, opStack, prec) == PopHigher(old(outputLst), old(opStack), prec)
          invariant signedMinusIndexes == old(signedMinusIndexes) && hitMissingOperandsError == old(hitMissingOperandsError)
          decreases |opStack|
        {
          outputLst := outputLst + [Top(opStack)];
          opStack := Pop(opStack);
        }
        assert PopHigher(outputLst, opStack, prec) == (outputLst, opStack);
        opStack := opStack + [ts[i]];
      }
    }

    /** `_check_list_for_paren('(')`. */
    method CheckListForParen() returns (found: bool)
      ensures found == HasOpen(opStack)
    {
      var k := 0;
      while k < |opStack|
        invariant 0 <= k <= |opStack|
        invariant forall j :: 0 <= j < k ==> !IsOpen(opStack[j])
      {
        if IsOpen(opStack[k]) {
          return true;
        }
        k := k + 1;
      }
      return false;
    }

    /** `_check_invalid_paren`; `crashed` where `_check_opening_paren` dereferences a missing next token. */
    method CheckInvalidParen(ts: seq<Token>, i: nat) returns (crashed: bool)
      requires i < |ts|
      modifies handler
      ensures crashed == InvalidParenErrorsAsWritten(ts, i).None?
      ensures !crashed ==> handler.errors == old(handler.errors) + InvalidParenErrors(ts, i)
    {
      var pos := ts[i].start;
      var prev := PrevAt(ts, i);
      var next := NextAt(ts, i);
      crashed := false;
      if IsOpen(ts[i]) {
        if prev.Some? && (IsFactorial(prev.value) || IsNumber(prev.value)) {
          handler.AddError(Diagnostic(InvalidBeforeOpenParenError, pos));
        }
        if next.None? {
          crashed := true;
          return;
        }
        if IsClose(next.value) {
          handler.AddError(Diagnostic(InvalidEmptyParenError, next.value.start - 1));
        }
      } else if next.Some? && (IsUMinus(next.value) || IsNumber(next.value)) {
        handler.AddError(Diagnostic(InvalidAfterCloseParenError, pos));
      }
    }

    /** `_handle_paren`; `crashed` where its adjacency check raises. */
    method HandleParen(ts: seq<Token>, i: nat) returns (crashed: bool)
      requires i < |ts|
      modifies this, handler
      ensures crashed == InvalidParenErrorsAsWritten(ts, i).None?
      ensures !crashed ==> State() == ParenSpec(old(State()), ts, i)
    {
      crashed := CheckInvalidParen(ts, i);
      if crashed {
        return;
      }
      if IsOpen(ts[i]) {
        opStack := opStack + [ts[i]];
      } else {
        var found := CheckListForParen();
        if found {
          while !IsOpen(Top(opStack))
            invariant HasOpen(opStack)
            invariant PopToOpen(outputLst, opStack) == PopToOpen(old(outputLst), old(opStack))
            invariant signedMinusIndexes == old(signedMinusIndexes) && hitMissingOperandsError == old(hitMissingOperandsError)
            invariant handler.errors == old(handler.errors) + InvalidParenErrors(ts, i)
            decreases |opStack|
          {
            assert HasOpen(Pop(opStack)) by {
              var k :| 0 <= k < |opStack| && IsOpen(opStack[k]);
              assert k < |opStack| - 1 && Pop(opStack)[k] == opStack[k];
            }
            outputLst := outputLst + [Top(opStack)];
            opStack := Pop(opStack);
          }
          assert PopToOpen(outputLst, opStack) == (outputLst, Pop(opStack));
          opStack := Pop(opStack);
        } else {
          handler.AddError(Diagnostic(MissingOpenParenError, ts[i].start));
        }
      }
    }

    /** `_handle_end_input`. */
    method HandleEndInput()
      modifies this, handler
      ensures State() == EndInputSpec(old(State()))
    {
      var found := CheckListForParen();
      if found {
        var k := 0;
        while k < |opStack|
          invariant 0 <= k <= |opStack|
          invariant handler.errors == old(handler.errors) + OpenParenErrors(opStack[..k])
          invariant unchanged(this)
        {
          assert Pop(opStack[..k + 1]) == opStack[..k];
          if IsOpen(opStack[k]) {
            handler.AddError(Diagnostic(MissingCloseParenError, opStack[k].start));
          }
          k := k + 1;
        }
        assert opStack[..k] == opStack;
      } else {
        while opStack != []
          invariant outputLst + Reverse(opStack) == old(outputLst) + Reverse(old(opStack))
          invariant signedMinusIndexes == old(signedMinusIndexes) && hitMissingOperandsError == old(hitMissingOperandsError)
          invariant handler.errors == old(handler.errors)
          decreases |opStack|
        {
          outputLst := outputLst + [Top(opStack)];
          opStack := Pop(opStack);
        }
        assert Reverse(opStack) == [];
      }
    }
  }
}
