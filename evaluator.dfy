/**
 * The postfix stack machine (Evaluator.py). Each token is one step of a fold
 * over EvalState; a step that raises an uncaught Python exception (a pop from
 * an empty stack, `float()` of a text it rejects) is `None`. The first caught
 * operator exception records one diagnostic and sets the fatal flag, after
 * which every remaining token is skipped.
 */
module Evaluator {
  import opened Errors
  import opened Operators
  import opened Tokenizer
  import opened ErrorHandling

  // ------------------------------------------------------------ float(text)

  predicate AllDigits(s: string) {
    forall k :: 0 <= k < |s| ==> IsDigit(s[k])
  }

  function DigitValue(c: char): nat
    requires IsDigit(c)
  {
    c as int - '0' as int
  }

  /** The natural number a digit string denotes, most significant digit first. */
  function DigitsValue(s: string): nat
    requires AllDigits(s)
  {
    if s == [] then 0 else DigitsValue(s[..|s| - 1]) * 10 + DigitValue(s[|s| - 1])
  }

  function Pow10(n: nat): (p: nat)
    ensures p >= 1
  {
    if n == 0 then 1 else 10 * Pow10(n - 1)
  }

  /** The value of the digits after a dot: their number scaled down by 10^(their count). */
  function FractionValue(frac: string): (r: real)
    requires AllDigits(frac)
    ensures r >= 0.0
  {
    DigitsValue(frac) as real / Pow10(|frac|) as real
  }

  /** The index of the first '.', or |s| when there is none. */
  function DotIndex(s: string): (d: nat)
    ensures d <= |s|
    ensures d < |s| ==> s[d] == '.'
    ensures forall k :: 0 <= k < d ==> s[k] != '.'
  {
    if s == [] then 0 else if s[0] == '.' then 0 else 1 + DotIndex(s[1..])
  }

  /**
   * `float(text)` on texts of digits and '.': it succeeds when there is at
   * least one digit and at most one '.', with the value the decimal text
   * denotes; on every other text of this alphabet it raises ValueError (None).
   */
  function ParseNumber(text: string): (r: Option<real>)
    ensures r.Some? ==> r.value >= 0.0
    ensures r.Some? <==> (forall k :: 0 <= k < |text| ==> IsNumberChar(text[k]))
                         && CountChar(text, '.') <= 1 && CountChar(text, '.') < |text|
  {
    if !(forall k :: 0 <= k < |text| ==> IsNumberChar(text[k])) then None
    else if CountChar(text, '.') > 1 || CountChar(text, '.') == |text| then None
    else
      var d := DotIndex(text);
      var whole := text[..d];
      var frac := if d < |text| then text[d + 1..] else [];
      DotsOutside(text, d);
      Some(DigitsValue(whole) as real + FractionValue(frac))
  }

  lemma {:induction false} CountCharSplit(s: string, d: nat, c: char)
    requires d <= |s|
    ensures CountChar(s, c) == CountChar(s[..d], c) + CountChar(s[d..], c)
  {
    if d > 0 {
      assert s[..d][0] == s[0];
      assert s[..d][1..] == s[1..][..d - 1];
      CountCharSplit(s[1..], d - 1, c);
      assert s[1..][d - 1..] == s[d..];
    } else {
      assert s[..0] == [];
      assert s[0..] == s;
    }
  }

  lemma {:induction false} CountCharZero(s: string, c: char)
    ensures CountChar(s, c) == 0 <==> forall k :: 0 <= k < |s| ==> s[k] != c
  {
    if s != [] {
      CountCharZero(s[1..], c);
      if CountChar(s, c) == 0 {
        forall k | 0 <= k < |s| ensures s[k] != c {
          if k > 0 { assert s[k] == s[1..][k - 1]; }
        }
      } else if s[0] != c {
        var k :| 0 <= k < |s[1..]| && s[1..][k] == c;
        assert s[k + 1] == c;
      }
    }
  }

  /**
   * With at most one '.', the text on either side of the first '.' is made of
   * digits, given an alphabet of digits and '.'.
   */
  lemma DotsOutside(s: string, d: nat)
    requires forall k :: 0 <= k < |s| ==> IsNumberChar(s[k])
    requires CountChar(s, '.') <= 1
    requires d == DotIndex(s)
    ensures AllDigits(s[..d])
    ensures d < |s| ==> AllDigits(s[d + 1..])
  {
    assert forall k :: 0 <= k < d ==> s[..d][k] == s[k];
    if d < |s| {
      CountCharSplit(s, d, '.');
      assert s[d..][1..] == s[d + 1..];
      assert CountChar(s[d..], '.') == 1 + CountChar(s[d + 1..], '.');
      CountCharZero(s[d + 1..], '.');
      var tail := s[d + 1..];
      assert forall k :: 0 <= k < |tail| ==> tail[k] == s[d + 1 + k];
    }
  }

  // ------------------------------------------------------ exceptions to kinds

  /** The except clauses around `unary_evaluate` (Evaluator.py:70-80). */
  function ClassifyUnary(f: Fault): (k: ErrorKind)
    ensures f.InvalidFactorial? <==> k == InvalidFactorialError
    ensures f.LargeNumber? <==> k == LargeNumberError
    ensures f.InvalidHash? <==> k == InvalidHashError
    ensures f.SmallNumber? <==> k == SmallNumberError
    ensures !(f.InvalidFactorial? || f.LargeNumber? || f.InvalidHash? || f.SmallNumber?) <==> k == SafeGuardError
  {
    match f
    case InvalidFactorial => InvalidFactorialError
    case LargeNumber => LargeNumberError
    case InvalidHash => InvalidHashError
    case SmallNumber => SmallNumberError
    case _ => SafeGuardError
  }

  /** The except clauses around `binary_evaluate` (Evaluator.py:88-96). */
  function ClassifyBinary(f: Fault): (k: ErrorKind)
    ensures f.ZeroDivision? <==> k == ZeroDivError
    ensures f.InvalidPower? <==> k == ZeroPowError
    ensures f.PowerOverflow? <==> k == ErrorKind.PowOverflowError
    ensures !(f.ZeroDivision? || f.InvalidPower? || f.PowerOverflow?) <==> k == SafeGuardError
  {
    match f
    case ZeroDivision => ZeroDivError
    case InvalidPower => ZeroPowError
    case PowerOverflow => ErrorKind.PowOverflowError
    case _ => SafeGuardError
  }

  // ------------------------------------------------------------------ steps

  /** `_calculation_stack`, `_encountered_fatal_error` and the error list. */
  datatype EvalState = EvalState(stack: seq<real>, fatal: bool, errors: seq<Diagnostic>)

  /** `isinstance(token_class, IUnaryOperator)`. */
  predicate IsUnaryTok(t: Token) {
    t.kind.OpTok? && IsUnary(t.kind.op)
  }

  /** `_set_error`: one diagnostic (its message prints no position) and the fatal flag. */
  function SetErrorSpec(st: EvalState, stack: seq<real>, k: ErrorKind): EvalState {
    EvalState(stack, true, st.errors + [Diagnostic(k, NoPos)])
  }

  /** `_handle_number_token`: push `float(value)`. */
  function NumberStep(st: EvalState, t: Token): Option<EvalState> {
    match ParseNumber(t.text)
    case None => None
    case Some(v) => Some(st.(stack := st.stack + [v]))
  }

  /** `_handle_operator_token`, unary branch: pop one value, push the result or set the error. */
  function UnaryStep(st: EvalState, t: Token, lib: FloatLib): Option<EvalState>
    requires IsUnaryTok(t)
  {
    if |st.stack| == 0 then None
    else
      var x := st.stack[|st.stack| - 1];
      var rest := st.stack[..|st.stack| - 1];
      match UnaryEvaluate(t.kind.op.cls, x, lib)
      case Ok(v) => Some(st.(stack := rest + [v]))
      case Raise(f) => Some(SetErrorSpec(st, rest, ClassifyUnary(f)))
  }

  /**
   * `_handle_operator_token`, binary branch: pop the right operand, then the
   * left one, push `f(left, right)` or set the error. A token that is no
   * operator at all has no `binary_evaluate` (an AttributeError, caught).
   */
  function BinaryStep(st: EvalState, t: Token, lib: FloatLib): Option<EvalState>
    requires !IsUnaryTok(t)
  {
    if |st.stack| < 2 then None
    else
      var b := st.stack[|st.stack| - 1];
      var a := st.stack[|st.stack| - 2];
      var rest := st.stack[..|st.stack| - 2];
      var r := if t.kind.OpTok? then BinaryEvaluate(t.kind.op.cls, a, b, lib) else Raise(OtherException);
      match r
      case Ok(v) => Some(st.(stack := rest + [v]))
      case Raise(f) => Some(SetErrorSpec(st, rest, ClassifyBinary(f)))
  }

  /** One iteration of the loop in `eval`: nothing happens once the fatal flag is set. */
  function EvalStep(st: EvalState, t: Token, lib: FloatLib): Option<EvalState> {
    if st.fatal then Some(st)
    else if t.kind.NumberTok? then NumberStep(st, t)
    else if IsUnaryTok(t) then UnaryStep(st, t, lib)
    else BinaryStep(st, t, lib)
  }

  /** The state after the first n tokens, or None once one of them crashed. */
  function EvalUpTo(st: EvalState, ts: seq<Token>, n: nat, lib: FloatLib): Option<EvalState>
    requires n <= |ts|
  {
    if n == 0 then Some(st)
    else
      match EvalUpTo(st, ts, n - 1, lib)
      case None => None
      case Some(prev) => EvalStep(prev, ts[n - 1], lib)
  }

  /** `eval` over the whole postfix list (the final `check_errors` call is the caller's gate). */
  function EvalSpec(st: EvalState, ts: seq<Token>, lib: FloatLib): Option<EvalState> {
    EvalUpTo(st, ts, |ts|, lib)
  }

  /** The value `get_final` returns: an int when the float is integral. */
  datatype FinalValue = IntValue(i: int) | FloatValue(f: real)

  function FinalOf(x: real): FinalValue {
    if IsIntegral(x) then IntValue(x.Floor) else FloatValue(x)
  }

  function AsReal(v: FinalValue): real {
    match v
    case IntValue(i) => i as real
    case FloatValue(f) => f
  }

  // -------------------------------------------------------------------- class

  class Evaluator {
    const handler: ErrorHandler
    var calculationStack: seq<real>
    var encounteredFatalError: bool

    constructor (h: ErrorHandler)
      ensures handler == h && calculationStack == [] && !encounteredFatalError
    {
      handler := h;
      calculationStack := [];
      encounteredFatalError := false;
    }

    function State(): EvalState
      reads this, handler
    {
      EvalState(calculationStack, encounteredFatalError, handler.errors)
    }

    /**
     * `eval`: runs every token through the step function; `crashed` is true
     * when a step raised an uncaught exception (the run stops there).
     */
    method Eval(ts: seq<Token>, lib: FloatLib) returns (crashed: bool)
      modifies this, handler
      ensures crashed <==> EvalSpec(old(State()), ts, lib).None?
      ensures !crashed ==> State() == EvalSpec(old(State()), ts, lib).value
    {
      ghost var st0 := State();
      var i := 0;
      while i < |ts|
        invariant 0 <= i <= |ts|
        invariant EvalUpTo(st0, ts, i, lib) == Some(State())
      {
        var token := ts[i];
        if !encounteredFatalError {
          if token.kind.NumberTok? {
            crashed := HandleNumberToken(token);
          } else {
            crashed := HandleOperatorToken(token, lib);
          }
          if crashed {
            EvalUpToNone(st0, ts, i + 1, lib);
            return;
          }
        }
        i := i + 1;
      }
      crashed := false;
    }

    /** `_handle_number_token`. */
    method HandleNumberToken(t: Token) returns (crashed: bool)
      requires !encounteredFatalError && t.kind.NumberTok?
      modifies this
      ensures crashed <==> NumberStep(old(State()), t).None?
      ensures !crashed ==> State() == NumberStep(old(State()), t).value
    {
      var v := ParseNumber(t.text);
      if v.None? {
        return true;
      }
      calculationStack := calculationStack + [v.value];
      crashed := false;
    }

    /** `_set_error`. */
    method SetError(k: ErrorKind)
      modifies this, handler
      ensures State() == SetErrorSpec(old(State()), calculationStack, k)
      ensures calculationStack == old(calculationStack)
    {
      handler.AddError(Diagnostic(k, NoPos));
      encounteredFatalError := true;
    }

    /** `_handle_operator_token`. */
    method HandleOperatorToken(t: Token, lib: FloatLib) returns (crashed: bool)
      requires !encounteredFatalError && !t.kind.NumberTok?
      modifies this, handler
      ensures crashed <==> EvalStep(old(State()), t, lib).None?
      ensures !crashed ==> State() == EvalStep(old(State()), t, lib).value
    {
      if IsUnaryTok(t) {
        if |calculationStack| == 0 {
          return true;
        }
        var numVal := calculationStack[|calculationStack| - 1];
        calculationStack := calculationStack[..|calculationStack| - 1];
        var r := UnaryEvaluateMethod(t.kind.op.cls, numVal, lib);
        match r
        case Ok(v) =>
          calculationStack := calculationStack + [v];
        case Raise(f) =>
          SetError(ClassifyUnary(f));
      } else {
        if |calculationStack| < 2 {
          return true;
        }
        var secondOperand := calculationStack[|calculationStack| - 1];
        var firstOperand := calculationStack[|calculationStack| - 2];
        calculationStack := calculationStack[..|calculationStack| - 2];
        var r := if t.kind.OpTok? then BinaryEvaluate(t.kind.op.cls, firstOperand, secondOperand, lib)
                 else Raise(OtherException);
        match r
        case Ok(v) =>
          calculationStack := calculationStack + [v];
        case Raise(f) =>
          SetError(ClassifyBinary(f));
      }
      crashed := false;
    }

    /**
     * `get_final`: pops the top value and converts it to an int when it is
     * integral; None where the pop raises IndexError on an empty stack.
     */
    method GetFinal() returns (r: Option<FinalValue>)
      modifies this
      ensures r.None? <==> old(calculationStack) == []
      ensures r.Some? ==> calculationStack == old(calculationStack)[..|old(calculationStack)| - 1]
                          && r.value == FinalOf(old(calculationStack)[|old(calculationStack)| - 1])
      ensures r.None? ==> calculationStack == old(calculationStack)
      ensures encounteredFatalError == old(encounteredFatalError)
    {
      if |calculationStack| == 0 {
        return None;
      }
      var finalValue := calculationStack[|calculationStack| - 1];
      calculationStack := calculationStack[..|calculationStack| - 1];
      if IsIntegral(finalValue) {
        r := Some(IntValue(finalValue.Floor));
      } else {
        r := Some(FloatValue(finalValue));
      }
    }

    /** `clear_evaluator`. */
    method ClearEvaluator()
      modifies this
      ensures calculationStack == [] && !encounteredFatalError
    {
      calculationStack := [];
      encounteredFatalError := false;
    }
  }

  /** Once a prefix crashed, every longer prefix is a crash too. */
  lemma {:induction false} EvalUpToNone(st: EvalState, ts: seq<Token>, n: nat, lib: FloatLib)
    requires n <= |ts| && EvalUpTo(st, ts, n, lib).None?
    ensures EvalSpec(st, ts, lib).None?
    decreases |ts| - n
  {
    if n < |ts| {
      EvalUpToNone(st, ts, n + 1, lib);
    }
  }
}
