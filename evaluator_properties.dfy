/**
 * Properties of the evaluator model: what `float()` makes of a number
 * token's text, what each step does to the stack and the error list, that the
 * fatal flag stops the run with exactly one error, and that evaluating the
 * postfix form of an expression tree computes the tree's value.
 */
module EvaluatorProperties {
  import opened Errors
  import opened Operators
  import opened Tokenizer
  import opened TokenizerProperties
  import opened Evaluator

  // ------------------------------------------------------------ float(text)

  lemma {:induction false} DigitsOfNatText(n: nat)
    ensures AllDigits(NatText(n)) && DigitsValue(NatText(n)) == n
  {
    var s := NatText(n);
    if n >= 10 {
      DigitsOfNatText(n / 10);
      assert s[..|s| - 1] == NatText(n / 10);
    } else {
      assert s[..|s| - 1] == [];
    }
  }

  lemma NoDot(s: string)
    requires AllDigits(s)
    ensures CountChar(s, '.') == 0 && DotIndex(s) == |s|
  {
    CountCharZero(s, '.');
  }

  /** `float` of the decimal text of a natural number is that number. */
  lemma ParseNatText(n: nat)
    ensures ParseNumber(NatText(n)) == Some(n as real)
  {
    var s := NatText(n);
    DigitsOfNatText(n);
    NoDot(s);
    assert s[..|s|] == s;
  }

  /** `float(a + "." + b)` for digit strings a, b: a plus b scaled by 10^|b|. */
  lemma ParseDecimal(a: string, b: string)
    requires AllDigits(a) && AllDigits(b) && |a| + |b| >= 1
    ensures ParseNumber(a + "." + b)
            == Some(DigitsValue(a) as real + FractionValue(b))
  {
    DecimalText(a, b);
    ParseAtDot(a + "." + b, a, b);
  }

  /** a + "." + b, for digit strings a and b, is a number text with its one dot at |a|. */
  lemma DecimalText(a: string, b: string)
    requires AllDigits(a) && AllDigits(b) && |a| + |b| >= 1
    ensures var s := a + "." + b;
      && (forall k :: 0 <= k < |s| ==> IsNumberChar(s[k]))
      && CountChar(s, '.') == 1 && |s| >= 2
      && DotIndex(s) == |a| && s[..|a|] == a && s[|a| + 1..] == b
  {
    var s := a + "." + b;
    NoDot(a);
    NoDot(b);
    CountCharSplit(s, |a|, '.');
    assert s[..|a|] == a;
    assert s[|a|..] == "." + b;
    assert ("." + b)[1..] == b;
    assert DotIndex(s) == |a| by {
      DotIndexAt(s, |a|);
    }
    assert s[|a| + 1..] == b;
    forall k | 0 <= k < |s| ensures IsNumberChar(s[k]) {
      if k < |a| { assert s[k] == a[k]; }
      else if k > |a| { assert s[k] == b[k - |a| - 1]; }
    }
  }

  /** A number text whose one dot sits between whole and frac parses to whole plus frac scaled by 10^|frac|. */
  lemma ParseAtDot(text: string, whole: string, frac: string)
    requires forall k :: 0 <= k < |text| ==> IsNumberChar(text[k])
    requires CountChar(text, '.') == 1 && |text| >= 2
    requires |whole| == DotIndex(text) < |text| && whole == text[..|whole|] && frac == text[|whole| + 1..]
    requires AllDigits(whole) && AllDigits(frac)
    ensures ParseNumber(text) == Some(DigitsValue(whole) as real + FractionValue(frac))
  {
    var d := DotIndex(text);
    assert d == |whole|;
    assert text[..d] == whole;
    assert text[d + 1..] == frac;
    assert !(CountChar(text, '.') > 1 || CountChar(text, '.') == |text|);
  }

  lemma {:induction false} DotIndexAt(s: string, d: nat)
    requires d < |s| && s[d] == '.'
    requires forall k :: 0 <= k < d ==> s[k] != '.'
    ensures DotIndex(s) == d
  {
    if d > 0 {
      assert s[1..][d - 1] == s[d];
      DotIndexAt(s[1..], d - 1);
    }
  }

  lemma {:induction false} CountCharBelow(s: string, c: char)
    requires |s| >= 1 && s[0] != c
    ensures CountChar(s, c) < |s|
  {
    CountCharAtMost(s[1..], c);
  }

  lemma {:induction false} CountCharAtMost(s: string, c: char)
    ensures CountChar(s, c) <= |s|
  {
    if s != [] {
      CountCharAtMost(s[1..], c);
    }
  }

  /** Every Number token the tokenizer produces is accepted by `float()`. */
  lemma TokenizedNumberParses(s: string, t: Token)
    requires TokenOk(s, t) && t.kind.NumberTok?
    ensures ParseNumber(t.text).Some?
  {
    assert IsNumberKind(t);
    assert forall k :: 0 <= k < |t.text| ==> IsNumberChar(t.text[k]) by {
      forall k | 0 <= k < |t.text| ensures IsNumberChar(t.text[k]) {
        assert t.text[k] == s[t.start + k];
      }
    }
    CountCharBelow(t.text, '.');
  }

  // ------------------------------------------------------------------ steps

  /**
   * Every Number token the tokenizer builds pushes the value `float()` reads
   * from its text: one more entry, and nothing else changes.
   */
  lemma NumberPushesItsValue(st: EvalState, s: string, t: Token, lib: FloatLib)
    requires !st.fatal && TokenOk(s, t) && t.kind.NumberTok?
    ensures ParseNumber(t.text).Some?
    ensures EvalStep(st, t, lib) == Some(EvalState(st.stack + [ParseNumber(t.text).value], false, st.errors))
    ensures |EvalStep(st, t, lib).value.stack| == |st.stack| + 1
  {
    TokenizedNumberParses(s, t);
  }

  /** A number token whose text is a natural's decimal text pushes that natural. */
  lemma NatNumberPushesItsValue(st: EvalState, t: Token, n: nat, lib: FloatLib)
    requires !st.fatal && t.kind.NumberTok? && t.text == NatText(n)
    ensures EvalStep(st, t, lib) == Some(EvalState(st.stack + [n as real], false, st.errors))
  {
    ParseNatText(n);
  }

  /**
   * A binary operator takes the top as its right operand and the entry below
   * as its left one; on success it replaces both by the result, on failure
   * both are gone, nothing is pushed and one diagnostic is recorded.
   */
  lemma BinaryOperands(st: EvalState, t: Token, rest: seq<real>, a: real, b: real, lib: FloatLib)
    requires !st.fatal && t.kind.OpTok? && !IsUnary(t.kind.op)
    requires st.stack == rest + [a, b]
    ensures var r := BinaryEvaluate(t.kind.op.cls, a, b, lib);
            && (r.Ok? ==> EvalStep(st, t, lib) == Some(EvalState(rest + [r.value], false, st.errors)))
            && (r.Raise? ==> EvalStep(st, t, lib)
                             == Some(EvalState(rest, true, st.errors + [Diagnostic(ClassifyBinary(r.fault), NoPos)])))
  {
    assert st.stack[..|st.stack| - 2] == rest;
  }

  /** `a b -` computes a - b: the operand order is left, then right. */
  lemma MinusOperandOrder(st: EvalState, t: Token, rest: seq<real>, a: real, b: real, lib: FloatLib)
    requires !st.fatal && t.kind.OpTok? && t.kind.op.cls.MinusOp?
    requires st.stack == rest + [a, b]
    ensures EvalStep(st, t, lib) == Some(EvalState(rest + [a - b], false, st.errors))
  {
    BinaryOperands(st, t, rest, a, b, lib);
  }

  /** `a 0 /` records Zero_Div_Error, drops both operands and sets the fatal flag. */
  lemma DivisionByZeroReported(st: EvalState, t: Token, rest: seq<real>, a: real, lib: FloatLib)
    requires !st.fatal && t.kind.OpTok? && t.kind.op.cls.DivisionOp?
    requires st.stack == rest + [a, 0.0]
    ensures EvalStep(st, t, lib) == Some(EvalState(rest, true, st.errors + [Diagnostic(ZeroDivError, NoPos)]))
  {
    BinaryOperands(st, t, rest, a, 0.0, lib);
  }

  /** A unary operator replaces the top by its result, or drops it and records one diagnostic. */
  lemma UnaryOperand(st: EvalState, t: Token, rest: seq<real>, x: real, lib: FloatLib)
    requires !st.fatal && IsUnaryTok(t)
    requires st.stack == rest + [x]
    ensures var r := UnaryEvaluate(t.kind.op.cls, x, lib);
            && (r.Ok? ==> EvalStep(st, t, lib) == Some(EvalState(rest + [r.value], false, st.errors)))
            && (r.Raise? ==> EvalStep(st, t, lib)
                             == Some(EvalState(rest, true, st.errors + [Diagnostic(ClassifyUnary(r.fault), NoPos)])))
  {
    assert st.stack[..|st.stack| - 1] == rest;
  }

  /** `x !` with a negative x records Invalid_Factorial_Error. */
  lemma NegativeFactorialReported(st: EvalState, t: Token, rest: seq<real>, x: real, lib: FloatLib)
    requires !st.fatal && t.kind.OpTok? && t.kind.op.cls.FactorialOp?
    requires st.stack == rest + [x] && x < 0.0
    ensures EvalStep(st, t, lib) == Some(EvalState(rest, true, st.errors + [Diagnostic(InvalidFactorialError, NoPos)]))
  {
    UnaryOperand(st, t, rest, x, lib);
    FactorialProperties(x);
  }

  /** Popping from a too-short stack is an uncaught IndexError. */
  lemma MissingOperandsCrash(st: EvalState, t: Token, lib: FloatLib)
    requires !st.fatal && !t.kind.NumberTok?
    requires |st.stack| < (if IsUnaryTok(t) then 1 else 2)
    ensures EvalStep(st, t, lib).None?
  {
  }

  // ------------------------------------------------------------ fatal flag

  /** Once the fatal flag is set, every further token is skipped and nothing changes. */
  lemma {:induction false} FatalSkipsTheRest(st: EvalState, ts: seq<Token>, n: nat, lib: FloatLib)
    requires st.fatal && n <= |ts|
    ensures EvalUpTo(st, ts, n, lib) == Some(st)
  {
    if n > 0 {
      FatalSkipsTheRest(st, ts, n - 1, lib);
    }
  }

  /** What a run may do to the error list, seen from a non-fatal start. */
  predicate ErrorsSoFar(st: EvalState, r: EvalState) {
    if r.fatal then |r.errors| == |st.errors| + 1 && r.errors[..|st.errors|] == st.errors
    else r.errors == st.errors
  }

  lemma StepErrors(st: EvalState, prev: EvalState, t: Token, lib: FloatLib)
    requires !st.fatal && ErrorsSoFar(st, prev) && EvalStep(prev, t, lib).Some?
    ensures ErrorsSoFar(st, EvalStep(prev, t, lib).value)
  {
    var next := EvalStep(prev, t, lib).value;
    if !prev.fatal && next.fatal {
      assert next.errors == prev.errors + [next.errors[|next.errors| - 1]];
      assert next.errors[..|st.errors|] == st.errors;
    }
  }

  lemma {:induction false} ErrorsUpTo(st: EvalState, ts: seq<Token>, n: nat, lib: FloatLib)
    requires !st.fatal && n <= |ts| && EvalUpTo(st, ts, n, lib).Some?
    ensures ErrorsSoFar(st, EvalUpTo(st, ts, n, lib).value)
  {
    if n > 0 {
      ErrorsUpTo(st, ts, n - 1, lib);
      StepErrors(st, EvalUpTo(st, ts, n - 1, lib).value, ts[n - 1], lib);
    }
  }

  /**
   * One `eval` from a non-fatal state records at most one error: exactly one
   * if it ends fatal and none otherwise, after the errors already present.
   */
  lemma AtMostOneError(st: EvalState, ts: seq<Token>, lib: FloatLib)
    requires !st.fatal && EvalSpec(st, ts, lib).Some?
    ensures var r := EvalSpec(st, ts, lib).value;
            && |st.errors| <= |r.errors| <= |st.errors| + 1
            && r.errors[..|st.errors|] == st.errors
            && (|r.errors| == |st.errors| + 1 <==> r.fatal)
  {
    ErrorsUpTo(st, ts, |ts|, lib);
  }

  // -------------------------------------------------- list concatenation

  function Then(o: Option<EvalState>, ts: seq<Token>, lib: FloatLib): Option<EvalState> {
    match o
    case None => None
    case Some(m) => EvalSpec(m, ts, lib)
  }

  lemma {:induction false} EvalUpToPrefix(st: EvalState, a: seq<Token>, b: seq<Token>, n: nat, lib: FloatLib)
    requires n <= |a|
    ensures EvalUpTo(st, a + b, n, lib) == EvalUpTo(st, a, n, lib)
  {
    if n > 0 {
      EvalUpToPrefix(st, a, b, n - 1, lib);
      assert (a + b)[n - 1] == a[n - 1];
    }
  }

  lemma {:induction false} EvalUpToSuffix(st: EvalState, a: seq<Token>, b: seq<Token>, n: nat, lib: FloatLib)
    requires n <= |b|
    ensures EvalUpTo(st, a + b, |a| + n, lib)
            == (match EvalSpec(st, a, lib)
                case None => None
                case Some(m) => EvalUpTo(m, b, n, lib))
  {
    if n == 0 {
      EvalUpToPrefix(st, a, b, |a|, lib);
    } else {
      EvalUpToSuffix(st, a, b, n - 1, lib);
      assert (a + b)[|a| + n - 1] == b[n - 1];
    }
  }

  /** Evaluating a + b is evaluating a, then b from where a left off. */
  lemma EvalAppend(st: EvalState, a: seq<Token>, b: seq<Token>, lib: FloatLib)
    ensures EvalSpec(st, a + b, lib) == Then(EvalSpec(st, a, lib), b, lib)
  {
    EvalUpToSuffix(st, a, b, |b|, lib);
  }

  // ------------------------------------------------ reference: expression trees

  /** An expression tree over the tokens the evaluator reads. */
  datatype Expr =
    | Lit(t: Token)
    | Unary(op: Token, arg: Expr)
    | Binary(op: Token, left: Expr, right: Expr)

  /** Literals `float()` accepts, unary operators with one argument, binary with two. */
  predicate WellFormed(e: Expr) {
    match e
    case Lit(t) => t.kind.NumberTok? && ParseNumber(t.text).Some?
    case Unary(op, arg) => IsUnaryTok(op) && WellFormed(arg)
    case Binary(op, l, r) => op.kind.OpTok? && !IsUnaryTok(op) && WellFormed(l) && WellFormed(r)
  }

  /** The value of a tree, or the kind of the first error met left to right. */
  datatype Outcome = Value(v: real) | Failure(kind: ErrorKind)

  function Interpret(e: Expr, lib: FloatLib): Outcome
    requires WellFormed(e)
  {
    match e
    case Lit(t) => Value(ParseNumber(t.text).value)
    case Unary(op, arg) =>
      (match Interpret(arg, lib)
       case Failure(k) => Failure(k)
       case Value(x) =>
         match UnaryEvaluate(op.kind.op.cls, x, lib)
         case Ok(v) => Value(v)
         case Raise(f) => Failure(ClassifyUnary(f)))
    case Binary(op, l, r) =>
      (match Interpret(l, lib)
       case Failure(k) => Failure(k)
       case Value(a) =>
         match Interpret(r, lib)
         case Failure(k) => Failure(k)
         case Value(b) =>
           match BinaryEvaluate(op.kind.op.cls, a, b, lib)
           case Ok(v) => Value(v)
           case Raise(f) => Failure(ClassifyBinary(f)))
  }

  /** The postfix token list of a tree: operands first, operator last. */
  function Postfix(e: Expr): seq<Token> {
    match e
    case Lit(t) => [t]
    case Unary(op, arg) => Postfix(arg) + [op]
    case Binary(op, l, r) => Postfix(l) + Postfix(r) + [op]
  }

  /** The result of evaluating a postfix list from st, as Interpret predicts it. */
  predicate Agrees(st: EvalState, o: Outcome, r: Option<EvalState>) {
    match o
    case Value(v) => r == Some(EvalState(st.stack + [v], false, st.errors))
    case Failure(k) => r.Some? && r.value.fatal && r.value.errors == st.errors + [Diagnostic(k, NoPos)]
  }

  lemma SingleStep(st: EvalState, t: Token, lib: FloatLib)
    ensures EvalSpec(st, [t], lib) == EvalStep(st, t, lib)
  {
    assert EvalUpTo(st, [t], 0, lib) == Some(st);
  }

  /**
   * The stack machine computes the tree semantics: from any non-fatal state,
   * the postfix form of a well-formed tree pushes exactly the tree's value, or
   * ends fatal with exactly the diagnostic of the tree's first error. It
   * never crashes on such a list.
   */
  lemma {:induction false} PostfixComputesValue(st: EvalState, e: Expr, lib: FloatLib)
    requires !st.fatal && WellFormed(e)
    ensures Agrees(st, Interpret(e, lib), EvalSpec(st, Postfix(e), lib))
    decreases e
  {
    match e {
      case Lit(t) =>
        SingleStep(st, t, lib);
      case Unary(op, arg) =>
        PostfixComputesValue(st, arg, lib);
        EvalAppend(st, Postfix(arg), [op], lib);
        match Interpret(arg, lib) {
          case Failure(k) =>
            var m := EvalSpec(st, Postfix(arg), lib).value;
            FatalSkipsTheRest(m, [op], 1, lib);
          case Value(x) =>
            var m := EvalState(st.stack + [x], false, st.errors);
            SingleStep(m, op, lib);
            UnaryOperand(m, op, st.stack, x, lib);
        }
      case Binary(op, l, r) =>
        PostfixComputesValue(st, l, lib);
        EvalAppend(st, Postfix(l), Postfix(r) + [op], lib);
        assert Postfix(e) == Postfix(l) + (Postfix(r) + [op]);
        match Interpret(l, lib) {
          case Failure(k) =>
            var m := EvalSpec(st, Postfix(l), lib).value;
            FatalSkipsTheRest(m, Postfix(r) + [op], |Postfix(r) + [op]|, lib);
          case Value(a) =>
            var m := EvalState(st.stack + [a], false, st.errors);
            PostfixComputesValue(m, r, lib);
            EvalAppend(m, Postfix(r), [op], lib);
            match Interpret(r, lib) {
              case Failure(k) =>
                var m2 := EvalSpec(m, Postfix(r), lib).value;
                FatalSkipsTheRest(m2, [op], 1, lib);
              case Value(b) =>
                var m2 := EvalState(m.stack + [b], false, st.errors);
                assert m2.stack == st.stack + [a, b];
                SingleStep(m2, op, lib);
                BinaryOperands(m2, op, st.stack, a, b, lib);
            }
        }
    }
  }

  // ------------------------------------------------------------- get_final

  /** The value `get_final` returns equals the popped float, and is an int exactly when that is integral. */
  lemma FinalOfKeepsValue(x: real)
    ensures AsReal(FinalOf(x)) == x
    ensures FinalOf(x).IntValue? <==> IsIntegral(x)
  {
  }
}
