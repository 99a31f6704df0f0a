/** What the conversion pass of CalcParts/Converter.py guarantees. */
module ConverterProperties {
  import opened Errors
  import opened Operators
  import opened Tokenizer
  import opened Converter

  /** The operator tokens the tokenizer builds carry the table's descriptor for their class. */
  predicate TableOp(t: Token) {
    t.kind.OpTok? && t.kind.op == OperatorData(t.kind.op.cls)
  }

  // ------------------------------------------------------------ stack shapes

  /** The operator stack only ever holds operator tokens and '(' tokens. */
  ghost predicate StackOk(stack: seq<Token>) {
    forall k :: 0 <= k < |stack| ==> IsOp(stack[k]) || IsOpen(stack[k])
  }

  /** The postfix output holds only number and operator tokens: never a parenthesis. */
  ghost predicate OutputOk(output: seq<Token>) {
    forall k :: 0 <= k < |output| ==> IsNumber(output[k]) || IsOp(output[k])
  }

  lemma {:induction false} ReverseElements(s: seq<Token>)
    ensures |Reverse(s)| == |s|
    ensures forall k :: 0 <= k < |s| ==> Reverse(s)[k] == s[|s| - 1 - k]
  {
    if s != [] {
      ReverseElements(Pop(s));
      forall k | 0 <= k < |s| ensures Reverse(s)[k] == s[|s| - 1 - k] {
        if k > 0 { assert Reverse(s)[k] == Reverse(Pop(s))[k - 1]; }
      }
    }
  }

  lemma ReverseOfSuffix(s: seq<Token>, j: nat)
    requires j < |s|
    ensures Reverse(s[j..]) == [Top(s)] + Reverse(Pop(s)[j..])
  {
    assert s[j..] != [] && Top(s[j..]) == Top(s) && Pop(s[j..]) == Pop(s)[j..];
  }

  /**
   * The pop loop of `_handle_operator`: it removes a top segment of the stack
   * and appends it to the output top first; every removed token is an
   * operator-or-other token that is not '(' and whose precedence is at least
   * `prec`; and it stops at the first token where popping is not allowed or
   * when the output is (still) empty.
   */
  lemma {:induction false} PopHigherShape(output: seq<Token>, stack: seq<Token>, prec: real)
    ensures var r := PopHigher(output, stack, prec);
      && |r.1| <= |stack| && r.1 == stack[..|r.1|]
      && r.0 == output + Reverse(stack[|r.1|..])
      && (forall k :: |r.1| <= k < |stack| ==> !IsOpen(stack[k]) && PrecOf(stack[k]) >= prec)
      && !PopsHigher(r.0, r.1, prec)
    decreases |stack|
  {
    if PopsHigher(output, stack, prec) {
      PopHigherShape(output + [Top(stack)], Pop(stack), prec);
      var r := PopHigher(output, stack, prec);
      assert r == PopHigher(output + [Top(stack)], Pop(stack), prec);
      ReverseOfSuffix(stack, |r.1|);
      assert Pop(stack)[..|r.1|] == stack[..|r.1|];
      forall k | |r.1| <= k < |stack| ensures !IsOpen(stack[k]) && PrecOf(stack[k]) >= prec {
        if k < |stack| - 1 { assert stack[k] == Pop(stack)[k]; }
      }
    } else {
      assert stack[|stack|..] == [];
    }
  }

  /**
   * The ')' branch of `_handle_paren`: the stack is cut at its topmost '(',
   * the tokens above it go to the output top first, and the '(' is dropped.
   */
  lemma {:induction false} PopToOpenShape(output: seq<Token>, stack: seq<Token>)
    requires HasOpen(stack)
    ensures var r := PopToOpen(output, stack); var j := |r.1|;
      && j < |stack| && IsOpen(stack[j]) && r.1 == stack[..j]
      && (forall k :: j < k < |stack| ==> !IsOpen(stack[k]))
      && r.0 == output + Reverse(stack[j + 1..])
    decreases |stack|
  {
    if IsOpen(Top(stack)) {
      assert stack[|stack|..] == [];
    } else {
      assert HasOpen(Pop(stack)) by {
        var k :| 0 <= k < |stack| && IsOpen(stack[k]);
        assert k < |stack| - 1 && Pop(stack)[k] == stack[k];
      }
      PopToOpenShape(output + [Top(stack)], Pop(stack));
      PopToOpenShapeStep(output, stack, PopToOpen(output + [Top(stack)], Pop(stack)));
    }
  }

  /** The shape of PopToOpenShape carries over from the popped stack to the whole one when its top is not '('. */
  lemma PopToOpenShapeStep(output: seq<Token>, stack: seq<Token>, r: (seq<Token>, seq<Token>))
    requires stack != [] && !IsOpen(Top(stack))
    requires var j := |r.1|; var p := Pop(stack);
      && j < |p| && IsOpen(p[j]) && r.1 == p[..j]
      && (forall k :: j < k < |p| ==> !IsOpen(p[k]))
      && r.0 == (output + [Top(stack)]) + Reverse(p[j + 1..])
    ensures var j := |r.1|;
      && j < |stack| && IsOpen(stack[j]) && r.1 == stack[..j]
      && (forall k :: j < k < |stack| ==> !IsOpen(stack[k]))
      && r.0 == output + Reverse(stack[j + 1..])
  {
    var j := |r.1|;
    var p := Pop(stack);
    assert stack[j] == p[j];
    assert p[..j] == stack[..j];
    ReverseOfSuffix(stack, j + 1);
    assert (output + [Top(stack)]) + Reverse(p[j + 1..]) == output + ([Top(stack)] + Reverse(p[j + 1..]));
    forall k | j < k < |stack| ensures !IsOpen(stack[k]) {
      if k < |stack| - 1 { assert stack[k] == p[k]; }
    }
  }

  lemma StackOkPrefix(stack: seq<Token>, j: nat)
    requires StackOk(stack) && j <= |stack|
    ensures StackOk(stack[..j])
  {
  }

  lemma OutputOkAppendStack(output: seq<Token>, stack: seq<Token>, j: nat)
    requires OutputOk(output) && StackOk(stack) && j <= |stack|
    requires forall k :: j <= k < |stack| ==> !IsOpen(stack[k])
    ensures OutputOk(output + Reverse(stack[j..]))
  {
    ReverseElements(stack[j..]);
    var out := output + Reverse(stack[j..]);
    forall k | 0 <= k < |out| ensures IsNumber(out[k]) || IsOp(out[k]) {
      if k >= |output| {
        assert out[k] == Reverse(stack[j..])[k - |output|];
      }
    }
  }

  /** One loop pass keeps both shapes. */
  lemma StepKeepsShapes(st: ConvState, ts: seq<Token>, i: nat)
    requires i < |ts| && StackOk(st.stack) && OutputOk(st.output)
    ensures StackOk(Step(st, ts, i).stack) && OutputOk(Step(st, ts, i).output)
  {
    if IsNumber(ts[i]) {
    } else if IsOp(ts[i]) {
      var st1 := PlacementSpec(st, ts, i);
      if !IsSignMinus(ts, i, st1.signed) {
        var prec := ts[i].kind.op.precedence;
        PopHigherShape(st1.output, st1.stack, prec);
        var r := PopHigher(st1.output, st1.stack, prec);
        StackOkPrefix(st1.stack, |r.1|);
        OutputOkAppendStack(st1.output, st1.stack, |r.1|);
      }
    } else if !IsOpen(ts[i]) && HasOpen(st.stack) {
      PopToOpenShape(st.output, st.stack);
      var r := PopToOpen(st.output, st.stack);
      StackOkPrefix(st.stack, |r.1|);
      OutputOkAppendStack(st.output, st.stack, |r.1| + 1);
    }
  }

  lemma {:induction false} RunKeepsShapes(st: ConvState, ts: seq<Token>, n: nat)
    requires n <= |ts| && StackOk(st.stack) && OutputOk(st.output)
    ensures StackOk(Run(st, ts, n).stack) && OutputOk(Run(st, ts, n).output)
  {
    if n > 0 {
      RunKeepsShapes(st, ts, n - 1);
      StepKeepsShapes(Run(st, ts, n - 1), ts, n - 1);
    }
  }

  /**
   * Through a whole `convert`, the stack holds only operators and '(' and
   * the postfix output never contains a parenthesis.
   */
  lemma ConvertKeepsShapes(st: ConvState, ts: seq<Token>)
    requires StackOk(st.stack) && OutputOk(st.output)
    ensures StackOk(ConvertSpec(st, ts).stack) && OutputOk(ConvertSpec(st, ts).output)
  {
    RunKeepsShapes(st, ts, |ts|);
    var s := Run(st, ts, |ts|);
    if !HasOpen(s.stack) {
      assert s.stack[0..] == s.stack;
      OutputOkAppendStack(s.output, s.stack, 0);
    }
  }

  // --------------------------------------------------------- numbers in order

  /** The number tokens of a sequence, in order. */
  function NumbersOf(s: seq<Token>): seq<Token> {
    if s == [] then [] else (if IsNumber(s[0]) then [s[0]] else []) + NumbersOf(s[1..])
  }

  lemma {:induction false} NumbersOfAppend(a: seq<Token>, b: seq<Token>)
    ensures NumbersOf(a + b) == NumbersOf(a) + NumbersOf(b)
  {
    if a == [] {
      assert a + b == b;
    } else {
      var head := if IsNumber(a[0]) then [a[0]] else [];
      assert (a + b)[0] == a[0] && (a + b)[1..] == a[1..] + b;
      calc {
        NumbersOf(a + b);
        head + NumbersOf(a[1..] + b);
        { NumbersOfAppend(a[1..], b); }
        head + (NumbersOf(a[1..]) + NumbersOf(b));
        { AppendAssoc(head, NumbersOf(a[1..]), NumbersOf(b)); }
        (head + NumbersOf(a[1..])) + NumbersOf(b);
        NumbersOf(a) + NumbersOf(b);
      }
    }
  }

  lemma {:induction false} NoNumbers(s: seq<Token>)
    requires forall k :: 0 <= k < |s| ==> !IsNumber(s[k])
    ensures NumbersOf(s) == []
  {
    if s != [] {
      NoNumbers(s[1..]);
    }
  }

  lemma NoNumbersPopped(stack: seq<Token>, j: nat)
    requires StackOk(stack) && j <= |stack|
    ensures NumbersOf(Reverse(stack[j..])) == []
  {
    ReverseElements(stack[j..]);
    NoNumbers(Reverse(stack[j..]));
  }

  /** One loop pass appends a number token to the output, and no other number. */
  lemma StepNumbers(st: ConvState, ts: seq<Token>, i: nat)
    requires i < |ts| && StackOk(st.stack)
    ensures NumbersOf(Step(st, ts, i).output) == NumbersOf(st.output) + NumbersOf([ts[i]])
  {
    if IsNumber(ts[i]) {
      NumbersOfAppend(st.output, [ts[i]]);
    } else {
      assert NumbersOf([ts[i]]) == [] by { assert [ts[i]][1..] == []; }
      if IsOp(ts[i]) {
        var st1 := PlacementSpec(st, ts, i);
        if !IsSignMinus(ts, i, st1.signed) {
          var prec := ts[i].kind.op.precedence;
          PopHigherShape(st1.output, st1.stack, prec);
          var r := PopHigher(st1.output, st1.stack, prec);
          NoNumbersPopped(st1.stack, |r.1|);
          NumbersOfAppend(st1.output, Reverse(st1.stack[|r.1|..]));
        }
      } else if !IsOpen(ts[i]) && HasOpen(st.stack) {
        PopToOpenShape(st.output, st.stack);
        var r := PopToOpen(st.output, st.stack);
        NoNumbersPopped(st.stack, |r.1| + 1);
        NumbersOfAppend(st.output, Reverse(st.stack[|r.1| + 1..]));
      }
    }
  }

  lemma NumbersOfPrefix(ts: seq<Token>, n: nat)
    requires 0 < n <= |ts|
    ensures NumbersOf(ts[..n]) == NumbersOf(ts[..n - 1]) + NumbersOf([ts[n - 1]])
  {
    assert ts[..n] == ts[..n - 1] + [ts[n - 1]];
    NumbersOfAppend(ts[..n - 1], [ts[n - 1]]);
  }

  lemma {:induction false} RunNumbers(st: ConvState, ts: seq<Token>, n: nat)
    requires n <= |ts| && StackOk(st.stack) && OutputOk(st.output)
    ensures NumbersOf(Run(st, ts, n).output) == NumbersOf(st.output) + NumbersOf(ts[..n])
  {
    if n == 0 {
      assert ts[..0] == [];
    } else {
      var prev := Run(st, ts, n - 1);
      RunNumbers(st, ts, n - 1);
      RunKeepsShapes(st, ts, n - 1);
      StepNumbers(prev, ts, n - 1);
      NumbersOfPrefix(ts, n);
      AppendAssoc(NumbersOf(st.output), NumbersOf(ts[..n - 1]), NumbersOf([ts[n - 1]]));
    }
  }

  lemma AppendAssoc<T>(a: seq<T>, b: seq<T>, c: seq<T>)
    ensures (a + b) + c == a + (b + c)
  {
  }

  /** `convert` copies the number tokens to the postfix output in their input order, adding none. */
  lemma ConvertKeepsNumberOrder(st: ConvState, ts: seq<Token>)
    requires StackOk(st.stack) && OutputOk(st.output)
    ensures NumbersOf(ConvertSpec(st, ts).output) == NumbersOf(st.output) + NumbersOf(ts)
  {
    RunNumbers(st, ts, |ts|);
    RunKeepsShapes(st, ts, |ts|);
    assert ts[..|ts|] == ts;
    var s := Run(st, ts, |ts|);
    if !HasOpen(s.stack) {
      assert s.stack[0..] == s.stack;
      NoNumbersPopped(s.stack, 0);
      NumbersOfAppend(s.output, Reverse(s.stack));
    }
  }

  // ----------------------------------------------------------------- placement

  /**
   * A mid operator (outside the suppressed case) is valid iff the previous
   * token is a number, ')' or right-sided and the next token is a number, '('
   * or left-sided; otherwise exactly one Missing_Operands_Error at its start.
   */
  lemma MidPlacementRule(ts: seq<Token>, i: nat)
    requires i < |ts| && TableOp(ts[i]) && ts[i].kind.op.placement == Mid
    ensures PlacementCheck(ts, i, false).0 ==
      if CheckPrevToken(PrevAt(ts, i)) && CheckNextToken(NextAt(ts, i)) then None
      else Some(Diagnostic(MissingOperandsError, ts[i].start))
  {
    TableIsConsistent(ts[i].kind.op.cls);
  }

  /**
   * A left-sided operator: Missing_Operand_Error without a next token;
   * otherwise Invalid_Unary_Usage_Error when the next token is not "U-", a
   * number or '(' or the previous token is a number, ')' or right-sided.
   */
  lemma LeftPlacementRule(ts: seq<Token>, i: nat, hit: bool)
    requires i < |ts| && TableOp(ts[i]) && ts[i].kind.op.placement == Left
    ensures PlacementCheck(ts, i, hit).1 == hit
    ensures PlacementCheck(ts, i, hit).0 ==
      if NextAt(ts, i).None? then Some(Diagnostic(MissingOperandError, ts[i].start))
      else if !(IsUMinus(ts[i + 1]) || IsNumber(ts[i + 1]) || IsOpen(ts[i + 1])) || CheckPrevToken(PrevAt(ts, i))
      then Some(Diagnostic(InvalidUnaryUsageError, ts[i].start))
      else None
  {
    TableIsConsistent(ts[i].kind.op.cls);
  }

  /** The mirror rule for a right-sided operator. */
  lemma RightPlacementRule(ts: seq<Token>, i: nat, hit: bool)
    requires i < |ts| && TableOp(ts[i]) && ts[i].kind.op.placement == Right
    ensures PlacementCheck(ts, i, hit).1 == hit
    ensures PlacementCheck(ts, i, hit).0 ==
      if PrevAt(ts, i).None? then Some(Diagnostic(MissingOperandError, ts[i].start))
      else if !(IsNumber(ts[i - 1]) || IsClose(ts[i - 1]) || IsRightSidedTok(ts[i - 1])) || CheckNextToken(NextAt(ts, i))
      then Some(Diagnostic(InvalidUnaryUsageError, ts[i].start))
      else None
  {
    TableIsConsistent(ts[i].kind.op.cls);
  }

  /**
   * The token a unary-usage message names always exists: a failing unary
   * check that has a token on the operand side points at a neighbour inside
   * the list (`_handle_unary_op_errors` never indexes out of range).
   */
  lemma UnaryErrorTokenExists(ts: seq<Token>, i: nat)
    requires i < |ts| && TableOp(ts[i]) && ts[i].kind.op.placement != Mid
    ensures var p := ts[i].kind.op.placement;
      var c := PlacementCheckFor(ts, i, p);
      !c.0 && (if p == Left then i + 1 < |ts| else i >= 1) ==>
        (c.1 == After ==> i >= 1) && (c.1 == Before ==> i + 1 < |ts|) && c.1 != NoDir
  {
    TableIsConsistent(ts[i].kind.op.cls);
  }

  /** Step never changes the flag or the errors except through the placement check. */
  lemma StepOnOperator(st: ConvState, ts: seq<Token>, i: nat)
    requires i < |ts| && IsOp(ts[i])
    ensures Step(st, ts, i).errors == st.errors + OptionToSeq(PlacementCheck(ts, i, st.hitMissing).0)
    ensures Step(st, ts, i).hitMissing == PlacementCheck(ts, i, st.hitMissing).1
  {
  }

  /**
   * After a Missing_Operands_Error at ts[i] whose next token is a mid
   * operator, that operator's placement check is skipped: it records nothing
   * and resets the flag.
   */
  lemma MissingOperandsSuppressesNext(st: ConvState, ts: seq<Token>, i: nat)
    requires i + 1 < |ts| && IsOp(ts[i]) && ts[i].kind.op.placement == Mid
    requires IsOp(ts[i + 1]) && ts[i + 1].kind.op.placement == Mid
    requires !Run(st, ts, i).hitMissing
    requires PlacementCheck(ts, i, false).0.Some?
    ensures Run(st, ts, i + 1).errors == Run(st, ts, i).errors + [Diagnostic(MissingOperandsError, ts[i].start)]
    ensures Run(st, ts, i + 1).hitMissing
    ensures Run(st, ts, i + 2).errors == Run(st, ts, i + 1).errors
    ensures !Run(st, ts, i + 2).hitMissing
  {
    StepOnOperator(Run(st, ts, i), ts, i);
    StepOnOperator(Run(st, ts, i + 1), ts, i + 1);
  }

  // ----------------------------------------------------------------- sign minus

  /** The sign token outranks every operator in the table. */
  lemma SignTokenOutranks(cls: OpClass)
    ensures OperatorData(cls).precedence < PrecOf(SignToken)
  {
  }

  /** A sign minus is pushed as the sign token, with no popping and no other change. */
  lemma SignMinusPushed(st: ConvState, ts: seq<Token>, i: nat)
    requires i < |ts| && IsOp(ts[i]) && IsSignMinus(ts, i, st.signed)
    ensures OperatorSpec(st, ts, i) == st.(stack := st.stack + [SignToken], signed := st.signed + [i])
    ensures OperatorSpec(st, ts, i).output == st.output
  {
  }

  /** The loop records i as a sign minus exactly when ts[i] is one. */
  lemma StepSigned(st: ConvState, ts: seq<Token>, i: nat)
    requires i < |ts|
    ensures Step(st, ts, i).signed == st.signed + (if IsOp(ts[i]) && IsSignMinus(ts, i, st.signed) then [i] else [])
  {
  }

  /** Starting from a cleared list, the recorded indexes are below n. */
  lemma {:induction false} SignedBelow(st: ConvState, ts: seq<Token>, n: nat)
    requires n <= |ts| && st.signed == []
    ensures forall j :: j in Run(st, ts, n).signed ==> 0 <= j < n
  {
    if n > 0 {
      SignedBelow(st, ts, n - 1);
      StepSigned(Run(st, ts, n - 1), ts, n - 1);
    }
  }

  /**
   * With the index list cleared (as `clear_converter` leaves it), the sign
   * minus rule needs no list: a "U-" at i is a sign minus iff it is not
   * first and either the token before it is a sign minus, or the token
   * before it is neither '(' nor "U-".
   */
  lemma SignMinusWithoutList(st: ConvState, ts: seq<Token>, i: nat)
    requires i < |ts| && st.signed == [] && IsUMinus(ts[i])
    ensures IsSignMinus(ts, i, Run(st, ts, i).signed) <==>
      i >= 1 && (
        (IsUMinus(ts[i - 1]) && IsSignMinus(ts, i - 1, Run(st, ts, i - 1).signed))
        || (!IsOpen(ts[i - 1]) && !IsUMinus(ts[i - 1])))
  {
    if i >= 1 {
      StepSigned(Run(st, ts, i - 1), ts, i - 1);
      SignedBelow(st, ts, i - 1);
      var before := Run(st, ts, i - 1).signed;
      assert (i - 1) !in before;
      assert (i - 1) in Run(st, ts, i).signed <==> IsOp(ts[i - 1]) && IsSignMinus(ts, i - 1, before);
    }
  }

  // --------------------------------------------------------------- parentheses

  /** The closing-parenthesis branch when no '(' is stacked: Missing_Open_Paren, nothing popped. */
  lemma CloseWithoutOpen(st: ConvState, ts: seq<Token>, i: nat)
    requires i < |ts| && IsClose(ts[i]) && !HasOpen(st.stack)
    ensures ParenSpec(st, ts, i) == st.(errors := st.errors + InvalidParenErrors(ts, i) + [Diagnostic(MissingOpenParenError, ts[i].start)])
  {
  }

  /**
   * The adjacency checks of `_check_invalid_paren`: '(' after a number or '!'
   * gives Invalid_Before_Open_Paren; '(' just before ')' gives
   * Invalid_Empty_Paren at the ')' position minus one; ')' before a number or
   * "U-" gives Invalid_After_Close_Paren.
   */
  lemma ParenAdjacency(ts: seq<Token>, i: nat)
    requires i < |ts| && (IsOpen(ts[i]) || IsClose(ts[i]))
    ensures Diagnostic(InvalidBeforeOpenParenError, ts[i].start) in InvalidParenErrors(ts, i) <==>
      IsOpen(ts[i]) && i >= 1 && (IsNumber(ts[i - 1]) || IsFactorial(ts[i - 1]))
    ensures (exists p :: Diagnostic(InvalidEmptyParenError, p) in InvalidParenErrors(ts, i)) <==>
      IsOpen(ts[i]) && i + 1 < |ts| && IsClose(ts[i + 1])
    ensures Diagnostic(InvalidAfterCloseParenError, ts[i].start) in InvalidParenErrors(ts, i) <==>
      IsClose(ts[i]) && i + 1 < |ts| && (IsNumber(ts[i + 1]) || IsUMinus(ts[i + 1]))
    ensures |InvalidParenErrors(ts, i)| <= 2
  {
    if IsOpen(ts[i]) && i + 1 < |ts| && IsClose(ts[i + 1]) {
      assert Diagnostic(InvalidEmptyParenError, ts[i + 1].start - 1) in InvalidParenErrors(ts, i);
    }
  }

  /** The '(' diagnostics of the end of input: one Missing_Close_Paren per stacked '(', in stack order. */
  lemma {:induction false} OpenParenErrorsAreTheOpens(stack: seq<Token>)
    ensures |OpenParenErrors(stack)| == |OpensOf(stack)|
    ensures forall j :: 0 <= j < |OpensOf(stack)| ==>
      OpenParenErrors(stack)[j] == Diagnostic(MissingCloseParenError, OpensOf(stack)[j].start)
  {
    if stack != [] {
      OpenParenErrorsAreTheOpens(Pop(stack));
    }
  }

  /** The '(' tokens of a stack, bottom to top. */
  function OpensOf(stack: seq<Token>): seq<Token> {
    if stack == [] then [] else OpensOf(Pop(stack)) + (if IsOpen(Top(stack)) then [Top(stack)] else [])
  }

  lemma {:induction false} OpensOfEmpty(stack: seq<Token>)
    ensures OpensOf(stack) == [] <==> !HasOpen(stack)
  {
    if stack != [] {
      OpensOfEmpty(Pop(stack));
      if HasOpen(Pop(stack)) {
        var k :| 0 <= k < |Pop(stack)| && IsOpen(Pop(stack)[k]);
        assert IsOpen(stack[k]);
      }
      if HasOpen(stack) && !IsOpen(Top(stack)) {
        var k :| 0 <= k < |stack| && IsOpen(stack[k]);
        assert k < |stack| - 1 && IsOpen(Pop(stack)[k]);
      }
    }
  }

  /**
   * `_handle_end_input`: with a '(' left on the stack, one Missing_Close_Paren
   * per '(' in stack order, output and stack untouched; otherwise the stack
   * is drained onto the output in LIFO order.
   */
  lemma EndInputRule(st: ConvState)
    ensures HasOpen(st.stack) ==>
      && EndInputSpec(st).output == st.output && EndInputSpec(st).stack == st.stack
      && EndInputSpec(st).errors == st.errors + OpenParenErrors(st.stack)
      && |OpenParenErrors(st.stack)| == |OpensOf(st.stack)| >= 1
    ensures !HasOpen(st.stack) ==>
      && EndInputSpec(st).errors == st.errors && EndInputSpec(st).stack == []
      && EndInputSpec(st).output == st.output + Reverse(st.stack)
      && |EndInputSpec(st).output| == |st.output| + |st.stack|
  {
    OpenParenErrorsAreTheOpens(st.stack);
    OpensOfEmpty(st.stack);
    ReverseElements(st.stack);
  }

  // ------------------------------------------------- the Missing_Operands flag

  /** The flag is only ever set when the token after the current one is a mid operator. */
  ghost predicate HitPending(ts: seq<Token>, n: nat, hit: bool) {
    hit ==> n < |ts| && IsOp(ts[n]) && ts[n].kind.op.placement == Mid
  }

  lemma StepHit(st: ConvState, ts: seq<Token>, i: nat)
    requires i < |ts| && HitPending(ts, i, st.hitMissing)
    ensures HitPending(ts, i + 1, Step(st, ts, i).hitMissing)
  {
    if IsOp(ts[i]) {
      var p := PlacementSpec(st, ts, i);
      assert OperatorSpec(p, ts, i).hitMissing == p.hitMissing;
    }
  }

  lemma {:induction false} RunHit(st: ConvState, ts: seq<Token>, n: nat)
    requires n <= |ts| && !st.hitMissing
    ensures HitPending(ts, n, Run(st, ts, n).hitMissing)
  {
    if n > 0 {
      RunHit(st, ts, n - 1);
      StepHit(Run(st, ts, n - 1), ts, n - 1);
    }
  }

  /**
   * Every conversion that starts with `_hit_missing_operands_error` false ends
   * with it false, so `clear_converter` leaving the flag alone never carries
   * it into the next expression.
   */
  lemma HitFlagClearedByConvert(st: ConvState, ts: seq<Token>)
    requires !st.hitMissing
    ensures !ConvertSpec(st, ts).hitMissing
  {
    RunHit(st, ts, |ts|);
  }

  // ------------------------------------------------------------------ findings

  function OpenToken(pos: int): Token {
    Token(OpenParen, "(", pos, pos)
  }

  /**
   * Converter.py:112 as written: for the token list of "(" the opening check
   * calls `get_token_type` on None, so `convert` raises instead of reporting.
   */
  lemma LoneOpenParenCrashesAsWritten()
    ensures OpeningParenErrorsAsWritten(PrevAt([OpenToken(0)], 0), NextAt([OpenToken(0)], 0), 0).None?
  {
  }

  /**
   * With the guard, a lone "(" is reported as intended: exactly one
   * Missing_Close_Paren_Error at position 0, and the '(' stays stacked.
   */
  lemma LoneOpenParenReported()
    ensures var st := ConvertSpec(ConvState([], [], [], false, []), [OpenToken(0)]);
      st.errors == [Diagnostic(MissingCloseParenError, 0)] && st.output == [] && st.stack == [OpenToken(0)]
  {
    var ts := [OpenToken(0)];
    var st0 := ConvState([], [], [], false, []);
    assert Run(st0, ts, 1) == st0.(stack := ts);
    assert HasOpen(ts) by { assert IsOpen(ts[0]); }
    assert OpenParenErrors(ts) == [Diagnostic(MissingCloseParenError, 0)] by {
      assert Pop(ts) == [];
    }
  }

  /**
   * `convert`, as written, raises iff the token list ends with '(': that is the
   * only token the opening check finds without a next token.
   */
  lemma ConvertCrashesIff(ts: seq<Token>)
    ensures ConvertCrashes(ts) <==> |ts| > 0 && IsOpen(ts[|ts| - 1])
  {
    if |ts| > 0 && IsOpen(ts[|ts| - 1]) {
      assert StepCrashes(ts, |ts| - 1);
    }
  }
}
