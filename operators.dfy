/**
 * The operator registry and the operator bodies (CalcParts/Operators.py).
 * Numbers are exact reals; the two calls into Python's float library that the
 * bodies make (`math.pow` and `str` of a float) are parameters, bundled in FloatLib.
 */
module Operators {
  import opened Errors

  /** Where an operator stands relative to its operands: "left", "mid", "right". */
  datatype Placement = Left | Mid | Right

  /** The Python class of an operator descriptor; the class decides its body. */
  datatype OpClass =
    | PlusOp | MinusOp | MultiplicationOp | DivisionOp | UMinusOp | PowerOp | ModuloOp
    | MinOp | MaxOp | AvgOp | FactorialOp | NegativeOp | HashOp

  /** An operator descriptor: class, `_precedence`, `_value` and `_placement`. */
  datatype Operator = Operator(cls: OpClass, precedence: real, value: char, placement: Placement)

  /** The IUnaryOperator interface. */
  predicate IsUnary(op: Operator) {
    op.cls.UMinusOp? || op.cls.FactorialOp? || op.cls.NegativeOp? || op.cls.HashOp?
  }

  /** The ILeftSidedOp marker interface. */
  predicate IsLeftSided(op: Operator) {
    op.cls.UMinusOp? || op.cls.NegativeOp?
  }

  /** The IRightSidedOp marker interface. */
  predicate IsRightSided(op: Operator) {
    op.cls.FactorialOp? || op.cls.HashOp?
  }

  /** `OpData.operatorData`, entry by entry: the descriptor registered for each class. */
  function OperatorData(cls: OpClass): (op: Operator)
    ensures op.cls == cls
  {
    match cls
    case PlusOp => Operator(PlusOp, 1.0, '+', Mid)
    case MinusOp => Operator(MinusOp, 1.0, '-', Mid)
    case MultiplicationOp => Operator(MultiplicationOp, 2.0, '*', Mid)
    case DivisionOp => Operator(DivisionOp, 2.0, '/', Mid)
    case UMinusOp => Operator(UMinusOp, 2.5, '-', Left)
    case PowerOp => Operator(PowerOp, 3.0, '^', Mid)
    case ModuloOp => Operator(ModuloOp, 4.0, '%', Mid)
    case MinOp => Operator(MinOp, 5.0, '&', Mid)
    case MaxOp => Operator(MaxOp, 5.0, '$', Mid)
    case AvgOp => Operator(AvgOp, 5.0, '@', Mid)
    case FactorialOp => Operator(FactorialOp, 6.0, '!', Right)
    case NegativeOp => Operator(NegativeOp, 6.0, '~', Left)
    case HashOp => Operator(HashOp, 6.0, '#', Right)
  }

  /** The key under which each class is registered; also the type of its tokens. */
  function KeyText(cls: OpClass): string {
    if cls.UMinusOp? then "U-" else [OperatorData(cls).value]
  }

  /** The class registered under a one-character key, if any. */
  function ClassOfChar(c: char): Option<OpClass> {
    match c
    case '+' => Some(PlusOp)
    case '-' => Some(MinusOp)
    case '*' => Some(MultiplicationOp)
    case '/' => Some(DivisionOp)
    case '^' => Some(PowerOp)
    case '%' => Some(ModuloOp)
    case '&' => Some(MinOp)
    case '$' => Some(MaxOp)
    case '@' => Some(AvgOp)
    case '!' => Some(FactorialOp)
    case '~' => Some(NegativeOp)
    case '#' => Some(HashOp)
    case _ => None
  }

  /** `OpData.get_op_class`: the descriptor for a key; None where Python raises KeyError. */
  function GetOpClass(key: string): (r: Option<Operator>)
    ensures r.Some? ==> KeyText(r.value.cls) == key
    ensures forall cls :: KeyText(cls) == key ==> r == Some(OperatorData(cls))
  {
    if key == "U-" then Some(OperatorData(UMinusOp))
    else if |key| == 1 && ClassOfChar(key[0]).Some? then Some(OperatorData(ClassOfChar(key[0]).value))
    else None
  }

  /** `OpData.get_op_keys`. */
  function GetOpKeys(): set<string> {
    {"+", "-", "*", "/", "U-", "^", "%", "&", "$", "@", "!", "~", "#"}
  }

  /** The key set is exactly the thirteen registered keys, one per class. */
  lemma OpKeysAreTheTable(key: string)
    ensures key in GetOpKeys() <==> GetOpClass(key).Some?
    ensures key in GetOpKeys() <==> exists cls :: KeyText(cls) == key
  {
    if key in GetOpKeys() {
      assert key == "U-" || |key| == 1;
      if key != "U-" {
        assert key == [key[0]];
      }
    }
    if cls :| KeyText(cls) == key {
      match cls
      case UMinusOp =>
      case _ => assert key == [OperatorData(cls).value];
    }
  }

  /** A single character is a key iff it is one of the twelve operator characters. */
  lemma CharKeys(c: char)
    ensures [c] in GetOpKeys() <==> c in "+-*/^%&$@!~#"
    ensures [c] in GetOpKeys() <==> ClassOfChar(c).Some?
  {
    if [c] in GetOpKeys() {
      assert [c] != "U-";
    }
  }

  /**
   * The marker interfaces agree with the placement strings: left-sided iff
   * "left", right-sided iff "right", unary iff not "mid".
   */
  lemma TableIsConsistent(cls: OpClass)
    ensures var op := OperatorData(cls);
      && (op.placement == Left <==> IsLeftSided(op))
      && (op.placement == Right <==> IsRightSided(op))
      && (op.placement != Mid <==> IsUnary(op))
  {
  }

  /** The precedence levels: + - < * / < U- < ^ < % < & $ @ < ! ~ #. */
  lemma PrecedenceLevels()
    ensures OperatorData(PlusOp).precedence == OperatorData(MinusOp).precedence == 1.0
    ensures OperatorData(MultiplicationOp).precedence == OperatorData(DivisionOp).precedence == 2.0
    ensures OperatorData(UMinusOp).precedence == 2.5 && OperatorData(PowerOp).precedence == 3.0
    ensures OperatorData(ModuloOp).precedence == 4.0
    ensures OperatorData(MinOp).precedence == OperatorData(MaxOp).precedence == OperatorData(AvgOp).precedence == 5.0
    ensures OperatorData(FactorialOp).precedence == OperatorData(NegativeOp).precedence == OperatorData(HashOp).precedence == 6.0
    ensures forall cls :: 1.0 <= OperatorData(cls).precedence <= 6.0
  {
  }

  // ---------------------------------------------------------------- bodies

  /** What `math.pow` does on a pair of floats: a value, ValueError or OverflowError. */
  datatype PowOutcome = PowValue(v: real) | PowValueError | PowOverflowError

  /** The float library calls the bodies make; not part of this model. */
  datatype FloatLib = FloatLib(pow: (real, real) -> PowOutcome, repr: real -> string)

  predicate IsIntegral(x: real) {
    x.Floor as real == x
  }

  /** `Power.binary_evaluate`: math.pow with its two exceptions renamed. */
  function Power(a: real, b: real, lib: FloatLib): (r: Result<real>)
    ensures lib.pow(a, b).PowValue? ==> r == Ok(lib.pow(a, b).v)
    ensures lib.pow(a, b).PowValueError? ==> r == Raise(InvalidPower)
    ensures lib.pow(a, b).PowOverflowError? ==> r == Raise(PowerOverflow)
  {
    match lib.pow(a, b)
    case PowValue(v) => Ok(v)
    case PowValueError => Raise(InvalidPower)
    case PowOverflowError => Raise(PowerOverflow)
  }

  /** `Max.binary_evaluate`. */
  function Max(a: real, b: real): real {
    if a > b then a else b
  }

  /** `Min.binary_evaluate`. */
  function Min(a: real, b: real): real {
    if a < b then a else b
  }

  lemma MaxMinAreOperands(a: real, b: real)
    ensures Max(a, b) >= a && Max(a, b) >= b && (Max(a, b) == a || Max(a, b) == b)
    ensures Min(a, b) <= a && Min(a, b) <= b && (Min(a, b) == a || Min(a, b) == b)
    ensures Max(a, b) + Min(a, b) == a + b
  {
  }

  /** Python's float `%`: the result takes the sign of the divisor. */
  function Modulo(a: real, b: real): (r: Result<real>)
    ensures b == 0.0 <==> r == Raise(ZeroDivision)
    ensures r.Ok? && b > 0.0 ==> 0.0 <= r.value < b
    ensures r.Ok? && b < 0.0 ==> b < r.value <= 0.0
    ensures r.Ok? ==> IsIntegral((a - r.value) / b)
  {
    if b == 0.0 then Raise(ZeroDivision)
    else
      var q := (a / b).Floor;
      assert q as real <= a / b < q as real + 1.0;
      ModuloBounds(a, b, q);
      Ok(a - b * q as real)
  }

  lemma ModuloBounds(a: real, b: real, q: int)
    requires b != 0.0 && q as real <= a / b < q as real + 1.0
    ensures b > 0.0 ==> 0.0 <= a - b * q as real < b
    ensures b < 0.0 ==> b < a - b * q as real <= 0.0
    ensures ((a - (a - b * q as real)) / b).Floor as real == (a - (a - b * q as real)) / b
  {
    var frac := a / b - q as real;
    assert 0.0 <= frac < 1.0;
    assert a == b * (a / b);
    assert a - b * q as real == b * frac;
    if b > 0.0 {
      assert b * frac < b * 1.0;
    } else {
      assert b * frac > b * 1.0;
    }
    assert (a - (a - b * q as real)) / b == q as real;
  }

  /** `binary_evaluate` of the class; a unary class has no such method (AttributeError). */
  function BinaryEvaluate(cls: OpClass, a: real, b: real, lib: FloatLib): (r: Result<real>)
    ensures cls.PlusOp? ==> r == Ok(a + b)
    ensures cls.MinusOp? ==> r == Ok(a - b)
    ensures cls.DivisionOp? ==> (b == 0.0 <==> r == Raise(ZeroDivision))
    ensures cls.DivisionOp? && b != 0.0 ==> r.Ok? && r.value * b == a
    ensures cls.AvgOp? ==> r.Ok? && r.value - a == b - r.value
    ensures (cls.MaxOp? || cls.MinOp?) ==> r == Ok(a) || r == Ok(b)
    ensures r.Raise? ==> r.fault in {ZeroDivision, InvalidPower, PowerOverflow, OtherException}
  {
    match cls
    case PlusOp => Ok(a + b)
    case MinusOp => Ok(a - b)
    case MultiplicationOp => Ok(a * b)
    case DivisionOp => if b == 0.0 then Raise(ZeroDivision) else Ok(a / b)
    case PowerOp => Power(a, b, lib)
    case ModuloOp => Modulo(a, b)
    case MinOp => Ok(Min(a, b))
    case MaxOp => Ok(Max(a, b))
    case AvgOp => Ok((a + b) / 2.0)
    case _ => Raise(OtherException)
  }

  /** `-` undoes `+`, and `/` undoes `*` by any non-zero operand. */
  lemma InverseOperators(a: real, b: real, lib: FloatLib)
    ensures BinaryEvaluate(MinusOp, BinaryEvaluate(PlusOp, a, b, lib).value, b, lib) == Ok(a)
    ensures BinaryEvaluate(MultiplicationOp, a, b, lib).Ok?
    ensures b != 0.0 ==>
      BinaryEvaluate(DivisionOp, BinaryEvaluate(MultiplicationOp, a, b, lib).value, b, lib) == Ok(a)
  {
    assert BinaryEvaluate(MultiplicationOp, a, b, lib) == Ok(a * b);
    if b != 0.0 {
      var p := a * b;
      assert p / b * b == p;
      assert (p / b - a) * b == 0.0;
      assert p / b == a;
      assert BinaryEvaluate(DivisionOp, p, b, lib) == Ok(a);
    }
  }

  // ------------------------------------------------------------- factorial

  /** The product 1 * 2 * ... * n. */
  function Fact(n: nat): (r: nat)
    ensures r >= 1
  {
    if n == 0 then 1 else n * Fact(n - 1)
  }

  /** `Factorial.MAX_FLOAT_SIZE`. */
  const MaxFloatSize: real := 170.0

  /** What `Factorial.unary_evaluate` returns or raises. */
  function FactorialSpec(x: real): Result<real> {
    if !IsIntegral(x) then Raise(InvalidFactorial)
    else if x < 0.0 then Raise(InvalidFactorial)
    else if x >= MaxFloatSize then Raise(LargeNumber)
    else Ok(Fact(x.Floor) as real)
  }

  /** `Factorial.unary_evaluate`: the three guards, then the accumulator loop. */
  method FactorialEvaluate(x: real) returns (r: Result<real>)
    ensures r == FactorialSpec(x)
  {
    if !IsIntegral(x) {
      return Raise(InvalidFactorial);
    } else if x < 0.0 {
      return Raise(InvalidFactorial);
    } else if x >= MaxFloatSize {
      return Raise(LargeNumber);
    }
    var n: nat := x.Floor;
    var factorial: nat := 1;
    var i: nat := 1;
    while i < n + 1
      invariant 1 <= i <= n + 1
      invariant factorial == Fact(i - 1)
    {
      factorial := factorial * i;
      i := i + 1;
    }
    r := Ok(factorial as real);
  }

  lemma FactorialProperties(x: real)
    ensures FactorialSpec(x).Ok? <==> IsIntegral(x) && 0.0 <= x < 170.0
    ensures FactorialSpec(x) == Raise(InvalidFactorial) <==> !IsIntegral(x) || x < 0.0
    ensures FactorialSpec(x) == Raise(LargeNumber) <==> IsIntegral(x) && x >= 170.0
    ensures FactorialSpec(0.0) == Ok(1.0) && FactorialSpec(4.0) == Ok(24.0)
  {
    assert Fact(4) == 24 by {
      assert Fact(1) == 1;
      assert Fact(2) == 2;
      assert Fact(3) == 6;
    }
  }

  /** On a natural below the bound, the body returns that natural's factorial. */
  lemma FactorialOfNat(n: nat)
    requires n < 170
    ensures FactorialSpec(n as real) == Ok(Fact(n) as real)
  {
    assert (n as real).Floor == n;
  }

  /** n! = n * (n-1)! on the values the body accepts, and the values grow. */
  lemma {:induction false} FactorialStep(n: nat)
    requires 1 <= n < 170
    ensures FactorialSpec(n as real) == Ok(Fact(n) as real)
    ensures FactorialSpec((n - 1) as real) == Ok(Fact(n - 1) as real)
    ensures Fact(n) == n * Fact(n - 1) && Fact(n) >= Fact(n - 1)
  {
    FactorialOfNat(n);
    FactorialOfNat(n - 1);
    var b := Fact(n - 1);
    assert Fact(n) == n * b;
  }

  // ------------------------------------------------------------------ hash

  predicate IsDigit(c: char) {
    '0' <= c <= '9'
  }

  /** `str(num).split('e')[0]`: the text before the first 'e'. */
  function Mantissa(s: string): (m: string)
    ensures |m| <= |s| && m == s[..|m|]
    ensures 'e' !in m
    ensures |m| < |s| ==> s[|m|] == 'e'
  {
    if s == [] then []
    else if s[0] == 'e' then []
    else [s[0]] + Mantissa(s[1..])
  }

  /** The sum of the digit characters of a text, other characters skipped. */
  function DigitSumOfText(s: string): nat {
    if s == [] then 0
    else (if IsDigit(s[0]) then (s[0] as int - '0' as int) else 0) + DigitSumOfText(s[1..])
  }

  const SmallHashBound: real := 1.0 / 10_000_000_000.0       // 1e-10
  const LargeHashBound: real := 1_000_000_000_000_000.0      // 1e15

  /** What `Hash.unary_evaluate` returns or raises, given the text `str(num)`. */
  function HashSpec(x: real, text: string): Result<real> {
    if x < 0.0 then Raise(InvalidHash)
    else if x < SmallHashBound && x != 0.0 then Raise(SmallNumber)
    else if x > LargeHashBound then Raise(LargeNumber)
    else Ok(DigitSumOfText(Mantissa(text)) as real)
  }

  /** `Hash.unary_evaluate`: the three guards, then the digit-summing loop over str(num). */
  method HashEvaluate(x: real, text: string) returns (r: Result<real>)
    ensures r == HashSpec(x, text)
  {
    if x < 0.0 {
      return Raise(InvalidHash);
    } else if x < SmallHashBound && x != 0.0 {
      return Raise(SmallNumber);
    } else if x > LargeHashBound {
      return Raise(LargeNumber);
    }
    var m := Mantissa(text);
    var output: nat := 0;
    var i := 0;
    while i < |m|
      invariant 0 <= i <= |m|
      invariant output + DigitSumOfText(m[i..]) == DigitSumOfText(m)
    {
      if IsDigit(m[i]) {
        output := output + (m[i] as int - '0' as int);
      }
      assert m[i..][1..] == m[i + 1..];
      i := i + 1;
    }
    r := Ok(output as real);
  }

  /** The decimal digits of n, most significant first. */
  function NatText(n: nat): (s: string)
    ensures |s| >= 1 && forall k :: 0 <= k < |s| ==> IsDigit(s[k])
  {
    if n < 10 then [('0' as int + n) as char]
    else NatText(n / 10) + [('0' as int + n % 10) as char]
  }

  /** The sum of the decimal digits of n. */
  function DigitSum(n: nat): nat {
    if n == 0 then 0 else n % 10 + DigitSum(n / 10)
  }

  lemma {:induction false} DigitSumOfTextAppend(a: string, b: string)
    ensures DigitSumOfText(a + b) == DigitSumOfText(a) + DigitSumOfText(b)
  {
    if a != [] {
      var ab := a + b;
      assert ab[0] == a[0];
      assert ab[1..] == a[1..] + b;
      DigitSumOfTextAppend(a[1..], b);
      assert DigitSumOfText(ab) == (if IsDigit(ab[0]) then (ab[0] as int - '0' as int) else 0) + DigitSumOfText(ab[1..]);
    } else {
      assert a + b == b;
    }
  }

  lemma {:induction false} DigitSumOfNatText(n: nat)
    ensures DigitSumOfText(NatText(n)) == DigitSum(n)
  {
    if n < 10 {
      assert NatText(n)[1..] == [];
      if n > 0 { assert DigitSum(n / 10) == 0; }
    } else {
      var d := [('0' as int + n % 10) as char];
      DigitSumOfTextAppend(NatText(n / 10), d);
      DigitSumOfNatText(n / 10);
      assert d[1..] == [];
    }
  }

  lemma {:induction false} MantissaNoE(s: string)
    requires 'e' !in s
    ensures Mantissa(s) == s
  {
    if s != [] {
      assert s[1..] == s[1..] && 'e' !in s[1..];
      MantissaNoE(s[1..]);
    }
  }

  /**
   * For an integral operand written by `str` as its digits and ".0", the hash
   * operator returns the sum of its decimal digits.
   */
  lemma HashOfInteger(n: nat, lib: FloatLib)
    requires n as real <= LargeHashBound
    requires lib.repr(n as real) == NatText(n) + ".0"
    ensures HashSpec(n as real, lib.repr(n as real)) == Ok(DigitSum(n) as real)
  {
    var t := NatText(n) + ".0";
    assert 'e' !in t by {
      forall k | 0 <= k < |t| ensures t[k] != 'e' {
        if k < |NatText(n)| { assert IsDigit(NatText(n)[k]); }
      }
    }
    MantissaNoE(t);
    DigitSumOfTextAppend(NatText(n), ".0");
    DigitSumOfNatText(n);
    assert DigitSumOfText(".0") == 0 by {
      assert ".0"[1..] == "0";
      assert "0"[1..] == [];
    }
    if n != 0 {
      assert n as real >= 1.0;
    }
  }

  lemma HashOf123(lib: FloatLib)
    requires lib.repr(123.0) == "123.0"
    ensures HashSpec(123.0, lib.repr(123.0)) == Ok(6.0)
  {
    assert NatText(123) == "123" by {
      assert NatText(1) == "1";
      assert NatText(12) == "12";
    }
    assert DigitSum(123) == 6 by {
      assert DigitSum(1) == 1;
      assert DigitSum(12) == 3;
    }
    HashOfInteger(123, lib);
  }

  lemma HashErrors(x: real, text: string)
    ensures HashSpec(x, text) == Raise(InvalidHash) <==> x < 0.0
    ensures HashSpec(x, text) == Raise(SmallNumber) <==> 0.0 < x < SmallHashBound
    ensures HashSpec(x, text) == Raise(LargeNumber) <==> x > LargeHashBound
    ensures HashSpec(x, text).Ok? ==> HashSpec(x, text).value >= 0.0
  {
  }

  /** `unary_evaluate` of the class; a binary class has no such method (AttributeError). */
  function UnaryEvaluate(cls: OpClass, x: real, lib: FloatLib): (r: Result<real>)
    ensures (cls.UMinusOp? || cls.NegativeOp?) ==> r == Ok(-x)
    ensures r.Raise? ==> r.fault in {InvalidFactorial, LargeNumber, SmallNumber, InvalidHash, OtherException}
  {
    match cls
    case UMinusOp => Ok(x * -1.0)
    case NegativeOp => Ok(x * -1.0)
    case FactorialOp => FactorialSpec(x)
    case HashOp => HashSpec(x, lib.repr(x))
    case _ => Raise(OtherException)
  }

  /** `{U-, ~}` applied twice is the identity. */
  lemma NegationInvolutive(x: real, lib: FloatLib)
    ensures UnaryEvaluate(UMinusOp, UnaryEvaluate(UMinusOp, x, lib).value, lib) == Ok(x)
    ensures UnaryEvaluate(NegativeOp, UnaryEvaluate(NegativeOp, x, lib).value, lib) == Ok(x)
    ensures UnaryEvaluate(UMinusOp, UnaryEvaluate(NegativeOp, x, lib).value, lib) == Ok(x)
  {
  }

  /** The unary method of the class, with its loops. */
  method UnaryEvaluateMethod(cls: OpClass, x: real, lib: FloatLib) returns (r: Result<real>)
    ensures r == UnaryEvaluate(cls, x, lib)
  {
    match cls
    case UMinusOp => r := Ok(x * -1.0);
    case NegativeOp => r := Ok(x * -1.0);
    case FactorialOp => r := FactorialEvaluate(x);
    case HashOp => r := HashEvaluate(x, lib.repr(x));
    case _ => r := Raise(OtherException);
  }
}
