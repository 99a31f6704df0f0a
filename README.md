# OmegaCalc expression pipeline in Dafny

This project models the expression pipeline of OmegaCalc, a command-line calculator.
One expression goes through four stages:

- **Tokenizer** (`CalcParts/Tokenizer.py`). It removes all whitespace and scans the cleaned text left to right. Each maximal run of digits and `.` becomes a number token, marked `Number_Error` when malformed. Each operator and each parenthesis becomes one token. Each maximal run of characters outside the valid set becomes one error token. It also decides whether each `-` is unary (`U-`) or binary.
- **Converter** (`CalcParts/Converter.py`). A shunting-yard pass builds the postfix list. Along the way it checks operator placement (mid, left-sided, right-sided), pushes "sign minus" tokens, and checks parenthesis adjacency and matching.
- **Operator registry and bodies** (`CalcParts/Operators.py`). These are the precedence/placement table and the evaluation functions.
- **Evaluator** (`Evaluator.py`). A postfix stack machine that stops at the first operator error.

All stages record into one shared, append-only error list (`ErrorHandler.py`). After each stage, `run_single_exp` (`CalcHandler.py`) stops when that list is non-empty.

Each stage that changes state as it goes is a `class` with the source's fields:

| class | fields |
|---|---|
| `Tokenizer.Tokenizer` | `tokenList` |
| `Converter.Converter` | `outputLst`, `opStack`, `signedMinusIndexes`, `hitMissingOperandsError` |
| `Evaluator.Evaluator` | `calculationStack`, `encounteredFatalError` |
| `ErrorHandling.ErrorHandler` | `errors` |
| `CalcHandler.Calculator` | the three stages, sharing one handler |

Each method is proved to move its object exactly as a pure specification function says:

- `ScanFrom` and `TokensOf` for the tokenizer;
- `Step`, `Run` and `ConvertSpec` for the converter;
- `EvalStep` and `EvalSpec` for the evaluator;
- `RunSingleExpSpec` for one run.

The properties are lemmas about those functions, in the `*Properties` modules.

Numbers are exact `real`s. The two float-library calls the operator bodies make (`math.pow`, and `str` of a float inside `#`) are parameters, bundled in `Operators.FloatLib`. A diagnostic is the error type plus the first character position its message prints; `NoPos` (-1) means the message prints none.

An uncaught Python exception on the way is an explicit case, never a precondition:

- `None` for the step functions;
- `crashed` for the methods that can raise (`Tokenizer.TokenizeExpression`, `Converter.Convert`, `Evaluator.Eval` and their helpers);
- `Crash` for a whole run.

The two latent crashes in the source are under "## Findings". The methods and `RunSingleExpSpec` keep them as written: a cleaned text that ends in "(-" makes the tokenizer raise IndexError, and a token list that ends with "(" makes the converter raise AttributeError. Both end the run in `Crash`. `ScanFrom` and `ConvertSpec` are the corrected (guarded) definitions. They agree with the source on every input that does not raise, and the methods promise them only there.

## Model

| member | source | states |
|---|---|---|
| ErrorHandling.ErrorHandler.constructor | ErrorHandler.py:5-6 | a new list is empty |
| ErrorHandling.ErrorHandler.AddError | ErrorHandler.py:8-13 | appends exactly one entry at the end; the earlier entries are unchanged |
| ErrorHandling.ErrorHandler.HasErrors | ErrorHandler.py:15-20 | true iff the list is non-empty |
| ErrorHandling.ErrorHandler.ClearErrors | ErrorHandler.py:30-35 | afterwards the list is empty and `HasErrors` is false |
| ErrorHandling.AddTwice | ErrorHandler.py:8-13 | two calls leave the two diagnostics at the end in call order |
| Operators.OperatorData | CalcParts/Operators.py:216-233 | the descriptor registered for each of the 13 operator classes is that class's own |
| Operators.GetOpClass | CalcParts/Operators.py:243-245 | a key finds the descriptor whose key text it is, and every registered key finds its one shared descriptor; other keys fail (KeyError) |
| Operators.OpKeysAreTheTable | CalcParts/Operators.py:235-237 | a text is in the key set iff `get_op_class` succeeds on it, iff some class has it as its key |
| Operators.CharKeys | CalcParts/Operators.py:216-233 | a one-character text is a key iff the character is one of `+-*/^%&$@!~#` |
| Operators.TableIsConsistent | CalcParts/Operators.py:149-209 | left-sided iff placement "left", right-sided iff "right", unary iff not "mid", for every registered operator |
| Operators.PrecedenceLevels | CalcParts/Operators.py:216-233 | `+ -` = 1, `* /` = 2, `U-` = 2.5, `^` = 3, `%` = 4, `& $ @` = 5, `! ~ #` = 6 |
| Operators.Power | CalcParts/Operators.py:103-110 | a pow value is returned; ValueError becomes InvalidPowerError and OverflowError becomes PowerOverflowError |
| Operators.MaxMinAreOperands | CalcParts/Operators.py:118-128 | Max is at least both operands and is one of them; Min is at most both and is one of them; together they sum to the operands' sum |
| Operators.Modulo | CalcParts/Operators.py:136-137 | ZeroDivisionError iff the divisor is 0; otherwise the result has the divisor's sign, is smaller than it in magnitude, and differs from the dividend by a whole multiple of it (Python's floored `%`) |
| Operators.BinaryEvaluate | CalcParts/Operators.py:62-146 | `+` and `-` give a+b and a-b; `/` raises ZeroDivisionError iff b = 0, else r*b = a; `@` is the midpoint; `$` and `&` give one operand; only the four named faults can be raised |
| Operators.InverseOperators | CalcParts/Operators.py:62-92 | `-` undoes `+`; `*` never raises, and `/` by the same non-zero operand undoes it |
| Operators.FactorialEvaluate | CalcParts/Operators.py:164-176 | the guards followed by the accumulator loop return exactly `FactorialSpec` |
| Operators.FactorialProperties | CalcParts/Operators.py:164-176 | succeeds iff the input is integral and in [0, 170); InvalidFactorialError iff non-integral or negative; LargeNumberError iff integral and ≥ 170; 0! = 1 and 4! = 24 |
| Operators.FactorialOfNat | CalcParts/Operators.py:164-176 | on a natural n below 170 the result is n! |
| Operators.FactorialStep | CalcParts/Operators.py:174-176 | for 1 ≤ n < 170 the results at n and n-1 are n! and (n-1)!, with n! = n·(n-1)! and n! ≥ (n-1)! |
| Operators.Mantissa | CalcParts/Operators.py:204 | the text before the first `e`: a prefix without `e`, followed by `e` whenever it is shorter than the text |
| Operators.HashEvaluate | CalcParts/Operators.py:193-209 | the three guards followed by the digit-summing loop return exactly `HashSpec` |
| Operators.HashOfInteger | CalcParts/Operators.py:193-209 | for a natural up to 1e15 that `str` writes as digits plus ".0", `#` gives the sum of its decimal digits |
| Operators.HashOf123 | CalcParts/Operators.py:193-209 | 123# = 6 |
| Operators.HashErrors | CalcParts/Operators.py:195-202 | InvalidHashError iff negative; SmallNumberError iff in (0, 1e-10); LargeNumberError iff above 1e15; any result is non-negative |
| Operators.UnaryEvaluate | CalcParts/Operators.py:149-209 | `U-` and `~` give -x; only the three named faults, or "no such method", can be raised |
| Operators.NegationInvolutive | CalcParts/Operators.py:154-155 | applying `U-` or `~` twice, in any mix, gives back the operand |
| Operators.UnaryEvaluateMethod | CalcParts/Operators.py:149-209 | the class's unary method, with its loops, returns exactly `UnaryEvaluate` |
| Tokenizer.Clean | CalcParts/Tokenizer.py:45 | the cleaned text is no longer than the input and holds no whitespace character |
| TokenizerProperties.CleanKeepsNonWhitespace | CalcParts/Tokenizer.py:45 | a text without whitespace is left as it is |
| TokenizerProperties.CleanIdempotent | CalcParts/Tokenizer.py:45 | cleaning twice is cleaning once |
| TokenizerProperties.CleanAppend | CalcParts/Tokenizer.py:45 | cleaning distributes over concatenation, so only whitespace characters are removed |
| Tokenizer.NumberPatternChars | CalcParts/Tokenizer.py:22 | a character is in `_number_pattern` iff it is a digit or `.` |
| Tokenizer.ValidTokensChars | CalcParts/Tokenizer.py:18 | a character is in `_valid_tokens` iff it is a number character, an operator key or a parenthesis |
| TokenizerProperties.CharClasses | CalcParts/Tokenizer.py:69-82 | the four character types of `_get_cur_char_type` are disjoint, and their union is the valid set |
| Tokenizer.NumberRunEnd | CalcParts/Tokenizer.py:135-141 | the inclusive end of the number run from i: all its characters are number characters, and the next one is not |
| Tokenizer.InvalidRunEnd | CalcParts/Tokenizer.py:185-192 | the inclusive end of the invalid run from i: all its characters are outside the valid set, and the next one is inside it |
| Tokenizer.CheckUnaryMinus | CalcParts/Tokenizer.py:166-180 | always `U-` or `-`, and equal to the as-written rule wherever that rule does not raise |
| TokenizerProperties.UnaryMinusRule | CalcParts/Tokenizer.py:166-180 | `-` is binary iff the previous token is a Number, `)` or right-sided, or it is the `(-)` case; with no previous token it is `U-` |
| TokenizerProperties.TokenizeMinus | CalcParts/Tokenizer.py:108-116 | every `-` token of a tokenized expression carries the class the rule picks from the token just before it |
| Tokenizer.NextToken | CalcParts/Tokenizer.py:50-57 | the token built at i starts at i and ends (inclusively) inside the text |
| TokenizerProperties.NextTokenOk | CalcParts/Tokenizer.py:84-201 | the token at a run boundary satisfies `TokenOk`, and the next position is again a run boundary |
| TokenizerProperties.TokensOfOk | CalcParts/Tokenizer.py:49-62 | every token satisfies `TokenOk`: its text is its span; a number token is a maximal run of digits and `.`, with type Number iff `_check_number` holds; an invalid token is a maximal run outside the valid set, Invalid_Char iff of length 1; any other token is one character; an operator token's descriptor is the shared one for its key, its class matching the character (`-` is `U-` or `-`) |
| TokenizerProperties.EmptyInput | CalcParts/Tokenizer.py:45-65 | a text that cleans to empty yields no token and exactly one Empty_Input_Error; otherwise at least one token and no Empty_Input_Error |
| TokenizerProperties.DiagnosticsAreLexical | CalcParts/Tokenizer.py:57-61 | the scan records only Number_Error, Invalid_Char_Error and Invalid_Chars_Error |
| TokenizerProperties.ScanTiles | CalcParts/Tokenizer.py:49-62 | the scanned tokens tile the text from i to its end |
| TokenizerProperties.TokensTileCleanedText | CalcParts/Tokenizer.py:49-62 | the first token starts at 0; each later one starts right after the previous one's inclusive end; the last ends at len-1; every character lies in exactly one token |
| TokenizerProperties.OneDiagnosticPerErrorToken | CalcParts/Tokenizer.py:57-61 | one diagnostic per error token, in token order, with the token's error type and start position |
| TokenizerProperties.NoDiagnosticsIffNoErrorTokens | CalcParts/Tokenizer.py:57-61 | nothing is recorded iff no token is an error token |
| TokenizerProperties.TokenizeDiagnostics | CalcParts/Tokenizer.py:49-62 | the diagnostic count equals the error-token count; none iff no error token; positions strictly increase, so scanning went on past each error |
| Tokenizer.Tokenizer.constructor | CalcParts/Tokenizer.py:16-36 | the token list starts empty, on the given handler |
| Tokenizer.Tokenizer.ClearTokenizer | CalcParts/Tokenizer.py:160-164 | the token list is empty |
| Tokenizer.Tokenizer.TokenizeExpression | CalcParts/Tokenizer.py:38-66 | `crashed` iff the as-written scan raises IndexError (`TokenizeCrashes`); otherwise the token list grows by exactly `TokensOf` and the error list by exactly `DiagnosticsOf` |
| Tokenizer.Tokenizer.ScanAll | CalcParts/Tokenizer.py:49-62 | `crashed` iff some iteration raises (`ScanCrashes`); otherwise the loop appends `ScanFrom(cleaned, 0, last)` and exactly its diagnostics |
| Tokenizer.Tokenizer.ScanOne | CalcParts/Tokenizer.py:50-62 | one iteration of the scan loop: `crashed` iff `NextTokenAsWritten` is None (the state after the raise is left open, as for the other methods that raise); otherwise it appends the next scanned token and exactly that token's diagnostic, and the position moves past the token |
| Tokenizer.Tokenizer.NextTokenAt | CalcParts/Tokenizer.py:52-55 | `crashed` iff `_handle_operator` raises on the '-' here (`NextTokenAsWritten` is None); otherwise dispatching on the character type yields `NextToken` |
| Tokenizer.NextTokenAsWritten | CalcParts/Tokenizer.py:52-55 | one loop iteration as written: None iff the character is '-', the previous token is '(', the text has at least 3 characters and the '-' is its last; otherwise the guarded `NextToken` |
| TokenizerProperties.ScanCrashesAt | CalcParts/Tokenizer.py:49-62 | the scan from a token boundary raises iff the text (length ≥ 3) ends in '-' and the token before that '-' is '(' |
| TokenizerProperties.TokenizeCrashesIff | CalcParts/Tokenizer.py:166-173 | `tokenize_expression` raises IndexError iff the cleaned text has at least 3 characters and ends in "(-" |
| Tokenizer.Tokenizer.HandleNumber | CalcParts/Tokenizer.py:84-99 | the maximal number run, typed by `_check_number` |
| Tokenizer.Tokenizer.GetNumberToken | CalcParts/Tokenizer.py:128-141 | returns the run's text and its inclusive end index |
| Tokenizer.Tokenizer.HandleInvalidChar | CalcParts/Tokenizer.py:182-201 | the maximal invalid run, Invalid_Char for one character and Invalid_Chars for more |
| Converter.OpeningParenErrors | CalcParts/Converter.py:99-119 | equals the as-written check wherever that check does not raise |
| ConverterProperties.MidPlacementRule | CalcParts/Converter.py:202-226 | a mid operator records nothing iff the previous token is a Number, `)` or right-sided and the next is a Number, `(` or left-sided; otherwise one Missing_Operands_Error at its position |
| ConverterProperties.LeftPlacementRule | CalcParts/Converter.py:238-300 | a left-sided operator with no next token gets Missing_Operand_Error; with the next token not `U-`, Number or `(`, or a valid previous operand, it gets Invalid_Unary_Usage_Error; otherwise nothing; the flag is untouched |
| ConverterProperties.RightPlacementRule | CalcParts/Converter.py:302-324 | the mirror rule for right-sided operators |
| ConverterProperties.StepOnOperator | CalcParts/Converter.py:42-43 | an operator step records exactly the placement check's diagnostic and sets the flag as the check says |
| ConverterProperties.MissingOperandsSuppressesNext | CalcParts/Converter.py:208-231 | after a Missing_Operands_Error whose next token is a mid operator, the flag is set; that operator's check records nothing and clears the flag |
| ConverterProperties.HitFlagClearedByConvert | CalcParts/Converter.py:194-231 | a conversion that starts with the flag false ends with it false, so `clear_converter` leaving it alone never carries it to the next expression |
| Converter.ConvertSpec | CalcParts/Converter.py:31-49 | the reference definition of `convert` (the loop over all tokens, then the end-of-input step, with the guarded opening-paren check); its own contract: the stack is left empty unless a '(' remains on it. It is what `convert` does on every list `ConvertCrashes` rejects (no trailing '('); its other properties are the lemmas `ConvertKeepsShapes`, `ConvertKeepsNumberOrder`, `EndInputRule` and `HitFlagClearedByConvert` |
| Converter.InvalidParenErrorsAsWritten | CalcParts/Converter.py:85-119 | `_check_invalid_paren` as written: None iff the token is '(' and the last one; otherwise exactly the guarded errors |
| ConverterProperties.ConvertCrashesIff | CalcParts/Converter.py:31-49 | `convert` raises iff the token list is non-empty and ends with '(' |
| ConverterProperties.PopHigherShape | CalcParts/Converter.py:152-156 | the pop loop moves a top segment of the stack to the output in LIFO order; every popped token is no `(` and has precedence ≥ the incoming one; it stops exactly when the next pop is not allowed (including on an empty output) |
| ConverterProperties.SignMinusPushed | CalcParts/Converter.py:148-150 | a sign minus pushes the precedence-7 `U-` token, records its index, and pops nothing |
| ConverterProperties.SignTokenOutranks | CalcParts/Converter.py:29 | the sign token outranks every registered operator |
| ConverterProperties.SignMinusWithoutList | CalcParts/Converter.py:373-393 | from an empty index list, a `U-` is a sign minus iff a previous token exists and it is either a sign minus itself or neither `(` nor `U-` |
| ConverterProperties.SignedBelow | CalcParts/Converter.py:373-393 | only indexes of tokens already handled are recorded |
| ConverterProperties.ParenAdjacency | CalcParts/Converter.py:85-130 | Invalid_Before_Open_Paren iff `(` follows a Number or `!`; Invalid_Empty_Paren iff `(` is followed by `)`; Invalid_After_Close_Paren iff `)` is followed by a Number or `U-`; at most two |
| ConverterProperties.PopToOpenShape | CalcParts/Converter.py:74-78 | `)` moves the tokens above the nearest `(` to the output in LIFO order and drops that `(` |
| ConverterProperties.CloseWithoutOpen | CalcParts/Converter.py:79-83 | a `)` with no `(` stacked records Missing_Open_Paren_Error after its adjacency errors, changing nothing else |
| ConverterProperties.EndInputRule | CalcParts/Converter.py:158-174 | with a `(` stacked, the end records the errors and leaves output and stack as they are; without one, the stack is drained to the output in LIFO order |
| ConverterProperties.OpenParenErrorsAreTheOpens | CalcParts/Converter.py:162-171 | exactly one Missing_Close_Paren_Error per stacked `(`, bottom to top, at its position |
| ConverterProperties.ConvertKeepsShapes | CalcParts/Converter.py:31-49 | the stack holds only operators and `(`; the postfix output holds only numbers and operators |
| ConverterProperties.ConvertKeepsNumberOrder | CalcParts/Converter.py:39-58 | the number tokens of the output are the number tokens of the input, in input order |
| Converter.Converter.constructor | CalcParts/Converter.py:22-29 | empty lists and a false flag, on the given handler |
| Converter.Converter.ClearConverter | CalcParts/Converter.py:194-200 | output, stack and sign-minus indexes are empty; the flag is kept |
| Converter.Converter.Convert | CalcParts/Converter.py:31-49 | `crashed` iff `ConvertCrashes`; otherwise the new state is exactly `ConvertSpec` of the old one |
| Converter.Converter.HandleNumber | CalcParts/Converter.py:53-58 | appends the token to the output; nothing else changes |
| Converter.Converter.CheckOperatorPlacement | CalcParts/Converter.py:202-236 | the new state is exactly `PlacementSpec` |
| Converter.Converter.HandleUnaryOpErrors | CalcParts/Converter.py:238-263 | records exactly one Invalid_Unary_Usage or Missing_Operand diagnostic |
| Converter.Converter.CheckForSignMinus | CalcParts/Converter.py:373-393 | returns `IsSignMinus`, recording the index exactly when true |
| Converter.Converter.HandleOperator | CalcParts/Converter.py:142-156 | the new state is exactly `OperatorSpec` |
| Converter.Converter.CheckListForParen | CalcParts/Converter.py:132-140 | true iff a `(` is on the stack |
| Converter.Converter.CheckInvalidParen | CalcParts/Converter.py:85-97 | `crashed` iff a '(' has no next token; otherwise records exactly the adjacency errors of the token |
| Converter.Converter.HandleParen | CalcParts/Converter.py:60-83 | `crashed` iff its adjacency check raises; otherwise the new state is exactly `ParenSpec` |
| Converter.Converter.HandleEndInput | CalcParts/Converter.py:158-174 | the new state is exactly `EndInputSpec` |
| Evaluator.ParseNumber | Evaluator.py:103 | on digit/`.` texts, `float()` succeeds iff there is at most one `.` and at least one digit; its value is never negative |
| EvaluatorProperties.ParseNatText | Evaluator.py:103 | `float` of a natural's decimal text is that natural |
| EvaluatorProperties.ParseDecimal | Evaluator.py:103 | `float(a + "." + b)` is a + b / 10^len(b) |
| EvaluatorProperties.TokenizedNumberParses | Evaluator.py:98-103 | every Number token the tokenizer produces is accepted by `float()` |
| Evaluator.ClassifyUnary | Evaluator.py:70-80 | InvalidFactorial, LargeNumber, InvalidHash and SmallNumber each map to the error type of the same name; every other exception maps to Safe_Guard_Error |
| Evaluator.ClassifyBinary | Evaluator.py:88-96 | ZeroDivision maps to Zero_Div, InvalidPower to Zero_Pow, PowerOverflow to Pow_Overflow; every other exception maps to Safe_Guard_Error |
| EvaluatorProperties.NumberPushesItsValue | Evaluator.py:98-103 | every Number token the tokenizer builds parses, and pushes the value `float()` reads from its text: the stack grows by one; the flag and errors are unchanged |
| EvaluatorProperties.NatNumberPushesItsValue | Evaluator.py:98-103 | a Number token spelling a natural n pushes n |
| EvaluatorProperties.BinaryOperands | Evaluator.py:82-96 | the top is the right operand and the entry below it the left; on success both are replaced by f(left, right); on failure both are gone, nothing is pushed, and one diagnostic is recorded with the fatal flag set |
| EvaluatorProperties.MinusOperandOrder | Evaluator.py:83-87 | `a b -` leaves a - b |
| EvaluatorProperties.DivisionByZeroReported | Evaluator.py:88-89 | `a 0 /` drops both operands and records Zero_Div_Error, fatally |
| EvaluatorProperties.UnaryOperand | Evaluator.py:65-80 | a unary operator replaces the top by its result, or drops it and records one diagnostic with the fatal flag set |
| EvaluatorProperties.NegativeFactorialReported | Evaluator.py:70-71 | `x !` with negative x records Invalid_Factorial_Error |
| EvaluatorProperties.MissingOperandsCrash | Evaluator.py:67-84 | an operator with too few stacked values raises IndexError (uncaught) |
| EvaluatorProperties.FatalSkipsTheRest | Evaluator.py:31-32 | once the fatal flag is set, every remaining token is skipped and the state is unchanged |
| EvaluatorProperties.AtMostOneError | Evaluator.py:26-56 | from a non-fatal state a run keeps the earlier errors and adds at most one: exactly one iff it ends fatal |
| EvaluatorProperties.EvalAppend | Evaluator.py:31-37 | evaluating a + b is evaluating a, then b from a's final state |
| EvaluatorProperties.PostfixComputesValue | Evaluator.py:26-103 | for the postfix form of any well-formed expression tree: the run pushes exactly the tree's value, or ends fatal with exactly the diagnostic of its first failing operator (left to right); it never raises |
| EvaluatorProperties.FinalOfKeepsValue | Evaluator.py:45-46 | the returned value equals the float, and is an int iff the float is integral |
| Evaluator.Evaluator.constructor | Evaluator.py:21-24 | empty stack and a false flag, on the given handler |
| Evaluator.Evaluator.Eval | Evaluator.py:26-37 | `crashed` iff `EvalSpec` raises; otherwise the new state is exactly `EvalSpec` of the old one |
| Evaluator.Evaluator.HandleNumberToken | Evaluator.py:98-103 | the new state is exactly `NumberStep` |
| Evaluator.Evaluator.SetError | Evaluator.py:49-56 | appends one diagnostic and sets the fatal flag; the stack is unchanged |
| Evaluator.Evaluator.HandleOperatorToken | Evaluator.py:58-96 | the new state is exactly `EvalStep`, or `crashed` where that raises |
| Evaluator.Evaluator.GetFinal | Evaluator.py:41-47 | pops the top and returns it, as an int when integral; an empty stack is an IndexError (None) and changes nothing |
| Evaluator.Evaluator.ClearEvaluator | Evaluator.py:105-110 | empty stack and a false fatal flag |
| CalcHandler.Calculator.constructor | CalcHandler.py:13-17 | three fresh stages on one fresh, empty error list |
| CalcHandler.Calculator.ClearValues | CalcHandler.py:62-69 | empty token list, empty error list, cleared converter keeping its flag, cleared evaluator |
| CalcHandler.Calculator.RunSingleExp | CalcHandler.py:44-60 | the result is exactly `RunSingleExpSpec`; a run that starts with the converter flag false, and whose conversion does not raise, ends with it false |
| CalcHandler.Calculator.ConvertAndEvaluate | CalcHandler.py:54-56 | convert, gate, evaluate, gate, `get_final`: the result is exactly `AfterLexing`; the flag stays false when it starts false and the conversion does not raise |
| CalcHandler.RunSingleExpSpec | CalcHandler.py:44-60 | `Crash` when the tokenizer raises; otherwise the tokenizer's errors when there are any; a reported list is never empty |
| CalcHandler.AfterLexing | CalcHandler.py:54-56 | `Crash` when `convert` raises; otherwise the converter's errors when there are any; a reported list is never empty |
| CalcHandler.EvalOutcome | CalcHandler.py:55-56 | a report carries exactly the evaluator's non-empty errors; an answer iff the evaluator neither raised nor recorded an error and left a value, which is `get_final` of the top |
| CalcProperties.EmptyExpressionReported | CalcHandler.py:44-60 | a whitespace-only expression ends with exactly one Empty_Input_Error |
| CalcProperties.LexicalErrorsStopTheRun | CalcHandler.py:44-60 | any tokenizer error stops the run with exactly the tokenizer's errors, all lexical, unless the tokenizer raised first |
| CalcProperties.EvaluatorReportsOneError | CalcHandler.py:44-60 | when the first two stages pass, a reported run carries exactly one error |
| CalcProperties.AnswerHasNoErrors | CalcHandler.py:44-60 | a run that returns a value recorded no error in any stage |
| CalcProperties.OnePlusTwo | CalcHandler.py:44-60 | "1+2" returns the int 3 (one worked example) |
| CalcProperties.TrailingOpenMinusCrashes | CalcHandler.py:44-60 | a text whose cleaned form ends in "(-" (length ≥ 3) ends the run in `Crash` |
| CalcProperties.TrailingOpenParenCrashes | CalcHandler.py:44-60 | a text that passes the tokenizer and whose cleaned form ends in '(' ends the run in `Crash` |
| TokenizerProperties.MinusAfterOpenAtEndCrashesAsWritten | CalcParts/Tokenizer.py:172-173 | as written, the `-` ending "1+(-" reads past the end of the text |
| TokenizerProperties.MinusAfterOpenAtEndIsUnary | CalcParts/Tokenizer.py:166-180 | guarded, that `-` is a `U-` token, and the scan ends there |
| ConverterProperties.LoneOpenParenCrashesAsWritten | CalcParts/Converter.py:112 | as written, the `(` that ends the token list is checked against a missing next token |
| ConverterProperties.LoneOpenParenReported | CalcParts/Converter.py:158-171 | guarded, "(" records exactly one Missing_Close_Paren_Error at 0, leaving the `(` stacked and the output empty |

## Left out

- Error messages: the wording and the message-building helper (`_create_error_msg_with_pos`) are not modelled. A diagnostic keeps only its type and the first position the message prints.
- Tokenizer.Token: in the source, the value of a Number_Error or invalid token is its error message. The model keeps the token's raw text instead. Such tokens always stop the run at the first gate, so the value is never read.
- Floating point: values are exact reals. Rounding, infinities and NaN are not modelled, nor the int/float difference of factorial's result (an exact integer both ways). A product or sum that would overflow to `inf` in Python is an ordinary real here.
- Operators.FloatLib: `math.pow` and `str(float)` are parameters, so the model fixes no table of their outcomes. Power's exception mapping and the digit sum over the `str` text are modelled.
- Evaluator.ParseNumber: covers only texts made of digits and `.`. Those are the only texts a Number token can carry (`TokenizedNumberParses`). Python's other float syntaxes (exponents, `inf`, underscores, signs) are not modelled.
- The error gate: `check_errors` lives in `ErrorParts/ErrorHandler.py`, which is not part of this model, and so does `get_errors`. The gate is modelled as "a non-empty error list stops the run with that list", the StopIteration path of `run_single_exp`.
- The state after an uncaught exception is not described. This covers an IndexError from a pop, a rejected `float()`, and the two findings below. `TokenizeExpression`, `Convert` and `Eval` report `crashed`, and no contract constrains the partly updated lists, stack or flag. The real program exits there, since `run_calc` catches neither exception.
- `run_calc`: the prompt loop, the `exit`/`op` commands, `OutputHandler`, `show_errors` printing, and the KeyboardInterrupt/EOFError handling are console I/O. They are not modelled.
- `OpData.get_op_classes` and the operator descriptions are not modelled: nothing in the pipeline reads them. The descriptors are values, so "the same shared instance" is modelled as "equal to the one registered descriptor".
- Evaluator.py imports the root-level `Operators`/`Errors` modules. It is modelled as wired to the `CalcParts` operators, as `CalcHandler.py` uses it. The root-level `Converter.py` and `Operators.py` variants are not modelled.

## Findings

| source | as written | input that shows it | evidently intended | confidence | as-written member | corrected member |
|---|---|---|---|---|---|---|
| CalcParts/Tokenizer.py:172-173 | `cleaned_exp[cur_pos + 1]` is read without a bounds check when `-` follows `(` in a text of length ≥ 3 | "1+(-" raises IndexError in the tokenizer | the final `-` is unary; the converter then reports its missing operand | not executed | TokenizerProperties.MinusAfterOpenAtEndCrashesAsWritten | TokenizerProperties.MinusAfterOpenAtEndIsUnary |
| CalcParts/Converter.py:112 | `next_token.get_token_type()` is called when `(` is the last token and `next_token` is None | "(" raises AttributeError in the converter | no empty-paren check without a next token, then one Missing_Close_Paren_Error | not executed | ConverterProperties.LoneOpenParenCrashesAsWritten | ConverterProperties.LoneOpenParenReported |
