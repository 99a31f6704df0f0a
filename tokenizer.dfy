/**
 * The lexer (CalcParts/Tokenizer.py): strips whitespace, then scans the
 * cleaned text left to right, one token per maximal number run, operator,
 * parenthesis or maximal run of invalid characters. Error tokens are kept in
 * the token list and each one records a diagnostic; scanning never stops early.
 */
module Tokenizer {
  import opened Errors
  import opened Operators
  import opened ErrorHandling

  /**
   * `_token_type` together with `_token_value`: a number, an operator with its
   * descriptor (its type string is KeyText(op.cls)), a parenthesis, or one of
   * the three lexical error types.
   */
  datatype TokenKind =
    | NumberTok | OpTok(op: Operator) | OpenParen | CloseParen
    | NumberErrorTok | InvalidCharTok | InvalidCharsTok

  /**
   * A token: its kind, the characters it covers, and its inclusive
   * `(start, end)` positions in the cleaned text.
   */
  datatype Token = Token(kind: TokenKind, text: string, start: int, end: int)

  predicate IsNumber(t: Token) { t.kind.NumberTok? }
  predicate IsOpen(t: Token) { t.kind.OpenParen? }
  predicate IsClose(t: Token) { t.kind.CloseParen? }
  predicate IsOp(t: Token) { t.kind.OpTok? }
  /** Token type "U-". */
  predicate IsUMinus(t: Token) { t.kind.OpTok? && t.kind.op.cls.UMinusOp? }
  /** Token type "!". */
  predicate IsFactorial(t: Token) { t.kind.OpTok? && t.kind.op.cls.FactorialOp? }
  /** `isinstance(value, IRightSidedOp)`. */
  predicate IsRightSidedTok(t: Token) { t.kind.OpTok? && IsRightSided(t.kind.op) }
  /** `isinstance(value, ILeftSidedOp)`. */
  predicate IsLeftSidedTok(t: Token) { t.kind.OpTok? && IsLeftSided(t.kind.op) }
  predicate IsErrorToken(t: Token) {
    t.kind.NumberErrorTok? || t.kind.InvalidCharTok? || t.kind.InvalidCharsTok?
  }

  function LastOf(ts: seq<Token>): Option<Token> {
    if ts == [] then None else Some(ts[|ts| - 1])
  }

  // ------------------------------------------------------- character classes

  /** The characters `str.split()` treats as whitespace. */
  predicate IsWhitespace(c: char) {
    || c == ' ' || 9 <= c as int <= 13 || 0x1c <= c as int <= 0x1f
    || c as int == 0x85 || c as int == 0xa0 || c as int == 0x1680
    || 0x2000 <= c as int <= 0x200a || c as int == 0x2028 || c as int == 0x2029
    || c as int == 0x202f || c as int == 0x205f || c as int == 0x3000
  }

  /** `''.join(exp.split())`: the text with every whitespace character removed. */
  function Clean(exp: string): (s: string)
    ensures |s| <= |exp|
    ensures forall k :: 0 <= k < |s| ==> !IsWhitespace(s[k])
  {
    if exp == [] then []
    else (if IsWhitespace(exp[0]) then [] else [exp[0]]) + Clean(exp[1..])
  }

  /** `_valid_tokens`. */
  const ValidTokens: string := "1234567890.+-*/&^%$@~!()#"
  /** `_number_pattern`. */
  const NumberPattern: string := "1234567890."

  /** Membership in `_number_pattern`, as NumberPatternChars shows. */
  predicate IsNumberChar(c: char) { '0' <= c <= '9' || c == '.' }

  /** Membership in `_valid_tokens`, as ValidTokensChars shows. */
  predicate IsValidChar(c: char) { IsNumberChar(c) || ClassOfChar(c).Some? || c == '(' || c == ')' }

  lemma NumberPatternChars(c: char)
    ensures c in NumberPattern <==> IsNumberChar(c)
  {
    if IsNumberChar(c) {
      assert c == NumberPattern[if c == '.' then 10 else if c == '0' then 9 else c as int - '1' as int];
    }
  }

  lemma ValidTokensChars(c: char)
    ensures c in ValidTokens <==> IsValidChar(c)
  {
    var others := "+-*/&^%$@~!()#";
    NumberPatternChars(c);
    assert ValidTokens == NumberPattern + others;
    assert c in others <==> ClassOfChar(c).Some? || c == '(' || c == ')';
  }

  datatype CharType = NumberChar | OperatorChar | ParenChar | InvalidChar

  /** `_get_cur_char_type` (`[c] in GetOpKeys()` is ClassOfChar(c).Some?, by CharKeys). */
  function GetCurCharType(c: char): CharType {
    if IsNumberChar(c) then NumberChar
    else if ClassOfChar(c).Some? then OperatorChar
    else if c == '(' || c == ')' then ParenChar
    else InvalidChar
  }

  /** The last index of the run `_get_number_token` collects from i. */
  function NumberRunEnd(s: string, i: nat): (e: nat)
    requires i < |s|
    ensures i <= e < |s|
    ensures forall k :: i < k <= e ==> IsNumberChar(s[k])
    ensures e + 1 == |s| || !IsNumberChar(s[e + 1])
    decreases |s| - i
  {
    if i + 1 < |s| && IsNumberChar(s[i + 1]) then NumberRunEnd(s, i + 1) else i
  }

  /** The last index of the run `_handle_invalid_char` collects from i. */
  function InvalidRunEnd(s: string, i: nat): (e: nat)
    requires i < |s|
    ensures i <= e < |s|
    ensures forall k :: i < k <= e ==> !IsValidChar(s[k])
    ensures e + 1 == |s| || IsValidChar(s[e + 1])
    decreases |s| - i
  {
    if i + 1 < |s| && !IsValidChar(s[i + 1]) then InvalidRunEnd(s, i + 1) else i
  }

  function CountChar(s: string, c: char): nat {
    if s == [] then 0 else (if s[0] == c then 1 else 0) + CountChar(s[1..], c)
  }

  /** `_check_number`: at most one '.', and neither the first nor the last character is '.'. */
  predicate CheckNumber(text: string) {
    && CountChar(text, '.') <= 1
    && !(|text| > 0 && text[0] == '.')
    && !(|text| > 0 && text[|text| - 1] == '.')
  }

  /**
   * `_check_unary_minus` for the '-' at index i, given the last token already
   * in the list, AS WRITTEN: None where `cleaned_exp[cur_pos + 1]` is read past
   * the end of the text and Python raises IndexError.
   */
  function CheckUnaryMinusAsWritten(s: string, i: nat, last: Option<Token>): (r: Option<OpClass>)
    requires i < |s|
  {
    if last.Some? && IsOpen(last.value) && |s| >= 3 && i + 1 >= |s| then None
    else if last.Some? && IsOpen(last.value) && |s| >= 3 && s[i + 1] == ')' then Some(MinusOp)
    else if last.None? || (!IsNumber(last.value) && !IsClose(last.value) && !IsRightSidedTok(last.value)) then Some(UMinusOp)
    else Some(MinusOp)
  }

  /** `_check_unary_minus` with the index guarded: a '-' that ends the text is never the "(-)" case. */
  function CheckUnaryMinus(s: string, i: nat, last: Option<Token>): (cls: OpClass)
    requires i < |s|
    ensures cls.UMinusOp? || cls.MinusOp?
    ensures CheckUnaryMinusAsWritten(s, i, last).Some? ==> CheckUnaryMinusAsWritten(s, i, last).value == cls
  {
    if last.Some? && IsOpen(last.value) && |s| >= 3 && i + 1 < |s| && s[i + 1] == ')' then MinusOp
    else if last.None? || (!IsNumber(last.value) && !IsClose(last.value) && !IsRightSidedTok(last.value)) then UMinusOp
    else MinusOp
  }

  // ---------------------------------------------------------- token builders

  /** The token `_handle_number` yields at i. */
  function NumberToken(s: string, i: nat): Token
    requires i < |s|
  {
    var e := NumberRunEnd(s, i);
    var text := s[i..e + 1];
    Token(if CheckNumber(text) then NumberTok else NumberErrorTok, text, i, e)
  }

  /** The token `_handle_operator` yields at i. */
  function OperatorToken(s: string, i: nat, last: Option<Token>): Token
    requires i < |s| && ClassOfChar(s[i]).Some?
  {
    var cls := if s[i] == '-' then CheckUnaryMinus(s, i, last) else ClassOfChar(s[i]).value;
    Token(OpTok(OperatorData(cls)), [s[i]], i, i)
  }

  /** The token `_handle_paren` yields at i. */
  function ParenToken(s: string, i: nat): Token
    requires i < |s|
  {
    Token(if s[i] == '(' then OpenParen else CloseParen, [s[i]], i, i)
  }

  /** The token `_handle_invalid_char` yields at i. */
  function InvalidToken(s: string, i: nat): Token
    requires i < |s|
  {
    var e := InvalidRunEnd(s, i);
    Token(if e == i then InvalidCharTok else InvalidCharsTok, s[i..e + 1], i, e)
  }

  /** One iteration of the scan loop: dispatch on the character type at i. */
  function NextToken(s: string, i: nat, last: Option<Token>): (t: Token)
    requires i < |s|
    ensures t.start == i <= t.end < |s|
  {
    match GetCurCharType(s[i])
    case NumberChar => NumberToken(s, i)
    case OperatorChar => OperatorToken(s, i, last)
    case ParenChar => ParenToken(s, i)
    case InvalidChar => InvalidToken(s, i)
  }

  /** The tokens the scan loop appends from position i, `last` being the list's last token. */
  function ScanFrom(s: string, i: nat, last: Option<Token>): seq<Token>
    requires i <= |s|
    decreases |s| - i
  {
    if i == |s| then []
    else
      var t := NextToken(s, i, last);
      [t] + ScanFrom(s, t.end + 1, Some(t))
  }

  /**
   * One iteration of the scan loop AS WRITTEN: None where `_check_unary_minus`
   * reads `cleaned_exp[cur_pos + 1]` past the end and Python raises IndexError.
   */
  function NextTokenAsWritten(s: string, i: nat, last: Option<Token>): (r: Option<Token>)
    requires i < |s|
    ensures r.Some? ==> r.value == NextToken(s, i, last)
    ensures r.None? <==> s[i] == '-' && last.Some? && IsOpen(last.value) && |s| >= 3 && i + 1 == |s|
  {
    if s[i] == '-' && CheckUnaryMinusAsWritten(s, i, last).None? then None
    else Some(NextToken(s, i, last))
  }

  /** Whether the scan loop, as written, raises IndexError at position i or later. */
  predicate ScanCrashes(s: string, i: nat, last: Option<Token>)
    requires i <= |s|
    decreases |s| - i
  {
    if i == |s| then false
    else
      var t := NextToken(s, i, last);
      NextTokenAsWritten(s, i, last).None? || ScanCrashes(s, t.end + 1, Some(t))
  }

  /** Whether `tokenize_expression`, as written, raises IndexError. */
  predicate TokenizeCrashes(exp: string, last: Option<Token>) {
    Clean(exp) != [] && ScanCrashes(Clean(exp), 0, last)
  }

  /** The diagnostic an error token records. */
  function DiagnosticOf(t: Token): Option<Diagnostic> {
    match t.kind
    case NumberErrorTok => Some(Diagnostic(NumberError, t.start))
    case InvalidCharTok => Some(Diagnostic(InvalidCharError, t.start))
    case InvalidCharsTok => Some(Diagnostic(InvalidCharsError, t.start))
    case _ => None
  }

  /** The diagnostics a token sequence records, in token order. */
  function Diagnostics(ts: seq<Token>): seq<Diagnostic> {
    if ts == [] then []
    else (if DiagnosticOf(ts[0]).Some? then [DiagnosticOf(ts[0]).value] else []) + Diagnostics(ts[1..])
  }

  /** The tokens `tokenize_expression` appends, the list's last token before the call being `last`. */
  function TokensOf(exp: string, last: Option<Token>): seq<Token> {
    var s := Clean(exp);
    if s == [] then [] else ScanFrom(s, 0, last)
  }

  /** The diagnostics `tokenize_expression` records. */
  function DiagnosticsOf(exp: string, last: Option<Token>): seq<Diagnostic> {
    if Clean(exp) == [] then [Diagnostic(EmptyInputError, NoPos)]
    else Diagnostics(TokensOf(exp, last))
  }

  lemma {:induction false} DiagnosticsAppend(a: seq<Token>, b: seq<Token>)
    ensures Diagnostics(a + b) == Diagnostics(a) + Diagnostics(b)
  {
    if a == [] {
      assert a + b == b;
    } else {
      var ab := a + b;
      assert ab[0] == a[0];
      assert ab[1..] == a[1..] + b;
      var h := if DiagnosticOf(a[0]).Some? then [DiagnosticOf(a[0]).value] else [];
      assert Diagnostics(ab) == h + Diagnostics(a[1..] + b);
      assert Diagnostics(a) == h + Diagnostics(a[1..]);
      DiagnosticsAppend(a[1..], b);
    }
  }

  lemma {:induction false} DiagnosticsCons(t: Token, rest: seq<Token>)
    ensures Diagnostics([t] + rest) == (if DiagnosticOf(t).Some? then [DiagnosticOf(t).value] else []) + Diagnostics(rest)
  {
    assert ([t] + rest)[0] == t;
    assert ([t] + rest)[1..] == rest;
  }

  /** `rest` is what the scan loop still appends from position pos, `last` being the list's last token. */
  predicate ScanRest(s: string, pos: nat, last: Option<Token>, rest: seq<Token>) {
    pos <= |s| && rest == Remaining(s, pos, last)
  }

  /** `ScanFrom` under a name of its own, so that a proof step and the fact it establishes share one term. */
  function Remaining(s: string, pos: nat, last: Option<Token>): seq<Token>
    requires pos <= |s|
  {
    ScanFrom(s, pos, last)
  }

  /** What is left at i is the token scanned there followed by what is left after it. */
  lemma RemainingStep(s: string, i: nat, last: Option<Token>)
    requires i < |s|
    ensures var t := NextToken(s, i, last);
      Remaining(s, i, last) == [t] + Remaining(s, t.end + 1, Some(t))
  {
  }

  /**
   * One loop iteration: the token scanned at `pos` is the head of what was left,
   * and appending it to the list keeps both invariants on the token list.
   */
  lemma ScanAdvance(s: string, pos: nat, tokens: seq<Token>, tokens': seq<Token>,
                    todo: seq<Token>, rest: seq<Token>, t: Token, all: seq<Token>)
    requires ScanRest(s, pos, LastOf(tokens), todo) && pos < |s| && t == NextToken(s, pos, LastOf(tokens))
    requires tokens + todo == all
    requires tokens' == tokens + [t] && rest == todo[1..]
    ensures todo == [t] + rest
    ensures ScanRest(s, t.end + 1, LastOf(tokens'), rest)
    ensures tokens' + rest == all
  {
    assert todo == [t] + ScanFrom(s, t.end + 1, Some(t));
    LastOfAppend(tokens, t);
    ShiftOne(tokens, t, todo, rest, all);
  }

  /** The scan loop's invariant on the diagnostics survives recording the diagnostic of `t`, if any. */
  lemma RecordStep(errors: seq<Diagnostic>, errors': seq<Diagnostic>, t: Token, rest: seq<Token>, all: seq<Diagnostic>)
    requires errors + Diagnostics([t] + rest) == all
    requires errors' == if DiagnosticOf(t).Some? then errors + [DiagnosticOf(t).value] else errors
    ensures errors' + Diagnostics(rest) == all
  {
    DiagnosticsCons(t, rest);
    if DiagnosticOf(t).Some? {
      assert errors + ([DiagnosticOf(t).value] + Diagnostics(rest)) == (errors + [DiagnosticOf(t).value]) + Diagnostics(rest);
    } else {
      assert [] + Diagnostics(rest) == Diagnostics(rest);
    }
  }

  lemma LastOfAppend(ts: seq<Token>, t: Token)
    ensures LastOf(ts + [t]) == Some(t)
  {
    assert (ts + [t])[|ts|] == t;
  }

  lemma ShiftOne<T>(done: seq<T>, t: T, todo: seq<T>, rest: seq<T>, all: seq<T>)
    requires todo == [t] + rest && done + todo == all
    ensures (done + [t]) + rest == all
  {
    assert done + ([t] + rest) == (done + [t]) + rest;
  }

  /** Growing a slice by the next character. */
  lemma SliceGrow(s: string, a: nat, b: nat)
    requires a <= b < |s|
    ensures s[a..b] + [s[b]] == s[a..b + 1]
  {
    assert forall k :: 0 <= k < b - a ==> (s[a..b] + [s[b]])[k] == s[a..b + 1][k];
  }

  // -------------------------------------------------------------------- class

  class Tokenizer {
    const handler: ErrorHandler
    /** `_token_list`: every token scanned since the last clear, error tokens included. */
    var tokenList: seq<Token>

    constructor (h: ErrorHandler)
      ensures handler == h && tokenList == []
    {
      handler := h;
      tokenList := [];
    }

    /** `get_tokens`. */
    function GetTokens(): seq<Token>
      reads this
    {
      tokenList
    }

    /** `clear_tokenizer`. */
    method ClearTokenizer()
      modifies this
      ensures tokenList == []
    {
      tokenList := [];
    }

    /**
     * `tokenize_expression` (the final `check_errors` call is the caller's gate).
     * `crashed` is the IndexError of the as-written unary-minus check.
     */
    method TokenizeExpression(exp: string) returns (crashed: bool)
      modifies this, handler
      ensures crashed == TokenizeCrashes(exp, LastOf(old(tokenList)))
      ensures !crashed ==> tokenList == old(tokenList) + TokensOf(exp, LastOf(old(tokenList)))
      ensures !crashed ==> handler.errors == old(handler.errors) + DiagnosticsOf(exp, LastOf(old(tokenList)))
    {
      var cleaned := Clean(exp);
      crashed := false;
      if |cleaned| != 0 {
        crashed := ScanAll(cleaned);
      } else {
        handler.AddError(Diagnostic(EmptyInputError, NoPos));
      }
    }

    /** The scan loop of `tokenize_expression` over the non-empty cleaned text. */
    method ScanAll(cleaned: string) returns (crashed: bool)
      requires |cleaned| != 0
      modifies this, handler
      ensures crashed == ScanCrashes(cleaned, 0, LastOf(old(tokenList)))
      ensures !crashed ==> tokenList == old(tokenList) + ScanFrom(cleaned, 0, LastOf(old(tokenList)))
      ensures !crashed ==> handler.errors == old(handler.errors) + Diagnostics(ScanFrom(cleaned, 0, LastOf(old(tokenList))))
    {
      ghost var tokens0 := tokenList;
      ghost var errors0 := handler.errors;
      ghost var all := ScanFrom(cleaned, 0, LastOf(tokens0));
      ghost var rest := all;
      var pos := 0;
      while pos != |cleaned|
        invariant ScanRest(cleaned, pos, LastOf(tokenList), rest)
        invariant tokenList + rest == tokens0 + all
        invariant handler.errors + Diagnostics(rest) == errors0 + Diagnostics(all)
        invariant ScanCrashes(cleaned, pos, LastOf(tokenList)) == ScanCrashes(cleaned, 0, LastOf(tokens0))
        decreases |cleaned| - pos
      {
        ghost var todo := rest;
        var next;
        next, crashed := ScanOne(cleaned, pos, todo, tokens0 + all, errors0 + Diagnostics(all));
        if crashed {
          return;
        }
        pos := next;
        rest := todo[1..];
      }
      assert rest == [];
      crashed := false;
    }

    /**
     * One iteration of the scan loop: scan the token at pos, append it, record
     * its diagnostic; or raise before appending anything.
     */
    method ScanOne(cleaned: string, pos: nat, ghost todo: seq<Token>, ghost allTokens: seq<Token>,
                   ghost allErrors: seq<Diagnostic>) returns (next: nat, crashed: bool)
      requires pos < |cleaned| && ScanRest(cleaned, pos, LastOf(tokenList), todo)
      requires tokenList + todo == allTokens
      requires handler.errors + Diagnostics(todo) == allErrors
      modifies this, handler
      ensures crashed == NextTokenAsWritten(cleaned, pos, LastOf(old(tokenList))).None?
      ensures crashed ==> ScanCrashes(cleaned, pos, LastOf(old(tokenList)))
      ensures !crashed ==> pos < next && ScanRest(cleaned, next, LastOf(tokenList), todo[1..])
      ensures !crashed ==> tokenList + todo[1..] == allTokens
      ensures !crashed ==> handler.errors + Diagnostics(todo[1..]) == allErrors
      ensures !crashed ==> ScanCrashes(cleaned, next, LastOf(tokenList)) == ScanCrashes(cleaned, pos, LastOf(old(tokenList)))
    {
      var t;
      t, crashed := NextTokenAt(cleaned, pos);
      next := pos;
      if crashed {
        return;
      }
      ghost var tokens, errors := tokenList, handler.errors;
      tokenList := tokenList + [t];
      if DiagnosticOf(t).Some? {
        handler.AddError(DiagnosticOf(t).value);
      }
      next := t.end + 1;
      ScanAdvance(cleaned, pos, tokens, tokenList, todo, todo[1..], t, allTokens);
      RecordStep(errors, handler.errors, t, todo[1..], allErrors);
    }

    /** The body of the scan loop: the handler for the character type at pos. */
    method NextTokenAt(s: string, pos: nat) returns (t: Token, crashed: bool)
      requires pos < |s|
      ensures crashed == NextTokenAsWritten(s, pos, LastOf(tokenList)).None?
      ensures !crashed ==> t == NextToken(s, pos, LastOf(tokenList))
    {
      crashed := false;
      match GetCurCharType(s[pos])
      case NumberChar => t := HandleNumber(s, pos);
      case OperatorChar =>
        crashed := s[pos] == '-' && CheckUnaryMinusAsWritten(s, pos, LastOf(tokenList)).None?;
        t := OperatorToken(s, pos, LastOf(tokenList));
      case ParenChar => t := ParenToken(s, pos);
      case InvalidChar => t := HandleInvalidChar(s, pos);
    }

    /** `_handle_number`. */
    method HandleNumber(s: string, pos: nat) returns (t: Token)
      requires pos < |s|
      ensures t == NumberToken(s, pos)
    {
      var text, e := GetNumberToken(s, pos);
      var kind := if CheckNumber(text) then NumberTok else NumberErrorTok;
      t := Token(kind, text, pos, e);
    }

    /** `_get_number_token`: the run from start, and the index of its last character. */
    method GetNumberToken(s: string, start: nat) returns (text: string, e: nat)
      requires start < |s|
      ensures e == NumberRunEnd(s, start) && text == s[start..e + 1]
    {
      var cur := start;
      text := [s[cur]];
      cur := cur + 1;
      while cur < |s| && IsNumberChar(s[cur])
        invariant start < cur <= |s|
        invariant text == s[start..cur]
        invariant NumberRunEnd(s, start) == NumberRunEnd(s, cur - 1)
        decreases |s| - cur
      {
        SliceGrow(s, start, cur);
        text := text + [s[cur]];
        cur := cur + 1;
      }
      e := cur - 1;
    }

    /** `_handle_invalid_char`: the maximal run of invalid characters from pos. */
    method HandleInvalidChar(s: string, pos: nat) returns (t: Token)
      requires pos < |s|
      ensures t == InvalidToken(s, pos)
    {
      var cur := pos;
      var kind := InvalidCharTok;
      var text := [s[cur]];
      cur := cur + 1;
      while cur < |s| && !IsValidChar(s[cur])
        invariant pos < cur <= |s|
        invariant text == s[pos..cur]
        invariant kind == if cur == pos + 1 then InvalidCharTok else InvalidCharsTok
        invariant InvalidRunEnd(s, pos) == InvalidRunEnd(s, cur - 1)
        decreases |s| - cur
      {
        SliceGrow(s, pos, cur);
        kind := InvalidCharsTok;
        text := text + [s[cur]];
        cur := cur + 1;
      }
      cur := cur - 1;
      t := Token(kind, text, pos, cur);
    }
  }
}
