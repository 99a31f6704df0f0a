/** What the scan of CalcParts/Tokenizer.py guarantees about the tokens and diagnostics it produces. */
module TokenizerProperties {
  import opened Errors
  import opened Operators
  import opened Tokenizer

  // ---------------------------------------------------------------- cleaning

  /** Text without whitespace is left as it is, so cleaning is idempotent. */
  lemma {:induction false} CleanKeepsNonWhitespace(exp: string)
    requires forall k :: 0 <= k < |exp| ==> !IsWhitespace(exp[k])
    ensures Clean(exp) == exp
  {
    if exp != [] {
      CleanKeepsNonWhitespace(exp[1..]);
      assert [exp[0]] + exp[1..] == exp;
    }
  }

  lemma CleanIdempotent(exp: string)
    ensures Clean(Clean(exp)) == Clean(exp)
  {
    CleanKeepsNonWhitespace(Clean(exp));
  }

  /** Cleaning works character by character: it distributes over concatenation. */
  lemma {:induction false} CleanAppend(a: string, b: string)
    ensures Clean(a + b) == Clean(a) + Clean(b)
  {
    if a == [] {
      assert a + b == b;
    } else {
      assert (a + b)[0] == a[0];
      assert (a + b)[1..] == a[1..] + b;
      CleanAppend(a[1..], b);
    }
  }

  // ------------------------------------------------------------- empty input

  /**
   * An input that is empty after cleaning yields no tokens and exactly one
   * Empty_Input_Error; any other input yields at least one token and no
   * Empty_Input_Error.
   */
  lemma EmptyInput(exp: string, last: Option<Token>)
    ensures Clean(exp) == [] ==> TokensOf(exp, last) == [] && DiagnosticsOf(exp, last) == [Diagnostic(EmptyInputError, NoPos)]
    ensures Clean(exp) != [] ==> |TokensOf(exp, last)| >= 1
    ensures Clean(exp) != [] ==> forall j :: 0 <= j < |DiagnosticsOf(exp, last)| ==> DiagnosticsOf(exp, last)[j].kind != EmptyInputError
  {
    if Clean(exp) != [] {
      DiagnosticsAreLexical(TokensOf(exp, last));
    }
  }

  /** Every diagnostic the scan records is Number_Error, Invalid_Char_Error or Invalid_Chars_Error. */
  lemma {:induction false} DiagnosticsAreLexical(ts: seq<Token>)
    ensures forall j :: 0 <= j < |Diagnostics(ts)| ==>
      Diagnostics(ts)[j].kind in {NumberError, InvalidCharError, InvalidCharsError}
  {
    if ts != [] {
      DiagnosticsAreLexical(ts[1..]);
    }
  }

  // ------------------------------------------------------------------ tiling

  /** ts covers positions from..to-1, each token starting right after the previous one's inclusive end. */
  ghost predicate Tiles(ts: seq<Token>, from: int, to: int)
    decreases |ts|
  {
    if ts == [] then from == to
    else ts[0].start == from && ts[0].start <= ts[0].end && Tiles(ts[1..], ts[0].end + 1, to)
  }

  lemma TilesCons(ts: seq<Token>, t: Token, rest: seq<Token>, from: int, to: int)
    requires ts == [t] + rest && t.start == from <= t.end && Tiles(rest, t.end + 1, to)
    ensures Tiles(ts, from, to)
  {
    assert ts[1..] == rest;
  }

  /** The tokens scanned from i tile the rest of the cleaned text. */
  lemma {:induction false} ScanTiles(s: string, i: nat, last: Option<Token>)
    requires i <= |s|
    ensures Tiles(ScanFrom(s, i, last), i, |s|)
    decreases |s| - i
  {
    if i < |s| {
      var t := NextToken(s, i, last);
      RemainingStep(s, i, last);
      ScanTiles(s, t.end + 1, Some(t));
      TilesCons(Remaining(s, i, last), t, Remaining(s, t.end + 1, Some(t)), i, |s|);
    }
  }

  lemma {:induction false} TilesBounds(ts: seq<Token>, from: int, to: int)
    requires Tiles(ts, from, to)
    ensures from <= to
    ensures forall k :: 0 <= k < |ts| ==> from <= ts[k].start <= ts[k].end < to
    decreases |ts|
  {
    if ts != [] {
      TilesBounds(ts[1..], ts[0].end + 1, to);
      forall k | 1 <= k < |ts| ensures from <= ts[k].start <= ts[k].end < to {
        assert ts[k] == ts[1..][k - 1];
      }
    }
  }

  /** In a tiling, each token starts right after the previous one ends, the last one ending at to - 1. */
  lemma {:induction false} TilesConsecutive(ts: seq<Token>, from: int, to: int)
    requires Tiles(ts, from, to)
    ensures ts != [] ==> ts[0].start == from && ts[|ts| - 1].end == to - 1
    ensures forall k :: 0 <= k < |ts| - 1 ==> ts[k + 1].start == ts[k].end + 1
    decreases |ts|
  {
    if ts != [] {
      var rest := ts[1..];
      TilesConsecutive(rest, ts[0].end + 1, to);
      forall k | 0 <= k < |ts| - 1 ensures ts[k + 1].start == ts[k].end + 1 {
        assert ts[k + 1] == rest[k];
        if k > 0 { assert ts[k] == rest[k - 1]; }
      }
      if rest != [] { assert ts[|ts| - 1] == rest[|rest| - 1]; }
    }
  }

  /** In a tiling, an earlier token ends before a later one starts. */
  lemma {:induction false} TilesOrdered(ts: seq<Token>, from: int, to: int, k1: int, k2: int)
    requires Tiles(ts, from, to) && 0 <= k1 < k2 < |ts|
    ensures ts[k1].end < ts[k2].start
    decreases |ts|
  {
    var rest := ts[1..];
    assert ts[k2] == rest[k2 - 1];
    if k1 == 0 {
      TilesBounds(rest, ts[0].end + 1, to);
    } else {
      assert ts[k1] == rest[k1 - 1];
      TilesOrdered(rest, ts[0].end + 1, to, k1 - 1, k2 - 1);
    }
  }

  /** In a tiling, every position lies in some token. */
  lemma {:induction false} TilesCover(ts: seq<Token>, from: int, to: int, p: int)
    requires Tiles(ts, from, to) && from <= p < to
    ensures exists k :: 0 <= k < |ts| && ts[k].start <= p <= ts[k].end
    decreases |ts|
  {
    if p > ts[0].end {
      var rest := ts[1..];
      TilesCover(rest, ts[0].end + 1, to, p);
      var k :| 0 <= k < |rest| && rest[k].start <= p <= rest[k].end;
      assert ts[k + 1] == rest[k];
    }
  }

  /** In a tiling, no position lies in two tokens. */
  lemma TilesDisjoint(ts: seq<Token>, from: int, to: int, p: int, k1: int, k2: int)
    requires Tiles(ts, from, to) && 0 <= k1 < |ts| && 0 <= k2 < |ts|
    requires ts[k1].start <= p <= ts[k1].end && ts[k2].start <= p <= ts[k2].end
    ensures k1 == k2
  {
    if k1 < k2 { TilesOrdered(ts, from, to, k1, k2); }
    if k2 < k1 { TilesOrdered(ts, from, to, k2, k1); }
  }

  /** Token k of ts contains position p. */
  predicate Covers(ts: seq<Token>, k: int, p: int)
    requires 0 <= k < |ts|
  {
    ts[k].start <= p <= ts[k].end
  }

  /** Some token of ts contains position p. */
  ghost predicate CoveredByAToken(ts: seq<Token>, p: int) {
    exists k :: 0 <= k < |ts| && Covers(ts, k, p)
  }

  /**
   * The tokens of a non-empty cleaned text: the first starts at 0, each later
   * one starts right after the previous one's inclusive end, the last ends at
   * the last character, and every character lies in exactly one token.
   */
  lemma TokensTileCleanedText(exp: string, last: Option<Token>)
    requires Clean(exp) != []
    ensures var s := Clean(exp); var ts := TokensOf(exp, last);
      && |ts| >= 1 && ts[0].start == 0 && ts[|ts| - 1].end == |s| - 1
      && (forall k :: 0 <= k < |ts| - 1 ==> ts[k + 1].start == ts[k].end + 1)
      && (forall p :: 0 <= p < |s| ==> CoveredByAToken(ts, p))
      && (forall p, k1, k2 ::
            0 <= k1 < |ts| && 0 <= k2 < |ts| && Covers(ts, k1, p) && Covers(ts, k2, p) ==> k1 == k2)
  {
    var s := Clean(exp);
    ScanTiles(s, 0, last);
    TilingFacts(ScanFrom(s, 0, last), |s|);
  }

  /** What a tiling of 0..n-1, n >= 1, says position by position. */
  lemma TilingFacts(ts: seq<Token>, n: int)
    requires Tiles(ts, 0, n) && n >= 1
    ensures && |ts| >= 1 && ts[0].start == 0 && ts[|ts| - 1].end == n - 1
      && (forall k :: 0 <= k < |ts| - 1 ==> ts[k + 1].start == ts[k].end + 1)
      && (forall p :: 0 <= p < n ==> CoveredByAToken(ts, p))
      && (forall p, k1, k2 ::
            0 <= k1 < |ts| && 0 <= k2 < |ts| && Covers(ts, k1, p) && Covers(ts, k2, p) ==> k1 == k2)
  {
    TilesConsecutive(ts, 0, n);
    forall p | 0 <= p < n
      ensures CoveredByAToken(ts, p)
    {
      TilesCover(ts, 0, n, p);
      var k :| 0 <= k < |ts| && ts[k].start <= p <= ts[k].end;
      assert Covers(ts, k, p);
    }
    forall p, k1, k2 | 0 <= k1 < |ts| && 0 <= k2 < |ts| && Covers(ts, k1, p) && Covers(ts, k2, p)
      ensures k1 == k2
    {
      TilesDisjoint(ts, 0, n, p, k1, k2);
    }
  }

  // ------------------------------------------------------------ token shapes

  predicate IsNumberKind(t: Token) { t.kind.NumberTok? || t.kind.NumberErrorTok? }
  predicate IsInvalidKind(t: Token) { t.kind.InvalidCharTok? || t.kind.InvalidCharsTok? }

  /** The span of t is a maximal run of digits and '.'. */
  ghost predicate NumberRun(s: string, t: Token)
    requires 0 <= t.start <= t.end < |s|
  {
    && (forall k :: t.start <= k <= t.end ==> IsNumberChar(s[k]))
    && (t.end + 1 == |s| || !IsNumberChar(s[t.end + 1]))
    && (t.start == 0 || !IsNumberChar(s[t.start - 1]))
  }

  /** The span of t is a maximal run of characters outside the valid set. */
  ghost predicate InvalidRun(s: string, t: Token)
    requires 0 <= t.start <= t.end < |s|
  {
    && (forall k :: t.start <= k <= t.end ==> !IsValidChar(s[k]))
    && (t.end + 1 == |s| || IsValidChar(s[t.end + 1]))
    && (t.start == 0 || IsValidChar(s[t.start - 1]))
  }

  /** Which group of tokens the character at the start of t selects. */
  ghost predicate KindMatchesChar(s: string, t: Token)
    requires 0 <= t.start < |s|
  {
    && (IsNumberKind(t) <==> IsNumberChar(s[t.start]))
    && (IsInvalidKind(t) <==> !IsValidChar(s[t.start]))
    && (t.kind.OpTok? <==> ClassOfChar(s[t.start]).Some?)
    && (t.kind.OpenParen? <==> s[t.start] == '(')
    && (t.kind.CloseParen? <==> s[t.start] == ')')
  }

  /**
   * What a scanned token is, stated from the cleaned text alone: its text is
   * the characters it spans; a number token is a maximal run of digits and '.',
   * typed Number iff `_check_number` accepts it; an invalid token is a maximal
   * run of characters outside the valid set, Invalid_Char iff it has length 1;
   * an operator token is one character and carries the table's descriptor of
   * its key; a parenthesis token is one '(' or ')'.
   */
  ghost predicate TokenOk(s: string, t: Token) {
    && 0 <= t.start <= t.end < |s|
    && t.text == s[t.start..t.end + 1]
    && KindMatchesChar(s, t)
    && (IsNumberKind(t) ==> NumberRun(s, t) && (t.kind.NumberTok? <==> CheckNumber(t.text)))
    && (IsInvalidKind(t) ==> InvalidRun(s, t) && (t.kind.InvalidCharTok? <==> t.start == t.end))
    && (!IsNumberKind(t) && !IsInvalidKind(t) ==> t.start == t.end)
    && (t.kind.OpTok? ==> GetOpClass(KeyText(t.kind.op.cls)) == Some(t.kind.op))
    && (t.kind.OpTok? && s[t.start] != '-' ==> ClassOfChar(s[t.start]) == Some(t.kind.op.cls))
    && (t.kind.OpTok? && s[t.start] == '-' ==> t.kind.op.cls in {UMinusOp, MinusOp})
  }

  /** No run of digits (or of invalid characters) straddles position i. */
  ghost predicate Boundary(s: string, i: nat)
    requires i <= |s|
  {
    i == 0 || i == |s| ||
    (!(IsNumberChar(s[i - 1]) && IsNumberChar(s[i])) && !(!IsValidChar(s[i - 1]) && !IsValidChar(s[i])))
  }

  /** No operator character is a digit, '.' or a parenthesis. */
  lemma OperatorCharsAreOther(c: char)
    ensures ClassOfChar(c).Some? ==> !('0' <= c <= '9') && c != '.' && c != '(' && c != ')'
  {
  }

  lemma CharClasses(c: char)
    ensures IsNumberChar(c) ==> IsValidChar(c) && ClassOfChar(c).None? && c != '(' && c != ')'
    ensures ClassOfChar(c).Some? ==> IsValidChar(c) && !IsNumberChar(c) && c != '(' && c != ')'
    ensures c == '(' || c == ')' ==> IsValidChar(c) && !IsNumberChar(c)
    ensures IsValidChar(c) <==> IsNumberChar(c) || ClassOfChar(c).Some? || c == '(' || c == ')'
  {
    OperatorCharsAreOther(c);
  }

  lemma NumberTokenOk(s: string, i: nat)
    requires i < |s| && IsNumberChar(s[i]) && Boundary(s, i)
    ensures TokenOk(s, NumberToken(s, i)) && Boundary(s, NumberToken(s, i).end + 1)
  {
    var t := NumberToken(s, i);
    CharClasses(s[i]);
    CharClasses(s[t.end]);
    assert IsNumberChar(s[t.end]);
  }

  lemma InvalidTokenOk(s: string, i: nat)
    requires i < |s| && !IsValidChar(s[i]) && Boundary(s, i)
    ensures TokenOk(s, InvalidToken(s, i)) && Boundary(s, InvalidToken(s, i).end + 1)
  {
    var t := InvalidToken(s, i);
    CharClasses(s[i]);
    CharClasses(s[t.end]);
    assert !IsValidChar(s[t.end]);
  }

  lemma OperatorTokenOk(s: string, i: nat, last: Option<Token>)
    requires i < |s| && ClassOfChar(s[i]).Some?
    ensures TokenOk(s, OperatorToken(s, i, last)) && Boundary(s, i + 1)
  {
    var t := OperatorToken(s, i, last);
    CharClasses(s[i]);
    OpKeysAreTheTable(KeyText(t.kind.op.cls));
  }

  lemma ParenTokenOk(s: string, i: nat)
    requires i < |s| && (s[i] == '(' || s[i] == ')')
    ensures TokenOk(s, ParenToken(s, i)) && Boundary(s, i + 1)
  {
    CharClasses(s[i]);
  }

  lemma NextTokenOk(s: string, i: nat, last: Option<Token>)
    requires i < |s| && Boundary(s, i)
    ensures TokenOk(s, NextToken(s, i, last)) && Boundary(s, NextToken(s, i, last).end + 1)
  {
    CharClasses(s[i]);
    match GetCurCharType(s[i])
    case NumberChar => NumberTokenOk(s, i);
    case OperatorChar => OperatorTokenOk(s, i, last);
    case ParenChar => ParenTokenOk(s, i);
    case InvalidChar => InvalidTokenOk(s, i);
  }

  ghost predicate AllTokensOk(s: string, ts: seq<Token>) {
    forall k :: 0 <= k < |ts| ==> TokenOk(s, ts[k])
  }

  lemma AllTokensOkCons(s: string, ts: seq<Token>, t: Token, rest: seq<Token>)
    requires ts == [t] + rest && TokenOk(s, t) && AllTokensOk(s, rest)
    ensures AllTokensOk(s, ts)
  {
    forall k | 0 <= k < |ts| ensures TokenOk(s, ts[k]) {
      if k > 0 { assert ts[k] == rest[k - 1]; }
    }
  }

  /** Every token the scan produces satisfies TokenOk. */
  lemma {:induction false} ScanTokensOk(s: string, i: nat, last: Option<Token>)
    requires i <= |s| && Boundary(s, i)
    ensures AllTokensOk(s, ScanFrom(s, i, last))
    decreases |s| - i
  {
    if i < |s| {
      var t := NextToken(s, i, last);
      RemainingStep(s, i, last);
      NextTokenOk(s, i, last);
      ScanTokensOk(s, t.end + 1, Some(t));
      AllTokensOkCons(s, Remaining(s, i, last), t, Remaining(s, t.end + 1, Some(t)));
    }
  }

  /** Every token `tokenize_expression` appends satisfies TokenOk on the cleaned text. */
  lemma TokensOfOk(exp: string, last: Option<Token>)
    ensures AllTokensOk(Clean(exp), TokensOf(exp, last))
  {
    if Clean(exp) != [] {
      ScanTokensOk(Clean(exp), 0, last);
    }
  }

  // -------------------------------------------------------------- unary minus

  /** The token before ts[k]: the list's last token before the call for k == 0. */
  function PrevOf(ts: seq<Token>, k: nat, last: Option<Token>): Option<Token>
    requires k < |ts|
  {
    if k == 0 then last else Some(ts[k - 1])
  }

  /**
   * The rule `_check_unary_minus` applies: '-' is binary when the previous
   * token is a number, ')' or a right-sided operator, or when it is the '-' of
   * "(-)"; otherwise it is the unary minus "U-".
   */
  lemma UnaryMinusRule(s: string, i: nat, last: Option<Token>)
    requires i < |s|
    ensures CheckUnaryMinus(s, i, last) == MinusOp <==>
      || (last.Some? && (IsNumber(last.value) || IsClose(last.value) || IsRightSidedTok(last.value)))
      || (last.Some? && IsOpen(last.value) && |s| >= 3 && i + 1 < |s| && s[i + 1] == ')')
    ensures last.None? ==> CheckUnaryMinus(s, i, last) == UMinusOp
  {
  }

  /** A '-' token t carries the class the rule picks given the token `prev` before it. */
  ghost predicate MinusOkAfter(s: string, t: Token, prev: Option<Token>) {
    0 <= t.start < |s| && t.kind.OpTok? && s[t.start] == '-' ==>
      t.kind.op == OperatorData(CheckUnaryMinus(s, t.start, prev))
  }

  /** Each '-' token in ts carries the class the rule picks from the token before it, `last` preceding ts[0]. */
  ghost predicate MinusFollowsPrevious(s: string, ts: seq<Token>, last: Option<Token>)
    decreases |ts|
  {
    ts == [] || (MinusOkAfter(s, ts[0], last) && MinusFollowsPrevious(s, ts[1..], Some(ts[0])))
  }

  /** MinusFollowsPrevious, stated token by token. */
  lemma {:induction false} MinusFollowsPreviousAt(s: string, ts: seq<Token>, last: Option<Token>, k: nat)
    requires MinusFollowsPrevious(s, ts, last) && k < |ts|
    ensures MinusOkAfter(s, ts[k], PrevOf(ts, k, last))
    decreases k
  {
    if k > 0 {
      var rest := ts[1..];
      MinusFollowsPreviousAt(s, rest, Some(ts[0]), k - 1);
      assert rest[k - 1] == ts[k];
      assert PrevOf(ts, k, last) == PrevOf(rest, k - 1, Some(ts[0])) by {
        if k > 1 { assert ts[k - 1] == rest[k - 2]; }
      }
    }
  }

  lemma MinusFollowsPreviousCons(s: string, ts: seq<Token>, t: Token, rest: seq<Token>, last: Option<Token>)
    requires ts == [t] + rest
    requires MinusOkAfter(s, t, last)
    requires MinusFollowsPrevious(s, rest, Some(t))
    ensures MinusFollowsPrevious(s, ts, last)
  {
    assert ts[1..] == rest;
  }

  lemma NextTokenMinus(s: string, i: nat, last: Option<Token>)
    requires i < |s|
    ensures MinusOkAfter(s, NextToken(s, i, last), last)
  {
    if s[i] == '-' {
      assert GetCurCharType(s[i]) == OperatorChar;
    }
  }

  /** Each scanned '-' is classified by the rule from the token just before it. */
  lemma {:induction false} ScanMinusUsesPrevious(s: string, i: nat, last: Option<Token>)
    requires i <= |s|
    ensures MinusFollowsPrevious(s, ScanFrom(s, i, last), last)
    decreases |s| - i
  {
    if i < |s| {
      var t := NextToken(s, i, last);
      RemainingStep(s, i, last);
      NextTokenMinus(s, i, last);
      ScanMinusUsesPrevious(s, t.end + 1, Some(t));
      MinusFollowsPreviousCons(s, Remaining(s, i, last), t, Remaining(s, t.end + 1, Some(t)), last);
    }
  }

  /**
   * In the tokens `tokenize_expression` appends, every '-' token is "-" or
   * "U-" exactly as the unary-minus rule decides from the token just before it.
   */
  lemma TokenizeMinus(exp: string, last: Option<Token>, k: nat)
    requires k < |TokensOf(exp, last)|
    ensures MinusOkAfter(Clean(exp), TokensOf(exp, last)[k], PrevOf(TokensOf(exp, last), k, last))
  {
    ScanMinusUsesPrevious(Clean(exp), 0, last);
    MinusFollowsPreviousAt(Clean(exp), TokensOf(exp, last), last, k);
  }

  // -------------------------------------------------------------- diagnostics

  /** The error tokens of ts, in order. */
  function ErrorTokens(ts: seq<Token>): seq<Token> {
    if ts == [] then []
    else (if IsErrorToken(ts[0]) then [ts[0]] else []) + ErrorTokens(ts[1..])
  }

  function KindOfErrorToken(t: Token): ErrorKind
    requires IsErrorToken(t)
  {
    if t.kind.NumberErrorTok? then NumberError
    else if t.kind.InvalidCharTok? then InvalidCharError
    else InvalidCharsError
  }

  /**
   * Exactly one diagnostic per error token, in token order, carrying the
   * token's error type and start position.
   */
  lemma {:induction false} OneDiagnosticPerErrorToken(ts: seq<Token>)
    ensures |Diagnostics(ts)| == |ErrorTokens(ts)|
    ensures forall j :: 0 <= j < |ErrorTokens(ts)| ==>
      (IsErrorToken(ErrorTokens(ts)[j])
       && Diagnostics(ts)[j] == Diagnostic(KindOfErrorToken(ErrorTokens(ts)[j]), ErrorTokens(ts)[j].start))
  {
    if ts != [] {
      OneDiagnosticPerErrorToken(ts[1..]);
    }
  }

  /** No diagnostic is recorded iff no token is an error token. */
  lemma {:induction false} NoDiagnosticsIffNoErrorTokens(ts: seq<Token>)
    ensures Diagnostics(ts) == [] <==> forall k :: 0 <= k < |ts| ==> !IsErrorToken(ts[k])
  {
    if ts != [] {
      NoDiagnosticsIffNoErrorTokens(ts[1..]);
      assert forall k :: 1 <= k < |ts| ==> ts[k] == ts[1..][k - 1];
    }
  }

  lemma {:induction false} ErrorTokensAreTokens(ts: seq<Token>)
    ensures forall x :: x in ErrorTokens(ts) ==> x in ts
  {
    if ts != [] {
      ErrorTokensAreTokens(ts[1..]);
    }
  }

  /** Strictly increasing starts survive filtering out the non-error tokens. */
  lemma {:induction false} ErrorTokensIncreasing(ts: seq<Token>)
    requires forall k1, k2 :: 0 <= k1 < k2 < |ts| ==> ts[k1].start < ts[k2].start
    ensures forall j1, j2 :: 0 <= j1 < j2 < |ErrorTokens(ts)| ==> ErrorTokens(ts)[j1].start < ErrorTokens(ts)[j2].start
  {
    if ts != [] {
      var rest := ts[1..];
      assert forall k1, k2 :: 0 <= k1 < k2 < |rest| ==> rest[k1].start < rest[k2].start by {
        forall k1, k2 | 0 <= k1 < k2 < |rest| ensures rest[k1].start < rest[k2].start {
          assert rest[k1] == ts[k1 + 1] && rest[k2] == ts[k2 + 1];
        }
      }
      ErrorTokensIncreasing(rest);
      ErrorTokensAreTokens(rest);
      var head := if IsErrorToken(ts[0]) then [ts[0]] else [];
      var e := ErrorTokens(ts);
      assert e == head + ErrorTokens(rest);
      forall j1, j2 | 0 <= j1 < j2 < |e| ensures e[j1].start < e[j2].start {
        if j1 < |head| {
          assert e[j2] in rest;
          var k :| 0 <= k < |rest| && rest[k] == e[j2];
          assert rest[k] == ts[k + 1];
        } else {
          assert e[j1] == ErrorTokens(rest)[j1 - |head|] && e[j2] == ErrorTokens(rest)[j2 - |head|];
        }
      }
    }
  }

  /** The diagnostics of a tiling come in scan order: their positions strictly increase. */
  lemma DiagnosticsInScanOrder(ts: seq<Token>, from: int, to: int)
    requires Tiles(ts, from, to)
    ensures forall j1, j2 :: 0 <= j1 < j2 < |Diagnostics(ts)| ==> Diagnostics(ts)[j1].pos < Diagnostics(ts)[j2].pos
  {
    forall k1, k2 | 0 <= k1 < k2 < |ts| ensures ts[k1].start < ts[k2].start {
      TilesOrdered(ts, from, to, k1, k2);
      TilesBounds(ts, from, to);
    }
    ErrorTokensIncreasing(ts);
    OneDiagnosticPerErrorToken(ts);
  }

  /**
   * The diagnostics `tokenize_expression` records for a non-empty cleaned
   * text: one per error token, in scan order, none iff no token is an error.
   */
  lemma TokenizeDiagnostics(exp: string, last: Option<Token>)
    requires Clean(exp) != []
    ensures var ts := TokensOf(exp, last); var ds := DiagnosticsOf(exp, last);
      && |ds| == |ErrorTokens(ts)|
      && (ds == [] <==> forall k :: 0 <= k < |ts| ==> !IsErrorToken(ts[k]))
      && (forall j1, j2 :: 0 <= j1 < j2 < |ds| ==> ds[j1].pos < ds[j2].pos)
  {
    var ts := TokensOf(exp, last);
    OneDiagnosticPerErrorToken(ts);
    NoDiagnosticsIffNoErrorTokens(ts);
    ScanTiles(Clean(exp), 0, last);
    DiagnosticsInScanOrder(ts, 0, |Clean(exp)|);
  }

  // ------------------------------------------------------------------ findings

  /**
   * CalcParts/Tokenizer.py:172-173 as written: scanning "1+(-", the '-' at
   * index 3 follows a '(' in a text of length >= 3, so `cleaned_exp[cur_pos + 1]`
   * is read one past the end and Python raises IndexError.
   */
  lemma MinusAfterOpenAtEndCrashesAsWritten()
    ensures CheckUnaryMinusAsWritten("1+(-", 3, Some(Token(OpenParen, "(", 2, 2))).None?
  {
  }

  /**
   * With the index guarded, that '-' is a unary minus, and the scan from it
   * yields the single U- token, leaving the missing operand to the converter.
   */
  lemma MinusAfterOpenAtEndIsUnary()
    ensures CheckUnaryMinus("1+(-", 3, Some(Token(OpenParen, "(", 2, 2))) == UMinusOp
    ensures ScanFrom("1+(-", 3, Some(Token(OpenParen, "(", 2, 2)))
            == [Token(OpTok(OperatorData(UMinusOp)), "-", 3, 3)]
  {
    var s := "1+(-";
    var last := Some(Token(OpenParen, "(", 2, 2));
    var t := Token(OpTok(OperatorData(UMinusOp)), "-", 3, 3);
    assert NextToken(s, 3, last) == t;
    assert ScanFrom(s, 4, Some(t)) == [];
  }

  // -------------------------------------------------- the as-written crash

  /**
   * The token built at i ends on '(' exactly when it is a '(' token, and a
   * token that ends on '-' is that one character.
   */
  lemma TokenEndChar(s: string, i: nat, last: Option<Token>)
    requires i < |s|
    ensures var t := NextToken(s, i, last);
      && (IsOpen(t) <==> s[t.end] == '(')
      && (s[t.end] == '-' ==> t.end == i)
  {
    var t := NextToken(s, i, last);
    if t.end > i {
      assert IsNumberChar(s[t.end]) || !IsValidChar(s[t.end]);
    }
  }

  /**
   * The scan from a token boundary i raises IndexError iff the text, at least
   * three characters long, ends in '-' and the token before that '-' is '('.
   */
  lemma {:induction false} ScanCrashesAt(s: string, i: nat, last: Option<Token>)
    requires i < |s|
    ensures ScanCrashes(s, i, last) <==>
      |s| >= 3 && s[|s| - 1] == '-'
      && (if i == |s| - 1 then last.Some? && IsOpen(last.value) else s[|s| - 2] == '(')
    decreases |s| - i
  {
    if i == |s| - 1 {
      ScanCrashesAtLast(s, last);
    } else {
      var t := NextToken(s, i, last);
      var j := t.end + 1;
      TokenEndChar(s, i, last);
      ScanCrashesPastFirst(s, i, last);
      if j == |s| {
        assert !ScanCrashes(s, i, last);
        assert s[|s| - 1] != '-';
      } else if j == |s| - 1 {
        ScanCrashesAtLast(s, Some(t));
        assert IsOpen(t) <==> s[|s| - 2] == '(';
      } else {
        ScanCrashesAt(s, j, Some(t));
      }
    }
  }

  /** At the last character the scan as written raises iff that is a '-' after '(' in a text of length >= 3. */
  lemma ScanCrashesAtLast(s: string, last: Option<Token>)
    requires |s| > 0
    ensures ScanCrashes(s, |s| - 1, last) <==>
      |s| >= 3 && s[|s| - 1] == '-' && last.Some? && IsOpen(last.value)
  {
    var t := NextToken(s, |s| - 1, last);
    assert t.end + 1 == |s|;
    assert !ScanCrashes(s, t.end + 1, Some(t));
  }

  /** Before the last character the scan as written cannot raise at i, so it raises iff it does later. */
  lemma ScanCrashesPastFirst(s: string, i: nat, last: Option<Token>)
    requires i < |s| - 1
    ensures var t := NextToken(s, i, last);
      ScanCrashes(s, i, last) == (t.end + 1 < |s| && ScanCrashes(s, t.end + 1, Some(t)))
  {
    assert NextTokenAsWritten(s, i, last).Some?;
  }

  /**
   * `tokenize_expression`, as written, raises IndexError iff the cleaned text
   * is at least three characters long and ends in "(-".
   */
  lemma TokenizeCrashesIff(exp: string)
    ensures var c := Clean(exp);
      TokenizeCrashes(exp, None) <==> |c| >= 3 && c[|c| - 2] == '(' && c[|c| - 1] == '-'
  {
    if Clean(exp) != [] {
      ScanCrashesAt(Clean(exp), 0, None);
    }
  }
}
