/**
 * The calculator's tokenizer (Calculator/src/lexer/lexer.cpp): one left-to-right scan that
 * skips blanks and cuts the expression into numbers, operators, parentheses and function
 * names, throwing a calculator_error at the first character it cannot use.
 */
module CalcLexing {
  import opened Common
  import opened CStd

  datatype TokenType = NumberTok | Operator | LParen | RParen | Function

  datatype CToken = CToken(kind: TokenType, value: string)

  /** The calculator_error messages of the tokenizer and of the parser. */
  datatype CalcError =
    | InvalidNumberFormat             // "Invalid number format": a second '.' in a number
    | InvalidNumber(num: string)      // "Invalid number: " + num, when std::stod rejects it
    | UnknownFunction(name: string)   // "Unknown function: " + name
    | InvalidCharacter(c: char)       // "Invalid character: " + c
    | NoValidTokens                   // "No valid tokens"
    | UnexpectedTokensAfter           // "Unexpected tokens after expression"
    | UnexpectedEnd                   // "Unexpected end of expression"
    | ExpectedClosingParen            // "Expected closing parenthesis"
    | ExpectedOpeningParenAfterFunction
    | ExpectedClosingParenAfterArgument
    | ExpectedFactor(got: string)     // "Expected number, parenthesis, or function, got: " + value

  /** valid_functions */
  const ValidFunctions: set<string> := {"sqrt", "log2", "ln", "log10", "sin", "cos", "tan", "cot"}

  predicate IsOperator(c: char)
  {
    c == '+' || c == '-' || c == '*' || c == '/' || c == '^'
  }

  predicate NumberChar(c: char)
  {
    IsDigit(c) || c == '.'
  }

  /**
   * How a function name is cut out of the text. The tokenizer takes a run of letters only
   * (`Letters`); `LettersThenDigits` is the rule that the names "log2" and "log10" in
   * valid_functions call for, a letter followed by letters and digits.
   */
  datatype NameRule = Letters | LettersThenDigits

  predicate NameChar(rule: NameRule, c: char)
  {
    IsAlpha(c) || (rule == LettersThenDigits && IsDigit(c))
  }

  /**
   * The number loop from position i: it runs while the character is a digit or '.', and a
   * second '.' (`seenDot` records the first) throws. The result is where the run ends.
   */
  function NumberEnd(expr: string, i: nat, seenDot: bool): (r: Result<nat, CalcError>)
    requires i <= |expr|
    ensures r.Ok? ==> i <= r.value <= |expr| && (r.value == |expr| || !NumberChar(expr[r.value]))
    ensures r.Ok? ==> forall k :: i <= k < r.value ==> NumberChar(expr[k])
    ensures r.Err? ==> r.error == InvalidNumberFormat
    decreases |expr| - i
  {
    if i < |expr| && NumberChar(expr[i]) then
      if expr[i] == '.' && seenDot then Err(InvalidNumberFormat)
      else NumberEnd(expr, i + 1, seenDot || expr[i] == '.')
    else Ok(i)
  }

  /** The end of the name run starting at i. */
  function NameEnd(rule: NameRule, expr: string, i: nat): (j: nat)
    requires i <= |expr|
    ensures i <= j <= |expr| && (j == |expr| || !NameChar(rule, expr[j]))
    ensures forall k :: i <= k < j ==> NameChar(rule, expr[k])
    decreases |expr| - i
  {
    if i < |expr| && NameChar(rule, expr[i]) then NameEnd(rule, expr, i + 1) else i
  }

  /**
   * std::stod on a run of digits and at most one '.': it converts as soon as there is a digit,
   * and throws out_of_range when the value lies outside the range of a double.
   */
  predicate StodAccepts(num: string)
  {
    (exists k :: 0 <= k < |num| && IsDigit(num[k])) && StodInRange(num)
  }

  /** `ts` in front of the tokens of a successful rest, or the rest's error. */
  function Then(ts: seq<CToken>, rest: Result<seq<CToken>, CalcError>): Result<seq<CToken>, CalcError>
  {
    match rest
    case Ok(us) => Ok(ts + us)
    case Err(e) => Err(e)
  }

  lemma {:induction false} ThenNothing(r: Result<seq<CToken>, CalcError>)
    ensures Then([], r) == r
  {
    if r.Ok? {
      assert [] + r.value == r.value;
    }
  }

  lemma {:induction false} ThenThen(ts: seq<CToken>, t: CToken, r: Result<seq<CToken>, CalcError>)
    ensures Then(ts, Then([t], r)) == Then(ts + [t], r)
  {
    if r.Ok? {
      assert ts + ([t] + r.value) == (ts + [t]) + r.value;
    }
  }

  /** tokenize from position i on, with the names cut by `rule`. */
  function Scan(rule: NameRule, expr: string, i: nat): (r: Result<seq<CToken>, CalcError>)
    requires i <= |expr|
    decreases |expr| - i
  {
    if i == |expr| then Ok([])
    else
      var c := expr[i];
      if IsSpace(c) then Scan(rule, expr, i + 1)
      else if NumberChar(c) then
        match NumberEnd(expr, i, false)
        case Err(e) => Err(e)
        case Ok(j) =>
          if !StodAccepts(expr[i..j]) then Err(InvalidNumber(expr[i..j]))
          else Then([CToken(NumberTok, expr[i..j])], Scan(rule, expr, j))
      else if IsOperator(c) then Then([CToken(Operator, [c])], Scan(rule, expr, i + 1))
      else if c == '(' then Then([CToken(LParen, "(")], Scan(rule, expr, i + 1))
      else if c == ')' then Then([CToken(RParen, ")")], Scan(rule, expr, i + 1))
      else if IsAlpha(c) then
        var j := NameEnd(rule, expr, i);
        if expr[i..j] in ValidFunctions then Then([CToken(Function, expr[i..j])], Scan(rule, expr, j))
        else Err(UnknownFunction(expr[i..j]))
      else Err(InvalidCharacter(c))
  }

  /** lexer::tokenize */
  function Tokens(expr: string): Result<seq<CToken>, CalcError>
  {
    Scan(Letters, expr, 0)
  }

  class Lexer {
    constructor()
    {
    }

    /** The inner loop of tokenize over a number: digits and '.', throwing at a second '.'. */
    method ReadNumber(expr: string, start: nat) returns (r: Result<nat, CalcError>)
      requires start <= |expr|
      ensures r == NumberEnd(expr, start, false)
    {
      var i := start;
      var hasDecimal := false;
      while i < |expr| && (IsDigit(expr[i]) || expr[i] == '.')
        invariant start <= i <= |expr|
        invariant NumberEnd(expr, start, false) == NumberEnd(expr, i, hasDecimal)
        decreases |expr| - i
      {
        if expr[i] == '.' {
          if hasDecimal {
            return Err(InvalidNumberFormat);
          }
          hasDecimal := true;
        }
        i := i + 1;
      }
      return Ok(i);
    }

    /** The inner loop of tokenize over a name: a run of letters. */
    method ReadName(expr: string, start: nat) returns (j: nat)
      requires start <= |expr|
      ensures j == NameEnd(Letters, expr, start)
    {
      j := start;
      while j < |expr| && IsAlpha(expr[j])
        invariant start <= j <= |expr|
        invariant NameEnd(Letters, expr, start) == NameEnd(Letters, expr, j)
        decreases |expr| - j
      {
        j := j + 1;
      }
    }

    /** lexer::tokenize, with its loops. */
    method Tokenize(expr: string) returns (r: Result<seq<CToken>, CalcError>)
      ensures r == Tokens(expr)
    {
      var tokens: seq<CToken> := [];
      var i := 0;
      ThenNothing(Scan(Letters, expr, 0));
      while i < |expr|
        invariant i <= |expr|
        invariant Scan(Letters, expr, 0) == Then(tokens, Scan(Letters, expr, i))
        decreases |expr| - i
      {
        var c := expr[i];
        if IsSpace(c) {
          i := i + 1;
          continue;
        }
        if IsDigit(c) || c == '.' {
          var num: string;
          var end := ReadNumber(expr, i);
          if end.Err? {
            return Err(end.error);
          }
          num, i := expr[i..end.value], end.value;
          if !StodAccepts(num) {
            return Err(InvalidNumber(num));
          }
          ThenThen(tokens, CToken(NumberTok, num), Scan(Letters, expr, i));
          tokens := tokens + [CToken(NumberTok, num)];
          continue;
        }
        if IsOperator(c) {
          ThenThen(tokens, CToken(Operator, [c]), Scan(Letters, expr, i + 1));
          tokens := tokens + [CToken(Operator, [c])];
          i := i + 1;
          continue;
        }
        if c == '(' {
          ThenThen(tokens, CToken(LParen, "("), Scan(Letters, expr, i + 1));
          tokens := tokens + [CToken(LParen, "(")];
          i := i + 1;
          continue;
        }
        if c == ')' {
          ThenThen(tokens, CToken(RParen, ")"), Scan(Letters, expr, i + 1));
          tokens := tokens + [CToken(RParen, ")")];
          i := i + 1;
          continue;
        }
        if IsAlpha(c) {
          var j := ReadName(expr, i);
          var func := expr[i..j];
          i := j;
          if func in ValidFunctions {
            ThenThen(tokens, CToken(Function, func), Scan(Letters, expr, i));
            tokens := tokens + [CToken(Function, func)];
          } else {
            return Err(UnknownFunction(func));
          }
          continue;
        }
        return Err(InvalidCharacter(c));
      }
      assert tokens + [] == tokens;
      return Ok(tokens);
    }
  }

  /** The input without its blanks. */
  function NoSpace(s: string): (r: string)
    ensures forall k :: 0 <= k < |r| ==> !IsSpace(r[k])
  {
    if s == [] then [] else (if IsSpace(s[0]) then [] else [s[0]]) + NoSpace(s[1..])
  }

  /** The token texts one after the other. */
  function Spelling(ts: seq<CToken>): string
  {
    if ts == [] then [] else ts[0].value + Spelling(ts[1..])
  }

  lemma {:induction false} SpellingAppend(ts: seq<CToken>, us: seq<CToken>)
    ensures Spelling(ts + us) == Spelling(ts) + Spelling(us)
    decreases |ts|
  {
    if ts == [] {
      assert ts + us == us;
    } else {
      assert (ts + us)[0] == ts[0] && (ts + us)[1..] == ts[1..] + us;
      SpellingAppend(ts[1..], us);
    }
  }

  /** A run without blanks is kept whole. */
  lemma {:induction false} NoSpaceRun(expr: string, i: nat, j: nat)
    requires i <= j <= |expr| && forall k :: i <= k < j ==> !IsSpace(expr[k])
    ensures NoSpace(expr[i..]) == expr[i..j] + NoSpace(expr[j..])
    decreases j - i
  {
    if i < j {
      assert expr[i..][1..] == expr[i + 1..];
      assert expr[i..][0] == expr[i] && !IsSpace(expr[i]);
      assert NoSpace(expr[i..]) == [expr[i]] + NoSpace(expr[i + 1..]);
      NoSpaceRun(expr, i + 1, j);
      assert expr[i..j] == [expr[i]] + expr[i + 1..j];
    }
  }

  /** The token an operator or a parenthesis makes on its own. */
  function SingleToken(c: char): CToken
  {
    if IsOperator(c) then CToken(Operator, [c]) else if c == '(' then CToken(LParen, "(") else CToken(RParen, ")")
  }

  /** Scan at a character that makes a token on its own: an operator or a parenthesis. */
  lemma {:induction false} ScanSingle(rule: NameRule, expr: string, i: nat)
    requires i < |expr| && (IsOperator(expr[i]) || expr[i] == '(' || expr[i] == ')')
    ensures Scan(rule, expr, i) == Then([SingleToken(expr[i])], Scan(rule, expr, i + 1))
  {
  }

  /** Scan at a number that std::stod accepts. */
  lemma {:induction false} ScanNumber(rule: NameRule, expr: string, i: nat, j: nat)
    requires i < |expr| && NumberChar(expr[i]) && NumberEnd(expr, i, false) == Ok(j)
    requires StodAccepts(expr[i..j])
    ensures Scan(rule, expr, i) == Then([CToken(NumberTok, expr[i..j])], Scan(rule, expr, j))
  {
  }

  /** Scan at a name that is a known function. */
  lemma {:induction false} ScanName(rule: NameRule, expr: string, i: nat, j: nat)
    requires i < |expr| && IsAlpha(expr[i]) && NameEnd(rule, expr, i) == j && expr[i..j] in ValidFunctions
    ensures Scan(rule, expr, i) == Then([CToken(Function, expr[i..j])], Scan(rule, expr, j))
  {
  }

  /** One token spelled by a blank-free stretch [i, j), in front of a rest that spells the input after it. */
  lemma {:induction false} SpellStep(expr: string, i: nat, j: nat, t: CToken, rest: seq<CToken>)
    requires i <= j <= |expr| && forall k :: i <= k < j ==> !IsSpace(expr[k])
    requires t.value == expr[i..j] && Spelling(rest) == NoSpace(expr[j..])
    ensures Spelling([t] + rest) == NoSpace(expr[i..])
  {
    NoSpaceRun(expr, i, j);
    SpellingAppend([t], rest);
    assert Spelling([t]) == t.value + Spelling([]);
  }

  /** One step of the scan at i: where it goes on, and that spelling the rest spells it all. */
  lemma {:induction false} SpellFrom(rule: NameRule, expr: string, i: nat) returns (j: nat)
    requires i < |expr| && Scan(rule, expr, i).Ok?
    ensures i < j <= |expr| && Scan(rule, expr, j).Ok?
    ensures Spelling(Scan(rule, expr, j).value) == NoSpace(expr[j..])
            ==> Spelling(Scan(rule, expr, i).value) == NoSpace(expr[i..])
  {
    var c := expr[i];
    if IsSpace(c) {
      j := i + 1;
      assert expr[i..][1..] == expr[j..];
      assert expr[i..][0] == c;
    } else if NumberChar(c) {
      j := NumberEnd(expr, i, false).value;
      ScanNumber(rule, expr, i, j);
      if Spelling(Scan(rule, expr, j).value) == NoSpace(expr[j..]) {
        SpellStep(expr, i, j, CToken(NumberTok, expr[i..j]), Scan(rule, expr, j).value);
      }
    } else if IsAlpha(c) {
      j := NameEnd(rule, expr, i);
      ScanName(rule, expr, i, j);
      if Spelling(Scan(rule, expr, j).value) == NoSpace(expr[j..]) {
        SpellStep(expr, i, j, CToken(Function, expr[i..j]), Scan(rule, expr, j).value);
      }
    } else {
      j := i + 1;
      ScanSingle(rule, expr, i);
      if Spelling(Scan(rule, expr, j).value) == NoSpace(expr[j..]) {
        assert expr[i..j] == [c] == SingleToken(c).value;
        SpellStep(expr, i, j, SingleToken(c), Scan(rule, expr, j).value);
      }
    }
  }

  /**
   * On success the tokens spell the input with the blanks left out, in order: nothing is
   * dropped, added or reordered.
   */
  lemma {:induction false} TokensSpellInput(rule: NameRule, expr: string, i: nat)
    requires i <= |expr| && Scan(rule, expr, i).Ok?
    ensures Spelling(Scan(rule, expr, i).value) == NoSpace(expr[i..])
    decreases |expr| - i
  {
    if i < |expr| {
      var j := SpellFrom(rule, expr, i);
      TokensSpellInput(rule, expr, j);
    }
  }

  /** Every function token the tokenizer produces is a run of letters under `Letters`. */
  lemma {:induction false} FunctionTokensAreLetters(expr: string, i: nat)
    requires i <= |expr| && Scan(Letters, expr, i).Ok?
    ensures forall t :: t in Scan(Letters, expr, i).value && t.kind == Function ==>
              forall k :: 0 <= k < |t.value| ==> IsAlpha(t.value[k])
    decreases |expr| - i
  {
    if i < |expr| {
      var c := expr[i];
      if IsSpace(c) {
        FunctionTokensAreLetters(expr, i + 1);
      } else if NumberChar(c) {
        FunctionTokensAreLetters(expr, NumberEnd(expr, i, false).value);
      } else if IsAlpha(c) {
        FunctionTokensAreLetters(expr, NameEnd(Letters, expr, i));
      } else {
        FunctionTokensAreLetters(expr, i + 1);
      }
    }
  }

  /**
   * "log2" and "log10" are in valid_functions, but no successful tokenization ever yields them:
   * a name stops at its first digit.
   */
  lemma {:induction false} LogNamesUnreachable(expr: string)
    requires Tokens(expr).Ok?
    ensures CToken(Function, "log2") !in Tokens(expr).value
    ensures CToken(Function, "log10") !in Tokens(expr).value
  {
    FunctionTokensAreLetters(expr, 0);
    assert !IsAlpha("log2"[3]) && !IsAlpha("log10"[3]);
  }

  /** "log2(8)" is cut after "log", which is not a known function. */
  lemma {:induction false} LogTwoRejected()
    ensures Tokens("log2(8)") == Err(UnknownFunction("log"))
  {
    var e := "log2(8)";
    assert NameEnd(Letters, e, 3) == 3;
    assert NameEnd(Letters, e, 0) == 3;
    assert e[0..3] == "log";
  }

  /** With names of letters then digits, "log2(8)" is the call it is meant to be. */
  lemma {:induction false} LogTwoIntended()
    ensures Scan(LettersThenDigits, "log2(8)", 0)
            == Ok([CToken(Function, "log2"), CToken(LParen, "("), CToken(NumberTok, "8"), CToken(RParen, ")")])
  {
    var e := "log2(8)";
    assert e[4] == '(' && e[5] == '8' && e[6] == ')' && |e| == 7;
    assert NameEnd(LettersThenDigits, e, 4) == 4;
    assert NameEnd(LettersThenDigits, e, 0) == 4;
    assert e[0..4] == "log2";
    assert NumberEnd(e, 5, false) == Ok(6);
    assert e[5..6] == "8" && StodAccepts(e[5..6]);
    var t3 := [CToken(RParen, ")")];
    var t2 := [CToken(NumberTok, "8")] + t3;
    var t1 := [CToken(LParen, "(")] + t2;
    assert Scan(LettersThenDigits, e, 7) == Ok([]);
    ScanSingle(LettersThenDigits, e, 6);
    assert t3 + [] == t3;
    ScanNumber(LettersThenDigits, e, 5, 6);
    ScanSingle(LettersThenDigits, e, 4);
    ScanName(LettersThenDigits, e, 0, 4);
    assert [CToken(Function, "log2")] + t1
           == [CToken(Function, "log2"), CToken(LParen, "("), CToken(NumberTok, "8"), CToken(RParen, ")")];
  }

  /** A second '.' in one number throws "Invalid number format". */
  lemma {:induction false} SecondDotRejected()
    ensures Tokens("1.2.3") == Err(InvalidNumberFormat)
  {
    var e := "1.2.3";
    assert NumberEnd(e, 3, true) == Err(InvalidNumberFormat);
    assert NumberEnd(e, 0, false) == Err(InvalidNumberFormat);
  }

  /** A number run without a digit is refused by std::stod. */
  lemma {:induction false} LoneDotRejected()
    ensures Tokens(".") == Err(InvalidNumber("."))
  {
    var e := ".";
    assert NumberEnd(e, 0, false) == Ok(1);
    assert e[0..1] == "." && !StodAccepts(e[0..1]);
  }

  /** A run of digits reaching the end of the input is one number run. */
  lemma {:induction false} DigitRunEnd(expr: string, i: nat, seenDot: bool)
    requires i <= |expr|
    requires forall k :: i <= k < |expr| ==> IsDigit(expr[k])
    ensures NumberEnd(expr, i, seenDot) == Ok(|expr|)
    decreases |expr| - i
  {
    if i < |expr| {
      DigitRunEnd(expr, i + 1, seenDot);
    }
  }

  /** A number whose value lies outside the range of a double makes std::stod throw out_of_range. */
  lemma {:induction false} OutOfRangeRejected(num: string)
    requires num != [] && forall k :: 0 <= k < |num| ==> IsDigit(num[k])
    requires !StodInRange(num)
    ensures Tokens(num) == Err(InvalidNumber(num))
  {
    DigitRunEnd(num, 0, false);
    assert num[0..|num|] == num;
  }
}
