/**
 * The JSON tokenizer (json_lexer.cpp): a cursor `pos` over the input text that hands out one
 * token per call to `next_token`.
 *
 * The behaviour is first stated as pure functions of the input and a position (`Lex` and its
 * helpers), which is what the parser model and the lemmas use; the class `JsonLexer` then
 * carries out the same steps on its `pos` field and is proved to agree with them.
 */
module JsonLexing {
  import opened Common
  import opened CStd

  datatype TokenType =
    LBrace | RBrace | LBracket | RBracket | Colon | Comma | String | Number | True | False | Null | End

  datatype Token = Token(kind: TokenType, value: string)

  /** The messages of the runtime_errors the lexer throws. */
  datatype LexError =
    | InvalidCharacter(position: nat)  // "Invalid character at position " + pos_
    | IncompleteEscape                 // "Incomplete escape sequence"
    | InvalidEscape                    // "Invalid escape sequence"
    | UnterminatedString               // "Unterminated string"
    | InvalidKeyword(word: string)     // "Invalid keyword: " + keyword

  /** skip_whitespace from `i`: the first position that is not a std::isspace character. */
  function SkipWs(x: string, i: nat): (j: nat)
    requires i <= |x|
    ensures i <= j <= |x|
    ensures j == |x| || !IsSpace(x[j])
    decreases |x| - i
  {
    if i < |x| && IsSpace(x[i]) then SkipWs(x, i + 1) else i
  }

  /** The escapes lex_string decodes: the character a backslash followed by `c` stands for. */
  function Unescape(c: char): Option<char>
  {
    match c
    case '"' => Some('"')
    case '\\' => Some('\\')
    case '/' => Some('/')
    case 'b' => Some('\U{8}')  // backspace
    case 'f' => Some('\U{C}')  // form feed
    case 'n' => Some('\n')
    case 'r' => Some('\r')
    case 't' => Some('\t')
    case _ => None
  }

  /**
   * lex_string, entered at `i` just after the opening quote with `acc` decoded so far: the
   * decoded text and the position after the closing quote.
   */
  function ScanString(x: string, i: nat, acc: string): (r: Result<(string, nat), LexError>)
    requires i <= |x|
    ensures r.Ok? ==> i < r.value.1 <= |x|
    decreases |x| - i
  {
    if i == |x| then Err(UnterminatedString)
    else if x[i] == '"' then Ok((acc, i + 1))
    else if x[i] == '\\' then
      if i + 1 == |x| then Err(IncompleteEscape)
      else match Unescape(x[i + 1]) {
        case Some(d) => ScanString(x, i + 2, acc + [d])
        case None => Err(InvalidEscape)
      }
    else ScanString(x, i + 1, acc + [x[i]])
  }

  /** The end of the run of decimal digits starting at `i`. */
  function DigitEnd(x: string, i: nat): (j: nat)
    requires i <= |x|
    ensures i <= j <= |x|
    decreases |x| - i
  {
    if i < |x| && IsDigit(x[i]) then DigitEnd(x, i + 1) else i
  }

  /** The end of the run of letters (std::isalpha) starting at `i`. */
  function AlphaEnd(x: string, i: nat): (j: nat)
    requires i <= |x|
    ensures i <= j <= |x|
    decreases |x| - i
  {
    if i < |x| && IsAlpha(x[i]) then AlphaEnd(x, i + 1) else i
  }

  /** The optional leading '-' of lex_number. */
  function SignEnd(x: string, i: nat): (j: nat)
    requires i <= |x|
    ensures i <= j <= |x|
  {
    if i < |x| && x[i] == '-' then i + 1 else i
  }

  /** The optional fraction of lex_number: a `.` and the digits after it. */
  function FractionEnd(x: string, i: nat): (j: nat)
    requires i <= |x|
    ensures i <= j <= |x|
  {
    if i < |x| && x[i] == '.' then DigitEnd(x, i + 1) else i
  }

  /** The optional exponent of lex_number: `e` or `E`, one optional sign, digits. */
  function ExponentEnd(x: string, i: nat): (j: nat)
    requires i <= |x|
    ensures i <= j <= |x|
  {
    if i < |x| && (x[i] == 'e' || x[i] == 'E') then
      DigitEnd(x, if i + 1 < |x| && (x[i + 1] == '+' || x[i + 1] == '-') then i + 2 else i + 1)
    else i
  }

  /**
   * lex_number from `i`: the end of the longest stretch of the form
   * `-? digits* (. digits*)? ([eE] [+-]? digits*)?`; every part may be empty.
   */
  function NumberEnd(x: string, i: nat): (j: nat)
    requires i <= |x|
    ensures i <= j <= |x|
  {
    ExponentEnd(x, FractionEnd(x, DigitEnd(x, SignEnd(x, i))))
  }

  /** lex_keyword on a run of letters. */
  function Keyword(w: string): Result<Token, LexError>
  {
    if w == "true" then Ok(Token(True, w))
    else if w == "false" then Ok(Token(False, w))
    else if w == "null" then Ok(Token(Null, w))
    else Err(InvalidKeyword(w))
  }

  lemma SliceConcat(x: string, a: nat, b: nat, c: nat)
    requires a <= b <= c <= |x|
    ensures x[a..b] + x[b..c] == x[a..c]
  {
  }

  /** The one-character tokens `{ } [ ] : ,`. */
  function Punctuation(c: char): Option<TokenType>
  {
    match c
    case '{' => Some(LBrace)
    case '}' => Some(RBrace)
    case '[' => Some(LBracket)
    case ']' => Some(RBracket)
    case ':' => Some(Colon)
    case ',' => Some(Comma)
    case _ => None
  }

  /**
   * The switch of next_token on the character at `i`: the token and the position after it.
   * An invalid character is reported at i + 1, the cursor having already passed it.
   */
  function LexToken(x: string, i: nat): (r: Result<(Token, nat), LexError>)
    requires i < |x|
    ensures r.Ok? ==> i < r.value.1 <= |x| && r.value.0.kind != End
  {
    var c := x[i];
    if Punctuation(c).Some? then Ok((Token(Punctuation(c).value, [c]), i + 1))
    else if c == '"' then
      match ScanString(x, i + 1, "")
      case Ok((v, j)) => Ok((Token(String, v), j))
      case Err(e) => Err(e)
    else if c == '-' || IsDigit(c) then
      var j := NumberEnd(x, i);
      assert j > i;
      Ok((Token(Number, x[i..j]), j))
    else if IsAlpha(c) then
      var j := AlphaEnd(x, i);
      match Keyword(x[i..j])
      case Ok(tok) => Ok((tok, j))
      case Err(e) => Err(e)
    else Err(InvalidCharacter(i + 1))
  }

  /**
   * next_token with the cursor at `i`: the token and the new cursor. Once only blanks are left
   * the token is End and the cursor is at the end of the input.
   */
  function Lex(x: string, i: nat): (r: Result<(Token, nat), LexError>)
    requires i <= |x|
    ensures r.Ok? ==> i <= r.value.1 <= |x|
    ensures r.Ok? && r.value.0.kind == End ==> r.value.1 == |x|
    ensures r.Ok? && r.value.0.kind != End ==> i < r.value.1
  {
    var t := SkipWs(x, i);
    if t == |x| then Ok((Token(End, ""), t)) else LexToken(x, t)
  }

  /** Every remaining character is blank exactly when the next token is End. */
  lemma {:induction false} EndIffBlank(x: string, i: nat)
    requires i <= |x|
    ensures Lex(x, i) == Ok((Token(End, ""), |x|)) <==> forall k :: i <= k < |x| ==> IsSpace(x[k])
    decreases |x| - i
  {
    if i < |x| && IsSpace(x[i]) {
      EndIffBlank(x, i + 1);
      assert SkipWs(x, i) == SkipWs(x, i + 1);
      assert Lex(x, i) == Lex(x, i + 1) by {
        assert SkipWs(x, i) == SkipWs(x, i + 1);
      }
    }
  }

  /** After End every further call yields End again, with the cursor left at the end. */
  lemma EndIsFinal(x: string, i: nat)
    requires i <= |x| && Lex(x, i).Ok? && Lex(x, i).value.0.kind == End
    ensures Lex(x, Lex(x, i).value.1) == Ok((Token(End, ""), |x|))
  {
  }

  /** The blanks from `i` on stop at `j`. */
  lemma {:induction false} SkipTo(x: string, i: nat, j: nat)
    requires i <= j <= |x| && forall k :: i <= k < j ==> IsSpace(x[k])
    requires j == |x| || !IsSpace(x[j])
    ensures SkipWs(x, i) == j
    decreases j - i
  {
    if i < j {
      SkipTo(x, i + 1, j);
    }
  }

  /** Each of `{ } [ ] : ,` after any blanks is a token of its own, one character long. */
  lemma PunctuationToken(x: string, i: nat, j: nat)
    requires i <= j < |x| && forall k :: i <= k < j ==> IsSpace(x[k])
    requires x[j] in "{}[]:,"
    ensures Punctuation(x[j]).Some?
    ensures Lex(x, i) == Ok((Token(Punctuation(x[j]).value, [x[j]]), j + 1))
  {
    SkipTo(x, i, j);
  }

  /**
   * How a string is written so that lex_string reads it back: `"` and `\` are escaped, and
   * so are backspace, form feed, newline, carriage return and tab.
   */
  function EscapeLetter(c: char): (r: Option<char>)
    ensures r.Some? ==> Unescape(r.value) == Some(c)
    ensures r.None? ==> c != '"' && c != '\\'
  {
    match c
    case '"' => Some('"')
    case '\\' => Some('\\')
    case '\U{8}' => Some('b')
    case '\U{C}' => Some('f')
    case '\n' => Some('n')
    case '\r' => Some('r')
    case '\t' => Some('t')
    case _ => None
  }

  function EscapeChar(c: char): (r: string)
    ensures |r| >= 1
  {
    match EscapeLetter(c)
    case Some(l) => ['\\', l]
    case None => [c]
  }

  function Escape(s: string): string
  {
    if s == [] then "" else EscapeChar(s[0]) + Escape(s[1..])
  }

  /** Where `x` holds `a + b` from `i` on, it holds `a` from `i` and `b` right after. */
  lemma SplitSlice(x: string, i: nat, a: string, b: string)
    requires i + |a + b| <= |x| && x[i..i + |a + b|] == a + b
    ensures x[i..i + |a|] == a && x[i + |a|..i + |a| + |b|] == b
  {
    assert x[i..i + |a|] == x[i..i + |a + b|][..|a|];
    assert x[i + |a|..i + |a| + |b|] == x[i..i + |a + b|][|a|..];
  }

  /** lex_string reads the escaped form of one character as that character. */
  lemma ScanOne(x: string, i: nat, c: char, acc: string)
    requires i + |EscapeChar(c)| < |x| && x[i..i + |EscapeChar(c)|] == EscapeChar(c)
    ensures ScanString(x, i, acc) == ScanString(x, i + |EscapeChar(c)|, acc + [c])
  {
    match EscapeLetter(c)
    case Some(l) =>
      assert x[i] == '\\' && x[i + 1] == l;
    case None =>
      assert x[i] == c;
  }

  /** Scanning an escaped string followed by a quote decodes it back exactly. */
  lemma {:induction false} ScanEscaped(x: string, i: nat, s: string, acc: string)
    requires i + |Escape(s)| < |x| && x[i..i + |Escape(s)|] == Escape(s) && x[i + |Escape(s)|] == '"'
    ensures ScanString(x, i, acc) == Ok((acc + s, i + |Escape(s)| + 1))
    decreases s, 1
  {
    if s == [] {
      ClosingQuote(x, i, acc, s);
    } else {
      var e := EscapeChar(s[0]);
      EscapeHead(x, i, s, e);
      ScanEscapedStep(x, i, s, acc, e, Escape(s[1..]));
    }
  }

  /** lex_string at the closing quote, with nothing left of `s`. */
  lemma {:induction false} ClosingQuote(x: string, i: nat, acc: string, s: string)
    requires s == [] && i < |x| && x[i] == '"'
    ensures ScanString(x, i, acc) == Ok((acc + s, i + |Escape(s)| + 1))
  {
    assert acc + s == acc;
  }

  /** The first character of a non-empty `s`, escaped as `e`, then the rest, escaped as `rest`. */
  lemma {:induction false} ScanEscapedStep(x: string, i: nat, s: string, acc: string, e: string, rest: string)
    requires s != [] && e == EscapeChar(s[0]) && rest == Escape(s[1..])
    requires i + |e| + |rest| < |x| && x[i..i + |e|] == e && x[i + |e|..i + |e| + |rest|] == rest
    requires x[i + |e| + |rest|] == '"'
    ensures ScanString(x, i, acc) == Ok((acc + s, i + |e| + |rest| + 1))
    decreases s, 0
  {
    var c := s[0];
    ScanEscaped(x, i + |e|, s[1..], acc + [c]);
    assert acc + [c] + s[1..] == acc + s;
    ScanOne(x, i, c, acc);
  }

  /** The escaped first character of `s`, then the escaped rest, in front of the quote. */
  lemma {:induction false} EscapeHead(x: string, i: nat, s: string, e: string)
    requires s != [] && e == EscapeChar(s[0])
    requires i + |Escape(s)| < |x| && x[i..i + |Escape(s)|] == Escape(s) && x[i + |Escape(s)|] == '"'
    ensures |Escape(s)| == |e| + |Escape(s[1..])| && x[i..i + |e|] == e
    ensures x[i + |e|..i + |e| + |Escape(s[1..])|] == Escape(s[1..]) && x[i + |Escape(s)|] == '"'
  {
    var rest := Escape(s[1..]);
    assert Escape(s) == e + rest;
    SplitSlice(x, i, e, rest);
  }

  /** Scanning text with no `"` and no `\` followed by a quote reads the text as it is. */
  lemma {:induction false} ScanPlain(x: string, i: nat, j: nat, acc: string)
    requires i <= j < |x| && x[j] == '"'
    requires forall k :: i <= k < j ==> x[k] != '"' && x[k] != '\\'
    ensures ScanString(x, i, acc) == Ok((acc + x[i..j], j + 1))
    decreases j - i
  {
    if i < j {
      ScanPlain(x, i + 1, j, acc + [x[i]]);
      assert acc + [x[i]] + x[i + 1..j] == acc + x[i..j];
    } else {
      assert acc + x[i..j] == acc;
    }
  }

  /** String round trip: lexing a quoted, escaped string yields a String token holding it. */
  lemma StringRoundTrip(s: string)
    ensures Lex("\"" + Escape(s) + "\"", 0) == Ok((Token(String, s), |Escape(s)| + 2))
  {
    var x := "\"" + Escape(s) + "\"";
    assert x[1..1 + |Escape(s)|] == Escape(s);
    ScanEscaped(x, 1, s, "");
    assert "" + s == s;
  }

  /** Without a closing quote lex_string fails with "Unterminated string". */
  lemma {:induction false} MissingQuote(x: string, i: nat, acc: string)
    requires i <= |x| && forall k :: i <= k < |x| ==> x[k] != '"' && x[k] != '\\'
    ensures ScanString(x, i, acc) == Err(UnterminatedString)
    decreases |x| - i
  {
    if i < |x| {
      MissingQuote(x, i + 1, acc + [x[i]]);
    }
  }

  /** A backslash as the last character fails with "Incomplete escape sequence". */
  lemma {:induction false} BackslashAtEnd(x: string, i: nat, acc: string)
    requires i < |x| && x[|x| - 1] == '\\'
    requires forall k :: i <= k < |x| - 1 ==> x[k] != '"' && x[k] != '\\'
    ensures ScanString(x, i, acc) == Err(IncompleteEscape)
    decreases |x| - i
  {
    if i < |x| - 1 {
      BackslashAtEnd(x, i + 1, acc + [x[i]]);
    }
  }

  /** The `\u` escape of RFC 8259 is not among the decoded ones. */
  lemma UnicodeEscapeRejected()
    ensures Lex("\"\\u0041\"", 0) == Err(InvalidEscape)
  {
  }

  /** String tokens: after any blanks, a quoted text without `"` or `\` is read as it is. */
  lemma StringToken(x: string, i: nat, j: nat, e: nat)
    requires i <= j < e < |x| && forall k :: i <= k < j ==> IsSpace(x[k])
    requires x[j] == '"' && x[e] == '"'
    requires forall k :: j < k < e ==> x[k] != '"' && x[k] != '\\'
    ensures Lex(x, i) == Ok((Token(String, x[j + 1..e]), e + 1))
  {
    SkipTo(x, i, j);
    ScanPlain(x, j + 1, e, "");
    assert "" + x[j + 1..e] == x[j + 1..e];
  }

  /** lex_number is lax: a lone minus sign is a number token. */
  lemma LoneMinus()
    ensures Lex("-", 0) == Ok((Token(Number, "-"), 1))
  {
    SkipTo("-", 0, 0);
    assert NumberEnd("-", 0) == 1;
    assert "-"[0..1] == "-";
  }

  /** lex_number is lax: a dot with no digits after it is part of the number. */
  lemma TrailingDot()
    ensures Lex("1.", 0) == Ok((Token(Number, "1."), 2))
  {
    SkipTo("1.", 0, 0);
    assert DigitEnd("1.", 0) == 1;
    assert NumberEnd("1.", 0) == 2;
    assert "1."[0..2] == "1.";
  }

  /** lex_number is lax: an exponent marker with no digits is part of the number. */
  lemma EmptyExponent()
    ensures Lex("1e", 0) == Ok((Token(Number, "1e"), 2))
  {
    SkipTo("1e", 0, 0);
    assert DigitEnd("1e", 0) == 1;
    assert NumberEnd("1e", 0) == 2;
    assert "1e"[0..2] == "1e";
  }

  /** The letters from `i` on stop at `j`. */
  lemma {:induction false} AlphaTo(x: string, i: nat, j: nat)
    requires i <= j <= |x| && forall k :: i <= k < j ==> IsAlpha(x[k])
    requires j == |x| || !IsAlpha(x[j])
    ensures AlphaEnd(x, i) == j
    decreases j - i
  {
    if i < j {
      AlphaTo(x, i + 1, j);
    }
  }

  /**
   * A run of letters is read whole, and only "true", "false" and "null" are accepted: any
   * other run, such as "nulls" or "True", is an invalid keyword.
   */
  lemma KeywordToken(x: string, i: nat, j: nat)
    requires i < j <= |x| && forall k :: i <= k < j ==> IsAlpha(x[k])
    requires j == |x| || !IsAlpha(x[j])
    ensures Lex(x, i).Ok? <==> x[i..j] in {"true", "false", "null"}
    ensures Lex(x, i).Ok? ==> Lex(x, i).value == (Keyword(x[i..j]).value, j)
    ensures Lex(x, i).Err? ==> Lex(x, i).error == InvalidKeyword(x[i..j])
  {
    assert !IsSpace(x[i]) && !IsDigit(x[i]) && x[i] != '-' && x[i] != '"' && Punctuation(x[i]).None?;
    SkipTo(x, i, i);
    AlphaTo(x, i, j);
  }

  /** Where a number may end in what the dump writes: the end, or a `,` `]` `}`. */
  predicate Delimited(x: string, e: nat)
  {
    e == |x| || (e < |x| && (x[e] == ',' || x[e] == ']' || x[e] == '}'))
  }

  /** Text that lex_number reads as one whole lexeme. */
  predicate NumberLexeme(w: string)
  {
    w != [] && (w[0] == '-' || IsDigit(w[0])) && NumberEnd(w, 0) == |w|
  }

  /** Where `x` holds `w` at `i`, a run of digits ends at the same place in both. */
  lemma {:induction false} DigitEndLocal(x: string, i: nat, w: string, k: nat)
    requires i + |w| <= |x| && x[i..i + |w|] == w && k <= |w| && Delimited(x, i + |w|)
    ensures DigitEnd(x, i + k) == i + DigitEnd(w, k)
    decreases |w| - k
  {
    if k < |w| {
      assert x[i + k] == w[k];
      DigitEndLocal(x, i, w, k + 1);
    }
  }

  /** The same for the optional fraction. */
  lemma FractionEndLocal(x: string, i: nat, w: string, k: nat)
    requires i + |w| <= |x| && x[i..i + |w|] == w && k <= |w| && Delimited(x, i + |w|)
    ensures FractionEnd(x, i + k) == i + FractionEnd(w, k)
  {
    if k < |w| {
      assert x[i + k] == w[k];
      if w[k] == '.' {
        DigitEndLocal(x, i, w, k + 1);
      }
    }
  }

  /** The same for the optional exponent. */
  lemma ExponentEndLocal(x: string, i: nat, w: string, k: nat)
    requires i + |w| <= |x| && x[i..i + |w|] == w && k <= |w| && Delimited(x, i + |w|)
    ensures ExponentEnd(x, i + k) == i + ExponentEnd(w, k)
  {
    if k < |w| {
      assert x[i + k] == w[k];
      if w[k] == 'e' || w[k] == 'E' {
        if k + 1 < |w| {
          assert x[i + k + 1] == w[k + 1];
          if w[k + 1] == '+' || w[k + 1] == '-' {
            DigitEndLocal(x, i, w, k + 2);
          } else {
            DigitEndLocal(x, i, w, k + 1);
          }
        } else {
          DigitEndLocal(x, i, w, k + 1);
        }
      }
    }
  }

  /** Where `x` holds the lexeme `w` at `i`, followed by a delimiter, lex_number reads `w`. */
  lemma NumberEndLocal(x: string, i: nat, w: string)
    requires i + |w| <= |x| && x[i..i + |w|] == w && Delimited(x, i + |w|)
    ensures NumberEnd(x, i) == i + NumberEnd(w, 0)
  {
    var a := SignEnd(w, 0);
    SignEndLocal(x, i, w);
    DigitEndLocal(x, i, w, a);
    var b := DigitEnd(w, a);
    FractionEndLocal(x, i, w, b);
    var f := FractionEnd(w, b);
    ExponentEndLocal(x, i, w, f);
  }

  /** The optional sign of `w`, read where `x` holds `w`. */
  lemma SignEndLocal(x: string, i: nat, w: string)
    requires i + |w| <= |x| && x[i..i + |w|] == w && Delimited(x, i + |w|)
    ensures SignEnd(x, i) == i + SignEnd(w, 0)
  {
    if 0 < |w| { assert x[i] == w[0]; }
  }

  /** A number lexeme followed by a delimiter is one Number token. */
  lemma NumberToken(x: string, i: nat, w: string)
    requires i + |w| <= |x| && x[i..i + |w|] == w && Delimited(x, i + |w|) && NumberLexeme(w)
    ensures Lex(x, i) == Ok((Token(Number, w), i + |w|))
  {
    assert x[i] == w[0];
    SkipTo(x, i, i);
    NumberEndLocal(x, i, w);
  }

  /** next_token called until End: every token of the input, End last. */
  function Tokens(x: string, i: nat): (r: Result<seq<Token>, LexError>)
    requires i <= |x|
    ensures r.Ok? ==> |r.value| >= 1 && r.value[|r.value| - 1].kind == End
    ensures r.Ok? ==> forall k :: 0 <= k < |r.value| - 1 ==> r.value[k].kind != End
    decreases |x| - i
  {
    match Lex(x, i)
    case Err(e) => Err(e)
    case Ok((tok, j)) =>
      if tok.kind == End then Ok([tok])
      else
        match Tokens(x, j)
        case Err(e) => Err(e)
        case Ok(rest) => Ok([tok] + rest)
  }

  /** One step of Tokens: a token that is not End, then the tokens after it. */
  lemma TokensStep(x: string, i: nat, tok: Token, j: nat)
    requires i <= j <= |x| && Lex(x, i) == Ok((tok, j)) && tok.kind != End && Tokens(x, j).Ok?
    ensures Tokens(x, i) == Ok([tok] + Tokens(x, j).value)
  {
  }

  /** The text of the lexer example: an object with a number and a string member. */
  const Sample: string := "{\"age\": 25.8, \"name\": \"John\"}"

  /** `x` is the example text, character by character. */
  predicate IsSample(x: string)
  {
    |x| == 29 &&
    x[0] == '{' && x[1] == '\"' && x[2] == 'a' && x[3] == 'g' && x[4] == 'e' && x[5] == '\"' &&
    x[6] == ':' && x[7] == ' ' && x[8] == '2' && x[9] == '5' && x[10] == '.' && x[11] == '8' &&
    x[12] == ',' && x[13] == ' ' && x[14] == '\"' && x[15] == 'n' && x[16] == 'a' && x[17] == 'm' &&
    x[18] == 'e' && x[19] == '\"' && x[20] == ':' && x[21] == ' ' && x[22] == '\"' && x[23] == 'J' &&
    x[24] == 'o' && x[25] == 'h' && x[26] == 'n' && x[27] == '\"' && x[28] == '}'
  }

  lemma SamplePunctuation(x: string)
    requires IsSample(x)
    ensures Lex(x, 0) == Ok((Token(LBrace, "{"), 1))
    ensures Lex(x, 6) == Ok((Token(Colon, ":"), 7))
    ensures Lex(x, 12) == Ok((Token(Comma, ","), 13))
    ensures Lex(x, 20) == Ok((Token(Colon, ":"), 21))
    ensures Lex(x, 28) == Ok((Token(RBrace, "}"), 29))
  {
    PunctuationToken(x, 0, 0);
    PunctuationToken(x, 6, 6);
    PunctuationToken(x, 12, 12);
    PunctuationToken(x, 20, 20);
    PunctuationToken(x, 28, 28);
  }

  lemma SampleStrings(x: string)
    requires IsSample(x)
    ensures Lex(x, 1) == Ok((Token(String, "age"), 6))
    ensures Lex(x, 13) == Ok((Token(String, "name"), 20))
    ensures Lex(x, 21) == Ok((Token(String, "John"), 28))
  {
    StringToken(x, 1, 1, 5);
    assert x[2..5] == "age";
    StringToken(x, 13, 14, 19);
    assert x[15..19] == "name";
    StringToken(x, 21, 22, 27);
    assert x[23..27] == "John";
  }

  lemma SampleLexeme()
    ensures NumberLexeme("25.8")
  {
    assert DigitEnd("25.8", 0) == 2 by {
      assert DigitEnd("25.8", 1) == 2;
    }
    assert DigitEnd("25.8", 3) == 4;
  }

  lemma SampleNumber(x: string)
    requires IsSample(x)
    ensures Lex(x, 7) == Ok((Token(Number, "25.8"), 12))
  {
    assert x[8..12] == "25.8";
    SampleLexeme();
    NumberToken(x, 8, "25.8");
    SkipTo(x, 7, 8);
  }

  /** The tokens of the example, End included. */
  const SampleTokens: seq<Token> := [
    Token(LBrace, "{"), Token(String, "age"), Token(Colon, ":"), Token(Number, "25.8"),
    Token(Comma, ","), Token(String, "name"), Token(Colon, ":"), Token(String, "John"),
    Token(RBrace, "}"), Token(End, "")]

  /** Tokens from the `k`-th token's start on are the example's tokens from `k` on. */
  lemma SampleStep(x: string, i: nat, k: nat, j: nat)
    requires i <= j <= |x| && k < 9
    requires Lex(x, i) == Ok((SampleTokens[k], j)) && Tokens(x, j) == Ok(SampleTokens[k + 1..])
    ensures Tokens(x, i) == Ok(SampleTokens[k..])
  {
    assert SampleTokens[k].kind != End;
    TokensStep(x, i, SampleTokens[k], j);
    assert [SampleTokens[k]] + SampleTokens[k + 1..] == SampleTokens[k..];
  }

  lemma SampleTokenized(x: string)
    requires IsSample(x)
    ensures Tokens(x, 0) == Ok(SampleTokens)
  {
    SamplePunctuation(x);
    SampleStrings(x);
    SampleNumber(x);
    assert Tokens(x, 29) == Ok(SampleTokens[9..]);
    SampleStep(x, 28, 8, 29);
    SampleStep(x, 21, 7, 28);
    SampleStep(x, 20, 6, 21);
    SampleStep(x, 13, 5, 20);
    SampleStep(x, 12, 4, 13);
    SampleStep(x, 7, 3, 12);
    SampleStep(x, 6, 2, 7);
    SampleStep(x, 1, 1, 6);
    SampleStep(x, 0, 0, 1);
  }

  /** The object `{"age": 25.8, "name": "John"}` is ten tokens, End included. */
  lemma TenTokens()
    ensures Tokens(Sample, 0) == Ok(SampleTokens) && |SampleTokens| == 10
  {
    assert IsSample(Sample);
    SampleTokenized(Sample);
  }

  /**
   * JsonLexer: the input (kept by value) and the cursor `pos`. Every method states its effect
   * as the function above that it carries out.
   */
  class JsonLexer {
    const input: string
    var pos: nat

    ghost predicate Valid()
      reads this
    {
      pos <= |input|
    }

    constructor(input: string)
      ensures Valid() && this.input == input && pos == 0
    {
      this.input := input;
      pos := 0;
    }

    /** The character under the cursor, or '\0' at the end. */
    method Peek() returns (c: char)
      requires Valid()
      ensures pos < |input| ==> c == input[pos]
      ensures pos >= |input| ==> c == '\0'
    {
      c := if pos < |input| then input[pos] else '\0';
    }

    /** The character under the cursor, which is passed; '\0' and no move at the end. */
    method Consume() returns (c: char)
      requires Valid()
      modifies this`pos
      ensures Valid()
      ensures old(pos) < |input| ==> c == input[old(pos)] && pos == old(pos) + 1
      ensures old(pos) >= |input| ==> c == '\0' && pos == old(pos)
    {
      if pos < |input| {
        c := input[pos];
        pos := pos + 1;
      } else {
        c := '\0';
      }
    }

    method SkipWhitespace()
      requires Valid()
      modifies this`pos
      ensures Valid() && pos == SkipWs(input, old(pos))
    {
      while pos < |input| && IsSpace(input[pos])
        invariant Valid() && SkipWs(input, pos) == SkipWs(input, old(pos))
        decreases |input| - pos
      {
        pos := pos + 1;
      }
    }

    /** Entered just past the opening quote. */
    method LexString() returns (r: Result<Token, LexError>)
      requires Valid()
      modifies this`pos
      ensures Valid()
      ensures match ScanString(input, old(pos), "")
              case Ok((v, j)) => r == Ok(Token(String, v)) && pos == j
              case Err(e) => r == Err(e)
    {
      var s := "";
      while pos < |input| && input[pos] != '"'
        invariant Valid() && ScanString(input, pos, s) == ScanString(input, old(pos), "")
        decreases |input| - pos
      {
        var c := Consume();
        if c == '\\' {
          if pos >= |input| {
            return Err(IncompleteEscape);
          }
          c := Consume();
          match Unescape(c)
          case Some(d) => s := s + [d];
          case None => return Err(InvalidEscape);
        } else {
          s := s + [c];
        }
      }
      if pos >= |input| || input[pos] != '"' {
        return Err(UnterminatedString);
      }
      var _ := Consume();
      return Ok(Token(String, s));
    }

    /** One of the digit loops of lex_number: the digits passed over. */
    method LexDigits() returns (digits: string)
      requires Valid()
      modifies this`pos
      ensures Valid() && pos == DigitEnd(input, old(pos)) && digits == input[old(pos)..pos]
    {
      digits := "";
      while pos < |input| && IsDigit(input[pos])
        invariant Valid() && old(pos) <= pos
        invariant digits == input[old(pos)..pos] && DigitEnd(input, pos) == DigitEnd(input, old(pos))
        decreases |input| - pos
      {
        var c := Consume();
        digits := digits + [c];
      }
    }

    /** The fraction part of lex_number, if the cursor is on a '.'. */
    method LexFraction() returns (part: string)
      requires Valid()
      modifies this`pos
      ensures Valid() && pos == FractionEnd(input, old(pos)) && part == input[old(pos)..pos]
    {
      part := "";
      if pos < |input| && input[pos] == '.' {
        var c := Consume();
        part := part + [c];
        var digits := LexDigits();
        SliceConcat(input, old(pos), old(pos) + 1, pos);
        part := part + digits;
      }
    }

    /** The exponent part of lex_number, if the cursor is on an 'e' or 'E'. */
    method LexExponent() returns (part: string)
      requires Valid()
      modifies this`pos
      ensures Valid() && pos == ExponentEnd(input, old(pos)) && part == input[old(pos)..pos]
    {
      part := "";
      if pos < |input| && (input[pos] == 'e' || input[pos] == 'E') {
        var c := Consume();
        part := part + [c];
        if pos < |input| && (input[pos] == '+' || input[pos] == '-') {
          c := Consume();
          part := part + [c];
        }
        ghost var mid := pos;
        var digits := LexDigits();
        SliceConcat(input, old(pos), mid, pos);
        part := part + digits;
      }
    }

    /** Entered on the '-' or the first digit. */
    method LexNumber() returns (r: Result<Token, LexError>)
      requires Valid()
      modifies this`pos
      ensures Valid() && pos == NumberEnd(input, old(pos))
      ensures r == Ok(Token(Number, input[old(pos)..pos]))
    {
      var num := "";
      var c := Peek();
      if c == '-' {
        c := Consume();
        num := num + [c];
      }
      ghost var p1 := pos;
      assert num == input[old(pos)..p1];
      var part := LexDigits();
      SliceConcat(input, old(pos), p1, pos);
      num := num + part;
      ghost var p2 := pos;
      part := LexFraction();
      SliceConcat(input, old(pos), p2, pos);
      num := num + part;
      ghost var p3 := pos;
      part := LexExponent();
      SliceConcat(input, old(pos), p3, pos);
      num := num + part;
      return Ok(Token(Number, num));
    }

    /** Entered on the first letter. */
    method LexKeyword() returns (r: Result<Token, LexError>)
      requires Valid()
      modifies this`pos
      ensures Valid() && pos == AlphaEnd(input, old(pos))
      ensures r == Keyword(input[old(pos)..pos])
    {
      var keyword := "";
      while pos < |input| && IsAlpha(input[pos])
        invariant Valid() && old(pos) <= pos
        invariant keyword == input[old(pos)..pos] && AlphaEnd(input, pos) == AlphaEnd(input, old(pos))
        decreases |input| - pos
      {
        var c := Consume();
        keyword := keyword + [c];
      }
      if keyword == "true" {
        return Ok(Token(True, keyword));
      }
      if keyword == "false" {
        return Ok(Token(False, keyword));
      }
      if keyword == "null" {
        return Ok(Token(Null, keyword));
      }
      return Err(InvalidKeyword(keyword));
    }

    /** next_token: the token `Lex` yields at the cursor, and the cursor moved past it. */
    method NextToken() returns (r: Result<Token, LexError>)
      requires Valid()
      modifies this`pos
      ensures Valid()
      ensures match Lex(input, old(pos))
              case Ok((tok, j)) => r == Ok(tok) && pos == j
              case Err(e) => r == Err(e)
    {
      SkipWhitespace();
      if pos >= |input| {
        return Ok(Token(End, ""));
      }
      var c := Consume();
      match Punctuation(c)
      case Some(kind) =>
        return Ok(Token(kind, [c]));
      case None =>
        if c == '"' {
          r := LexString();
        } else if c == '-' || IsDigit(c) {
          pos := pos - 1;
          r := LexNumber();
        } else if IsAlpha(c) {
          pos := pos - 1;
          r := LexKeyword();
        } else {
          return Err(InvalidCharacter(pos));
        }
    }
  }
}
