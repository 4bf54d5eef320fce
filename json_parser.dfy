/**
 * The recursive-descent JSON parser (json_parser.cpp). The parser keeps one token of
 * lookahead, `current_token_`, and pulls the next one from its lexer on demand.
 *
 * The behaviour is stated as pure functions of the input and a parser state (the current
 * token and the lexer's cursor after it); the class `JsonParser` carries out the same steps on
 * its fields, with the same loops, and is proved to agree with them. A lexer error surfaces
 * exactly when the C++ parser would pull the token that causes it.
 */
module JsonParsing {
  import opened Common
  import opened CStd
  import opened JsonLexing
  import opened JsonValues

  /** The runtime_errors the parser throws, and those of the lexer passing through it. */
  datatype ParseError =
    | LexFailure(cause: LexError)
    | InvalidValue                     // "Invalid JSON value"
    | ExpectedToken(kind: TokenType)   // "Expected '{'", "Expected string", ...: the entry checks
    | ExpectedStringKey                // "Expected string key"
    | ExpectedColon                    // "Expected ':'"
    | ExpectedCommaOrBrace             // "Expected ',' or '}'"
    | ExpectedCommaOrBracket           // "Expected ',' or ']'"
    | InvalidNumberFormat(lexeme: string)  // "Invalid number format: " + lexeme
    | UnexpectedTrailing               // "Unexpected token after JSON value"

  /**
   * The parser's lexer, as the parser uses it: next_token with the cursor at a position gives
   * a token and the new cursor. `size` is the length of the input.
   */
  datatype Source = Source(next: nat -> Result<(Token, nat), LexError>, size: nat)

  /** The lexer of json_lexer.cpp on the input `x`. */
  function Lexer(x: string): Source
  {
    Source((p: nat) => if p <= |x| then Lex(x, p) else Ok((Token(End, ""), |x|)), |x|)
  }

  /**
   * What the parser relies on from next_token: the cursor stays within the input, End comes
   * only at its end, and any other token moves the cursor forward.
   */
  predicate Sound(src: Source)
  {
    forall p: nat {:trigger src.next(p)} :: p <= src.size && src.next(p).Ok? ==>
      p <= src.next(p).value.1 <= src.size
      && (src.next(p).value.0.kind == End ==> src.next(p).value.1 == src.size)
      && (src.next(p).value.0.kind != End ==> p < src.next(p).value.1)
  }

  /** The lexer of json_lexer.cpp has these properties. */
  lemma LexerSound(x: string)
    ensures Sound(Lexer(x))
  {
    forall p: nat | p <= |x| && Lexer(x).next(p).Ok?
      ensures p <= Lexer(x).next(p).value.1 <= |x|
    {
      assert Lexer(x).next(p) == Lex(x, p);
    }
  }

  /** current_token_ and the lexer's cursor just after it. */
  datatype PState = PState(tok: Token, pos: nat)

  /** A state the parser can be in: the cursor within the input, at its end once End is read. */
  predicate Fits(src: Source, st: PState)
  {
    st.pos <= src.size && (st.tok.kind == End ==> st.pos == src.size)
  }

  /** What is left to read; every token pulled past a token other than End makes it smaller. */
  function Measure(src: Source, st: PState): nat
    requires Fits(src, st)
  {
    2 * (src.size - st.pos) + (if st.tok.kind == End then 0 else 1)
  }

  /** A call of the lexer's next_token at `pos`, as the new parser state. */
  function Pull(src: Source, pos: nat): (r: Result<PState, ParseError>)
    requires Sound(src) && pos <= src.size
    ensures r.Ok? ==> Fits(src, r.value) && pos <= r.value.pos
    ensures r.Ok? && r.value.tok.kind != End ==> pos < r.value.pos
  {
    match src.next(pos)
    case Ok((tok, j)) => Ok(PState(tok, j))
    case Err(e) => Err(LexFailure(e))
  }

  /** JsonParser::next_token: the token after the current one. */
  function Advance(src: Source, st: PState): (r: Result<PState, ParseError>)
    requires Sound(src) && Fits(src, st)
    ensures r.Ok? ==> Fits(src, r.value)
    ensures r.Ok? && st.tok.kind != End ==> Measure(src, r.value) < Measure(src, st)
  {
    Pull(src, st.pos)
  }

  /**
   * What std::stod makes of a lex_number lexeme: it converts the longest prefix that is a
   * decimal number and throws invalid_argument when there is none, that is when neither a digit
   * before the point nor a digit right after it follows the optional sign. It throws
   * out_of_range when the value lies outside the range of a double.
   */
  predicate StodAccepts(w: string)
  {
    var s := SignEnd(w, 0);
    var d := DigitEnd(w, s);
    (d > s || (d + 1 < |w| && w[d] == '.' && IsDigit(w[d + 1]))) && StodInRange(w)
  }

  /** The closing token of a container: pass it and deliver `v`. */
  function Close(src: Source, st: PState, v: Value): (r: Result<(Value, PState), ParseError>)
    requires Sound(src) && Fits(src, st) && st.tok.kind != End
    ensures r.Ok? ==> Fits(src, r.value.1) && Measure(src, r.value.1) < Measure(src, st) && r.value.0 == v
  {
    match Advance(src, st)
    case Ok(st1) => Ok((v, st1))
    case Err(e) => Err(e)
  }

  /** parse_value: the value starting at the current token and the state after it. */
  /** The tokens a value can start with. */
  predicate StartsValue(kind: TokenType)
  {
    kind in {LBrace, LBracket, String, TokenType.Number, True, False, TokenType.Null}
  }

  function ParseValue(src: Source, st: PState): (r: Result<(Value, PState), ParseError>)
    requires Sound(src) && Fits(src, st)
    ensures r.Ok? ==> Fits(src, r.value.1) && Measure(src, r.value.1) < Measure(src, st)
    ensures r.Err? ==> !r.error.ExpectedToken?
    ensures !StartsValue(st.tok.kind) ==> r == Err(InvalidValue)
    decreases Measure(src, st), 2
  {
    match st.tok.kind
    case LBrace => ParseObject(src, st)
    case LBracket => ParseArray(src, st)
    case String => ParseString(src, st)
    case Number => ParseNumber(src, st)
    case True => ParseBoolean(src, st)
    case False => ParseBoolean(src, st)
    case Null => ParseNull(src, st)
    case _ => Err(InvalidValue)
  }

  /** parse_object: `{`, then `}` or the members. */
  function ParseObject(src: Source, st: PState): (r: Result<(Value, PState), ParseError>)
    requires Sound(src) && Fits(src, st)
    ensures r.Ok? ==> Fits(src, r.value.1) && Measure(src, r.value.1) < Measure(src, st)
    ensures r.Ok? ==> r.value.0.Object?
    ensures r.Err? && st.tok.kind == LBrace ==> !r.error.ExpectedToken?
    decreases Measure(src, st), 1
  {
    if st.tok.kind != LBrace then Err(ExpectedToken(LBrace))
    else
      match Advance(src, st)
      case Err(e) => Err(e)
      case Ok(st1) =>
        if st1.tok.kind == RBrace then Close(src, st1, Object(map[]))
        else ParseMembers(src, st1, map[])
  }

  /**
   * The loop of parse_object from a key on, with `acc` the members read so far: `"key"`, `:`,
   * a value, then `}` to finish or `,` and the next key. A repeated key takes the later value.
   */
  function ParseMembers(src: Source, st: PState, acc: map<string, Value>): (r: Result<(Value, PState), ParseError>)
    requires Sound(src) && Fits(src, st)
    ensures r.Ok? ==> Fits(src, r.value.1) && Measure(src, r.value.1) < Measure(src, st)
    ensures r.Ok? ==> r.value.0.Object?
    ensures r.Err? ==> !r.error.ExpectedToken?
    decreases Measure(src, st), 0
  {
    if st.tok.kind != String then Err(ExpectedStringKey)
    else
      var key := st.tok.value;
      match Advance(src, st)
      case Err(e) => Err(e)
      case Ok(st1) =>
        if st1.tok.kind != Colon then Err(ExpectedColon)
        else
          match Advance(src, st1)
          case Err(e) => Err(e)
          case Ok(st2) =>
            match ParseValue(src, st2)
            case Err(e) => Err(e)
            case Ok((v, st3)) =>
              var acc' := acc[key := v];
              if st3.tok.kind == RBrace then Close(src, st3, Object(acc'))
              else if st3.tok.kind != Comma then Err(ExpectedCommaOrBrace)
              else
                match Advance(src, st3)
                case Err(e) => Err(e)
                case Ok(st4) => ParseMembers(src, st4, acc')
  }

  /** parse_array: `[`, then `]` or the elements. */
  function ParseArray(src: Source, st: PState): (r: Result<(Value, PState), ParseError>)
    requires Sound(src) && Fits(src, st)
    ensures r.Ok? ==> Fits(src, r.value.1) && Measure(src, r.value.1) < Measure(src, st)
    ensures r.Ok? ==> r.value.0.Array?
    ensures r.Err? && st.tok.kind == LBracket ==> !r.error.ExpectedToken?
    decreases Measure(src, st), 1
  {
    if st.tok.kind != LBracket then Err(ExpectedToken(LBracket))
    else
      match Advance(src, st)
      case Err(e) => Err(e)
      case Ok(st1) =>
        if st1.tok.kind == RBracket then Close(src, st1, Array([]))
        else ParseElements(src, st1, [])
  }

  /**
   * The loop of parse_array from an element on, with `acc` the elements read so far: a value,
   * then `]` to finish or `,` and the next element. Elements keep their order.
   */
  function ParseElements(src: Source, st: PState, acc: seq<Value>): (r: Result<(Value, PState), ParseError>)
    requires Sound(src) && Fits(src, st)
    ensures r.Ok? ==> Fits(src, r.value.1) && Measure(src, r.value.1) < Measure(src, st)
    ensures r.Ok? ==> r.value.0.Array? && |r.value.0.items| > |acc| && r.value.0.items[..|acc|] == acc
    ensures r.Err? ==> !r.error.ExpectedToken?
    decreases Measure(src, st), 3
  {
    match ParseValue(src, st)
    case Err(e) => Err(e)
    case Ok((v, st1)) =>
      var acc' := acc + [v];
      if st1.tok.kind == RBracket then Close(src, st1, Array(acc'))
      else if st1.tok.kind != Comma then Err(ExpectedCommaOrBracket)
      else
        match Advance(src, st1)
        case Err(e) => Err(e)
        case Ok(st2) =>
          var r := ParseElements(src, st2, acc');
          assert r.Ok? ==> r.value.0.items[..|acc|] == r.value.0.items[..|acc'|][..|acc|];
          r
  }

  /** parse_string: the token's decoded text. */
  function ParseString(src: Source, st: PState): (r: Result<(Value, PState), ParseError>)
    requires Sound(src) && Fits(src, st)
    ensures r.Ok? ==> Fits(src, r.value.1) && Measure(src, r.value.1) < Measure(src, st)
    ensures r.Ok? <==> st.tok.kind == String && Advance(src, st).Ok?
    ensures r.Ok? ==> r.value.0 == Str(st.tok.value)
  {
    if st.tok.kind != String then Err(ExpectedToken(String))
    else Close(src, st, Str(st.tok.value))
  }

  /**
   * parse_number: std::stod converts the lexeme. Its failure, and also a failure of the lexer
   * on the token after the number (the next_token call sits inside the same try block), is
   * reported as "Invalid number format: " + lexeme.
   */
  function ParseNumber(src: Source, st: PState): (r: Result<(Value, PState), ParseError>)
    requires Sound(src) && Fits(src, st)
    ensures r.Ok? ==> Fits(src, r.value.1) && Measure(src, r.value.1) < Measure(src, st)
    ensures st.tok.kind == TokenType.Number ==>
              (r.Ok? <==> StodAccepts(st.tok.value) && Advance(src, st).Ok?)
              && (r.Ok? ==> r.value.0 == Value.Number(st.tok.value))
              && (r.Err? ==> r.error == InvalidNumberFormat(st.tok.value))
  {
    if st.tok.kind != TokenType.Number then Err(ExpectedToken(TokenType.Number))
    else if !StodAccepts(st.tok.value) then Err(InvalidNumberFormat(st.tok.value))
    else
      match Advance(src, st)
      case Ok(st1) => Ok((Value.Number(st.tok.value), st1))
      case Err(_) => Err(InvalidNumberFormat(st.tok.value))
  }

  /** parse_boolean: `true` or `false`. */
  function ParseBoolean(src: Source, st: PState): (r: Result<(Value, PState), ParseError>)
    requires Sound(src) && Fits(src, st)
    ensures r.Ok? ==> Fits(src, r.value.1) && Measure(src, r.value.1) < Measure(src, st)
    ensures r.Ok? <==> (st.tok.kind == True || st.tok.kind == False) && Advance(src, st).Ok?
    ensures r.Ok? ==> r.value.0 == Boolean(st.tok.kind == True)
  {
    if st.tok.kind == True then Close(src, st, Boolean(true))
    else if st.tok.kind == False then Close(src, st, Boolean(false))
    else Err(ExpectedToken(True))
  }

  /** parse_null. */
  function ParseNull(src: Source, st: PState): (r: Result<(Value, PState), ParseError>)
    requires Sound(src) && Fits(src, st)
    ensures r.Ok? ==> Fits(src, r.value.1) && Measure(src, r.value.1) < Measure(src, st)
    ensures r.Ok? <==> st.tok.kind == TokenType.Null && Advance(src, st).Ok?
    ensures r.Ok? ==> r.value.0 == Value.Null
  {
    if st.tok.kind != TokenType.Null then Err(ExpectedToken(TokenType.Null))
    else Close(src, st, Value.Null)
  }

  /**
   * JsonParser(input).parse(): the constructor pulls the first token, then one value is read
   * and it must be followed by End.
   */
  function Parse(x: string): (r: Result<Value, ParseError>)
    ensures r.Err? ==> !r.error.ExpectedToken?
  {
    LexerSound(x);
    ParseFrom(Lexer(x))
  }

  /** The same with any lexer that keeps the promises the parser relies on. */
  function ParseFrom(src: Source): (r: Result<Value, ParseError>)
    requires Sound(src)
    ensures r.Err? ==> !r.error.ExpectedToken?
  {
    match Pull(src, 0)
    case Err(e) => Err(e)
    case Ok(st) => ParseAll(src, st)
  }

  /** JsonParser::parse from the state `st`: one value, which must be followed by End. */
  function ParseAll(src: Source, st: PState): (r: Result<Value, ParseError>)
    requires Sound(src) && Fits(src, st)
    ensures r.Err? ==> !r.error.ExpectedToken?
  {
    match ParseValue(src, st)
    case Err(e) => Err(e)
    case Ok((v, st1)) => if st1.tok.kind != End then Err(UnexpectedTrailing) else Ok(v)
  }

  /*
   * One step of the parser at a time: the lemmas below unfold the functions above once, so that
   * proofs about whole texts can go token by token.
   */

  /** A scalar token is the whole value. */
  lemma ScalarStep(src: Source, st: PState, v: Value)
    requires Sound(src) && Fits(src, st) && Advance(src, st).Ok?
    requires || (st.tok.kind == TokenType.Null && v == Value.Null)
             || (st.tok.kind == True && v == Boolean(true))
             || (st.tok.kind == False && v == Boolean(false))
             || (st.tok.kind == String && v == Str(st.tok.value))
             || (st.tok.kind == TokenType.Number && StodAccepts(st.tok.value) && v == Value.Number(st.tok.value))
    ensures ParseValue(src, st) == Ok((v, Advance(src, st).value))
  {
  }

  /** `[` directly followed by `]`. */
  lemma EmptyArrayStep(src: Source, st: PState, st1: PState)
    requires Sound(src) && Fits(src, st) && st.tok.kind == LBracket && Advance(src, st) == Ok(st1)
    requires st1.tok.kind == RBracket && Advance(src, st1).Ok?
    ensures ParseValue(src, st) == Ok((Array([]), Advance(src, st1).value))
  {
  }

  /** `[` followed by something else: the element loop. */
  lemma ArrayStep(src: Source, st: PState, st1: PState)
    requires Sound(src) && Fits(src, st) && st.tok.kind == LBracket && Advance(src, st) == Ok(st1)
    requires st1.tok.kind != RBracket
    ensures ParseValue(src, st) == ParseElements(src, st1, [])
  {
  }

  /** The last element, followed by `]`. */
  lemma LastElementStep(src: Source, st: PState, acc: seq<Value>, v: Value, st1: PState)
    requires Sound(src) && Fits(src, st) && ParseValue(src, st) == Ok((v, st1))
    requires st1.tok.kind == RBracket && Advance(src, st1).Ok?
    ensures ParseElements(src, st, acc) == Ok((Array(acc + [v]), Advance(src, st1).value))
  {
  }

  /** An element followed by `,`: the loop goes on with the next one. */
  lemma NextElementStep(src: Source, st: PState, acc: seq<Value>, v: Value, st1: PState, st2: PState)
    requires Sound(src) && Fits(src, st) && ParseValue(src, st) == Ok((v, st1))
    requires st1.tok.kind == Comma && Advance(src, st1) == Ok(st2)
    ensures ParseElements(src, st, acc) == ParseElements(src, st2, acc + [v])
  {
  }

  /** `{` directly followed by `}`. */
  lemma EmptyObjectStep(src: Source, st: PState, st1: PState)
    requires Sound(src) && Fits(src, st) && st.tok.kind == LBrace && Advance(src, st) == Ok(st1)
    requires st1.tok.kind == RBrace && Advance(src, st1).Ok?
    ensures ParseValue(src, st) == Ok((Object(map[]), Advance(src, st1).value))
  {
  }

  /** `{` followed by something else: the member loop. */
  lemma ObjectStep(src: Source, st: PState, st1: PState)
    requires Sound(src) && Fits(src, st) && st.tok.kind == LBrace && Advance(src, st) == Ok(st1)
    requires st1.tok.kind != RBrace
    ensures ParseValue(src, st) == ParseMembers(src, st1, map[])
  {
  }

  /** `"key" :` then a value, as the start of a member. */
  predicate MemberHead(src: Source, st: PState, st2: PState)
    requires Sound(src)
  {
    Fits(src, st) && st.tok.kind == String
    && Advance(src, st).Ok? && Advance(src, st).value.tok.kind == Colon
    && Advance(src, Advance(src, st).value) == Ok(st2)
  }

  /** The last member, followed by `}`. */
  lemma LastMemberStep(src: Source, st: PState, acc: map<string, Value>, st2: PState, v: Value, st3: PState)
    requires Sound(src) && MemberHead(src, st, st2) && ParseValue(src, st2) == Ok((v, st3))
    requires st3.tok.kind == RBrace && Advance(src, st3).Ok?
    ensures ParseMembers(src, st, acc) == Ok((Object(acc[st.tok.value := v]), Advance(src, st3).value))
  {
  }

  /** A member followed by `,`: the loop goes on with the next key. */
  lemma NextMemberStep(src: Source, st: PState, acc: map<string, Value>, st2: PState, v: Value, st3: PState, st4: PState)
    requires Sound(src) && MemberHead(src, st, st2) && ParseValue(src, st2) == Ok((v, st3))
    requires st3.tok.kind == Comma && Advance(src, st3) == Ok(st4)
    ensures ParseMembers(src, st, acc) == ParseMembers(src, st4, acc[st.tok.value := v])
  {
  }
}
