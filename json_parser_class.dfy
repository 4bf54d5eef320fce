/**
 * The JsonParser class of json_parser.cpp: a lexer object and the current token, changed in
 * place by next_token. Each method does what the function of the same name in JsonParsing
 * computes from the parser's state before the call.
 */
module JsonParserClass {
  import opened Common
  import opened JsonLexing
  import opened JsonValues
  import P = JsonParsing

  /** A method's result and the parser state it leaves, in the form the spec functions give. */
  function Outcome(r: Result<Value, P.ParseError>, st: P.PState): Result<(Value, P.PState), P.ParseError>
  {
    match r
    case Ok(v) => Ok((v, st))
    case Err(e) => Err(e)
  }

  class JsonParser {
    const lexer: JsonLexer
    var current: Token

    /** The lexer as the spec functions see it. */
    ghost function Src(): P.Source
    {
      P.Lexer(lexer.input)
    }

    /** current_token_ and the lexer's cursor. */
    ghost function State(): P.PState
      reads this, lexer
    {
      P.PState(current, lexer.pos)
    }

    ghost predicate Valid()
      reads this, lexer
    {
      lexer.Valid() && P.Sound(Src()) && P.Fits(Src(), State())
    }

    /** The parser over `lexer`, whose first token, `first`, has been read. */
    constructor(lexer: JsonLexer, first: Token)
      requires lexer.Valid() && P.Pull(P.Lexer(lexer.input), 0) == Ok(P.PState(first, lexer.pos))
      ensures Valid() && this.lexer == lexer && current == first
    {
      this.lexer := lexer;
      current := first;
      P.LexerSound(lexer.input);
    }

    /** JsonParser(input): a new lexer over `input`, and its first token pulled. */
    static method Open(input: string) returns (r: Result<JsonParser, P.ParseError>)
      ensures r.Ok? ==> fresh(r.value) && fresh(r.value.lexer) && r.value.Valid()
      ensures r.Ok? ==> r.value.lexer.input == input && P.Pull(P.Lexer(input), 0) == Ok(r.value.State())
      ensures r.Err? ==> P.Pull(P.Lexer(input), 0) == Err(r.error)
    {
      var lx := new JsonLexer(input);
      var t := lx.NextToken();
      match t
      case Err(e) => return Err(P.LexFailure(e));
      case Ok(tok) =>
        var p := new JsonParser(lx, tok);
        return Ok(p);
    }

    /** next_token: the lexer's next token becomes the current one. */
    method NextToken() returns (e: Option<P.ParseError>)
      requires Valid()
      modifies this, lexer
      ensures e.None? ==> Valid()
      ensures P.Advance(Src(), old(State())) == if e.None? then Ok(State()) else Err(e.value)
    {
      var t := lexer.NextToken();
      match t
      case Err(err) => return Some(P.LexFailure(err));
      case Ok(tok) =>
        current := tok;
        return None;
    }

    /** parse(): one value, which must be followed by End. */
    method Parse() returns (r: Result<Value, P.ParseError>)
      requires Valid()
      modifies this, lexer
      ensures r == P.ParseAll(Src(), old(State()))
    {
      var v := ParseValue();
      if v.Err? {
        return Err(v.error);
      }
      if current.kind != End {
        return Err(P.UnexpectedTrailing);
      }
      return Ok(v.value);
    }

    /** parse_value: dispatch on the current token. */
    method ParseValue() returns (r: Result<Value, P.ParseError>)
      requires Valid()
      modifies this, lexer
      ensures r.Ok? ==> Valid()
      ensures P.ParseValue(Src(), old(State())) == Outcome(r, State())
      decreases P.Measure(Src(), State()), 2
    {
      match current.kind
      case LBrace => r := ParseObject();
      case LBracket => r := ParseArray();
      case String => r := ParseString();
      case Number => r := ParseNumber();
      case True => r := ParseBoolean();
      case False => r := ParseBoolean();
      case Null => r := ParseNull();
      case _ => r := Err(P.InvalidValue);
    }

    /** parse_object: `{`, then the members in a loop until `}`. */
    method ParseObject() returns (r: Result<Value, P.ParseError>)
      requires Valid()
      modifies this, lexer
      ensures r.Ok? ==> Valid()
      ensures P.ParseObject(Src(), old(State())) == Outcome(r, State())
      decreases P.Measure(Src(), State()), 1
    {
      if current.kind != LBrace {
        return Err(P.ExpectedToken(LBrace));
      }
      var e := NextToken();
      if e.Some? {
        return Err(e.value);
      }
      var obj: map<string, Value> := map[];
      if current.kind != RBrace {
        while true
          invariant Valid()
          invariant P.Measure(Src(), State()) < P.Measure(Src(), old(State()))
          invariant P.ParseObject(Src(), old(State())) == P.ParseMembers(Src(), State(), obj)
          decreases P.Measure(Src(), State())
        {
          if current.kind != String {
            return Err(P.ExpectedStringKey);
          }
          var key := current.value;
          e := NextToken();
          if e.Some? {
            return Err(e.value);
          }
          if current.kind != Colon {
            return Err(P.ExpectedColon);
          }
          e := NextToken();
          if e.Some? {
            return Err(e.value);
          }
          var v := ParseValue();
          if v.Err? {
            return Err(v.error);
          }
          obj := obj[key := v.value];
          if current.kind == RBrace {
            break;
          }
          if current.kind != Comma {
            return Err(P.ExpectedCommaOrBrace);
          }
          e := NextToken();
          if e.Some? {
            return Err(e.value);
          }
        }
      }
      e := NextToken();
      if e.Some? {
        return Err(e.value);
      }
      return Ok(Object(obj));
    }

    /** parse_array: `[`, then the elements in a loop until `]`. */
    method ParseArray() returns (r: Result<Value, P.ParseError>)
      requires Valid()
      modifies this, lexer
      ensures r.Ok? ==> Valid()
      ensures P.ParseArray(Src(), old(State())) == Outcome(r, State())
      decreases P.Measure(Src(), State()), 1
    {
      if current.kind != LBracket {
        return Err(P.ExpectedToken(LBracket));
      }
      var e := NextToken();
      if e.Some? {
        return Err(e.value);
      }
      var arr: seq<Value> := [];
      if current.kind != RBracket {
        while true
          invariant Valid()
          invariant P.Measure(Src(), State()) < P.Measure(Src(), old(State()))
          invariant P.ParseArray(Src(), old(State())) == P.ParseElements(Src(), State(), arr)
          decreases P.Measure(Src(), State())
        {
          var v := ParseValue();
          if v.Err? {
            return Err(v.error);
          }
          arr := arr + [v.value];
          if current.kind == RBracket {
            break;
          }
          if current.kind != Comma {
            return Err(P.ExpectedCommaOrBracket);
          }
          e := NextToken();
          if e.Some? {
            return Err(e.value);
          }
        }
      }
      e := NextToken();
      if e.Some? {
        return Err(e.value);
      }
      return Ok(Array(arr));
    }

    method ParseString() returns (r: Result<Value, P.ParseError>)
      requires Valid()
      modifies this, lexer
      ensures r.Ok? ==> Valid()
      ensures P.ParseString(Src(), old(State())) == Outcome(r, State())
    {
      if current.kind != String {
        return Err(P.ExpectedToken(String));
      }
      var s := current.value;
      var e := NextToken();
      if e.Some? {
        return Err(e.value);
      }
      return Ok(Str(s));
    }

    /** parse_number: the lexeme is kept; std::stod's verdict is StodAccepts. */
    method ParseNumber() returns (r: Result<Value, P.ParseError>)
      requires Valid()
      modifies this, lexer
      ensures r.Ok? ==> Valid()
      ensures P.ParseNumber(Src(), old(State())) == Outcome(r, State())
    {
      if current.kind != TokenType.Number {
        return Err(P.ExpectedToken(TokenType.Number));
      }
      var w := current.value;
      if !P.StodAccepts(w) {
        return Err(P.InvalidNumberFormat(w));
      }
      var e := NextToken();
      if e.Some? {
        return Err(P.InvalidNumberFormat(w));
      }
      return Ok(Value.Number(w));
    }

    method ParseBoolean() returns (r: Result<Value, P.ParseError>)
      requires Valid()
      modifies this, lexer
      ensures r.Ok? ==> Valid()
      ensures P.ParseBoolean(Src(), old(State())) == Outcome(r, State())
    {
      if current.kind == True {
        var e := NextToken();
        if e.Some? {
          return Err(e.value);
        }
        return Ok(Boolean(true));
      }
      if current.kind == False {
        var e := NextToken();
        if e.Some? {
          return Err(e.value);
        }
        return Ok(Boolean(false));
      }
      return Err(P.ExpectedToken(True));
    }

    method ParseNull() returns (r: Result<Value, P.ParseError>)
      requires Valid()
      modifies this, lexer
      ensures r.Ok? ==> Valid()
      ensures P.ParseNull(Src(), old(State())) == Outcome(r, State())
    {
      if current.kind != TokenType.Null {
        return Err(P.ExpectedToken(TokenType.Null));
      }
      var e := NextToken();
      if e.Some? {
        return Err(e.value);
      }
      return Ok(Value.Null);
    }
  }
}
