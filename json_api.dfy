/**
 * JsonApi (json_api.cpp): parsing a text, and typed access to the members of an object. The
 * file reading and writing of `read` and `write` is not part of this model.
 */
module JsonApi {
  import opened Common
  import opened JsonValues
  import opened JsonObjects
  import JsonParsing
  import JsonParserClass

  /** The runtime_errors of the typed getters. */
  datatype ApiError =
    | NotAnObject            // "JSON value is not an object"
    | KeyNotFound(key: string)  // "Key not found: " + key
    | NotANumber             // "Value is not a number"
    | NotAString             // "Value is not a string"
    | NotABoolean            // "Value is not a boolean"

  /** parse: JsonParser(input).parse(). */
  method Parse(input: string) returns (r: Result<Value, JsonParsing.ParseError>)
    ensures r == JsonParsing.Parse(input)
  {
    var start := JsonParserClass.JsonParser.Open(input);
    match start
    case Err(e) => return Err(e);
    case Ok(p) => r := p.Parse();
  }

  /** has: false for anything but an object, key membership for an object. */
  predicate Has(j: Value, key: string)
  {
    j.Object? && key in j.members
  }

  /** remove: remove_key on the object. */
  method Remove(j: JsonObject, key: string)
    modifies j
    ensures j.values == old(j.values) - {key}
    ensures !Has(j.Clone(), key)
    ensures forall k :: k != key ==> (Has(j.Clone(), k) <==> old(Has(j.Clone(), k)))
  {
    j.RemoveKey(key);
  }

  /** The checks every get<T> makes before it reads the member: an object, holding the key. */
  function Member(j: Value, key: string): (r: Result<Value, ApiError>)
    ensures !j.Object? ==> r == Err(NotAnObject)
    ensures j.Object? && key !in j.members ==> r == Err(KeyNotFound(key))
    ensures r.Ok? <==> Has(j, key)
    ensures r.Ok? ==> r.value == j.members[key]
  {
    if !j.Object? then Err(NotAnObject)
    else if key !in j.members then Err(KeyNotFound(key))
    else Ok(j.members[key])
  }

  /** get<double>: the number's lexeme (the conversion to double is not modelled). */
  function GetNumber(j: Value, key: string): (r: Result<string, ApiError>)
    ensures r.Ok? <==> Has(j, key) && IsNumber(j.members[key])
    ensures r.Ok? ==> j.members[key] == Number(r.value)
    ensures Has(j, key) && !IsNumber(j.members[key]) ==> r == Err(NotANumber)
    ensures !Has(j, key) ==> r == Err(Member(j, key).error)
  {
    match Member(j, key)
    case Err(e) => Err(e)
    case Ok(v) => if v.Number? then Ok(v.lexeme) else Err(NotANumber)
  }

  /** get<std::string> */
  function GetString(j: Value, key: string): (r: Result<string, ApiError>)
    ensures r.Ok? <==> Has(j, key) && IsString(j.members[key])
    ensures r.Ok? ==> j.members[key] == Str(r.value)
    ensures Has(j, key) && !IsString(j.members[key]) ==> r == Err(NotAString)
    ensures !Has(j, key) ==> r == Err(Member(j, key).error)
  {
    match Member(j, key)
    case Err(e) => Err(e)
    case Ok(v) => if v.Str? then Ok(v.s) else Err(NotAString)
  }

  /** get<bool> */
  function GetBool(j: Value, key: string): (r: Result<bool, ApiError>)
    ensures r.Ok? <==> Has(j, key) && IsBoolean(j.members[key])
    ensures r.Ok? ==> j.members[key] == Boolean(r.value)
    ensures Has(j, key) && !IsBoolean(j.members[key]) ==> r == Err(NotABoolean)
    ensures !Has(j, key) ==> r == Err(Member(j, key).error)
  {
    match Member(j, key)
    case Err(e) => Err(e)
    case Ok(v) => if v.Boolean? then Ok(v.b) else Err(NotABoolean)
  }

  /** set<double>: a new JsonNumber under the key. */
  method SetNumber(j: JsonObject, key: string, x: string)
    modifies j
    ensures j.values == old(j.values)[key := Number(x)]
    ensures GetNumber(j.Clone(), key) == Ok(x)
  {
    j.SetValue(key, Number(x));
  }

  /** set<std::string> */
  method SetString(j: JsonObject, key: string, x: string)
    modifies j
    ensures j.values == old(j.values)[key := Str(x)]
    ensures GetString(j.Clone(), key) == Ok(x)
  {
    j.SetValue(key, Str(x));
  }

  /** set<bool> */
  method SetBool(j: JsonObject, key: string, x: bool)
    modifies j
    ensures j.values == old(j.values)[key := Boolean(x)]
    ensures GetBool(j.Clone(), key) == Ok(x)
  {
    j.SetValue(key, Boolean(x));
  }

  /** A set<T> under one key leaves every other key's getters answering as before. */
  lemma {:induction false} SetKeepsOthers(m: map<string, Value>, key: string, v: Value, other: string)
    requires other != key
    ensures Member(Object(m[key := v]), other) == Member(Object(m), other)
    ensures GetNumber(Object(m[key := v]), other) == GetNumber(Object(m), other)
    ensures GetString(Object(m[key := v]), other) == GetString(Object(m), other)
    ensures GetBool(Object(m[key := v]), other) == GetBool(Object(m), other)
  {
  }
}
