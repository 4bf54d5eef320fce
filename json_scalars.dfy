/**
 * The scalar value classes: JsonString (json_string.cpp), JsonBoolean (json_bool.cpp) and
 * JsonNull (json_null.cpp). Each one's dump is the dump of the tree value it stands for.
 */
module JsonScalars {
  import opened Common
  import opened JsonValues

  class JsonString {
    var value: string

    constructor(value: string)
      ensures this.value == value
    {
      this.value := value;
    }

    /** operator=(const JsonString&) and the move assignment: the text is taken over. */
    method Assign(other: JsonString)
      modifies this
      ensures value == old(other.value)
    {
      if this != other {
        value := other.value;
      }
    }

    /** get_value() */
    function GetValue(): string
      reads this
    {
      value
    }

    /** clone() */
    function Clone(): (v: Value)
      reads this
      ensures v.Str? && v.s == GetValue()
    {
      Str(value)
    }

    /** dump: the text between quotes, without escaping, after current_indent spaces when pretty. */
    function Dump(indent: int, ci: nat): (r: string)
      reads this
      ensures forall env :: r == JsonValues.Dump(env, Clone(), indent, ci)
      ensures indent < 0 ==> r == "\"" + value + "\""
      ensures indent >= 0 ==> r == Spaces(ci) + "\"" + value + "\""
    {
      Pad(indent, ci) + "\"" + value + "\""
    }
  }

  class JsonBoolean {
    var value: bool

    constructor(value: bool)
      ensures this.value == value
    {
      this.value := value;
    }

    /** The move constructor: the value is copied and the source is reset to false. */
    constructor Move(other: JsonBoolean)
      modifies other
      ensures value == old(other.value) && !other.value
    {
      value := other.value;
      new;
      other.value := false;
    }

    /** operator=(const JsonBoolean&): the value is copied; a no-op on itself. */
    method CopyAssign(other: JsonBoolean)
      modifies this
      ensures value == old(other.value) && other.value == old(other.value)
    {
      if this != other {
        value := other.value;
      }
    }

    /** operator=(JsonBoolean&&): the value is copied and the source reset to false, unless it is itself. */
    method MoveAssign(other: JsonBoolean)
      modifies this, other
      ensures this != other ==> value == old(other.value) && !other.value
      ensures this == other ==> value == old(value)
    {
      if this != other {
        value := other.value;
        other.value := false;
      }
    }

    function GetValue(): bool
      reads this
    {
      value
    }

    function Clone(): (v: Value)
      reads this
      ensures v.Boolean? && v.b == GetValue()
    {
      Boolean(value)
    }

    /** dump: "true" or "false", after current_indent spaces when pretty. */
    function Dump(indent: int, ci: nat): (r: string)
      reads this
      ensures forall env :: r == JsonValues.Dump(env, Clone(), indent, ci)
      ensures indent < 0 ==> r == if value then "true" else "false"
      ensures indent >= 0 ==> r == Spaces(ci) + if value then "true" else "false"
    {
      if indent >= 0 then Spaces(ci) + (if value then "true" else "false") else if value then "true" else "false"
    }
  }

  /** JsonNull has no state. */
  class JsonNull {
    constructor()
    {
    }

    function Clone(): (v: Value)
      ensures TypeOf(v) == NullType
    {
      Null
    }

    /** dump: "null", after current_indent spaces when pretty. */
    function Dump(indent: int, ci: nat): (r: string)
      ensures forall env :: r == JsonValues.Dump(env, Clone(), indent, ci)
      ensures indent < 0 ==> r == "null"
      ensures indent >= 0 ==> r == Spaces(ci) + "null"
    {
      if indent >= 0 then Spaces(ci) + "null" else "null"
    }

    /**
     * operator=(std::unique_ptr<JsonValue>&&): `p` is the pointer (None for nullptr). Only a
     * null value is accepted, and the receiver, which has no state, is left as it is.
     */
    function AssignFrom(p: Option<Value>): (r: Result<(), string>)
      ensures r.Ok? <==> p.Some? && TypeOf(p.value) == NullType
      ensures r.Err? ==> r.error == "Cannot assign non-null value to JsonNull"
    {
      if p.None? || TypeOf(p.value) != NullType then Err("Cannot assign non-null value to JsonNull") else Ok(())
    }
  }
}
