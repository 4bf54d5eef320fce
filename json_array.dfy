/** JsonArray (json_array.cpp): a vector of owned values, kept as a sequence of `Value`s. */
module JsonArrays {
  import opened Common
  import opened JsonValues

  class JsonArray {
    var values: seq<Value>

    constructor()
      ensures values == []
    {
      values := [];
    }

    /** JsonArray(const Array&) and the copy constructor: every element cloned, in order. */
    constructor FromSeq(s: seq<Value>)
      ensures values == s
    {
      values := [];
      new;
      CopyElements(s);
    }

    /** The loop shared by the copying members: add_value(val->clone()) for each element. */
    method CopyElements(s: seq<Value>)
      requires values == []
      modifies this
      ensures values == s
    {
      for i := 0 to |s|
        invariant values == s[..i]
      {
        AddValue(s[i]);
        assert s[..i + 1] == s[..i] + [s[i]];
      }
      assert s[..|s|] == s;
    }

    /** operator=(const JsonArray&): clear, then clone every element of `other`; a no-op on itself. */
    method CopyAssign(other: JsonArray)
      modifies this
      ensures values == old(other.values)
    {
      if this != other {
        var s := other.values;
        values := [];
        CopyElements(s);
      }
    }

    /** The move constructor and move assignment take over `other`'s vector. */
    method MoveAssign(other: JsonArray)
      modifies this
      ensures values == old(other.values)
    {
      if this != other {
        values := other.values;
      }
    }

    /** The array as a value of the tree; clone() yields exactly this. */
    function Clone(): (v: Value)
      reads this
      ensures v.Array? && v.items == values
    {
      Array(values)
    }

    /** dump(indent, current_indent). */
    function Dump(env: DumpEnv, indent: int, ci: nat): (r: string)
      reads this
      ensures r == JsonValues.Dump(env, Clone(), indent, ci)
      ensures indent == -1 ==> r == "[" + Join(",", DumpAll(env, values, -1, 0)) + "]"
      ensures indent >= 0 ==> r == Spaces(ci) + "[\n" + Join(",\n", DumpAll(env, values, indent, ci + indent))
                                   + (if values == [] then "" else "\n") + Spaces(ci) + "]"
    {
      CompactArrayDump(env, values, ci);
      if indent >= 0 then PrettyArrayDump(env, values, indent, ci); JsonValues.Dump(env, Array(values), indent, ci)
      else JsonValues.Dump(env, Array(values), indent, ci)
    }

    /** add_value: push_back. */
    method AddValue(v: Value)
      modifies this
      ensures values == old(values) + [v]
      ensures |values| == |old(values)| + 1 && values[|values| - 1] == v
      ensures values[..|old(values)|] == old(values)
    {
      values := values + [v];
    }

    /** Both operator[] overloads: out_of_range exactly when index >= size(). */
    function At(index: nat): (r: Result<Value, nat>)
      reads this
      ensures r.Ok? <==> index < |values|
      ensures r.Ok? ==> r.value == values[index]
      ensures r.Err? ==> r.error == index
    {
      if index >= |values| then Err(index) else Ok(values[index])
    }
  }
}
