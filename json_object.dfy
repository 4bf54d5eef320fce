/**
 * JsonObject (json_object.cpp): an std::unordered_map from keys to owned values. Every value
 * it holds is owned by it alone and copied deeply, so the map is kept as a map of `Value`s.
 */
module JsonObjects {
  import opened Common
  import opened JsonValues

  class JsonObject {
    var values: map<string, Value>

    /** JsonObject(): no members. */
    constructor()
      ensures values == map[]
    {
      values := map[];
    }

    /** JsonObject(const Object&) and the copy constructor: every entry cloned in. */
    constructor FromMap(m: map<string, Value>)
      ensures values == m
    {
      values := map[];
      new;
      CopyEntries(m);
    }

    /** The loop shared by the copying members: set_value(key, val->clone()) for each entry. */
    method CopyEntries(m: map<string, Value>)
      requires values == map[]
      modifies this
      ensures values == m
    {
      var todo := m.Keys;
      while todo != {}
        invariant todo <= m.Keys
        invariant values.Keys == m.Keys - todo
        invariant forall k :: k in values ==> values[k] == m[k]
        decreases todo
      {
        var k :| k in todo;
        SetValue(k, m[k]);
        todo := todo - {k};
      }
    }

    /** operator=(const JsonObject&): clear, then clone every entry of `other`; a no-op on itself. */
    method CopyAssign(other: JsonObject)
      modifies this
      ensures values == old(other.values)
    {
      if this != other {
        var m := other.values;
        values := map[];
        CopyEntries(m);
      }
    }

    /** The move constructor and move assignment take over `other`'s map. */
    method MoveAssign(other: JsonObject)
      modifies this
      ensures values == old(other.values)
    {
      if this != other {
        values := other.values;
      }
    }

    /** The object as a value of the tree; clone() yields exactly this. */
    function Clone(): (v: Value)
      reads this
      ensures v.Object? && v.members == values
    {
      Object(values)
    }

    /** dump(indent, current_indent), in the entry order that `env` fixes. */
    function Dump(env: DumpEnv, indent: int, ci: nat): (r: string)
      reads this
      ensures r == JsonValues.Dump(env, Clone(), indent, ci)
      ensures indent == -1 ==> r == "{" + Join(",", Entries(env, values, Listing(env, values), -1, ci)) + "}"
    {
      CompactObjectDump(env, values, ci);
      JsonValues.Dump(env, Object(values), indent, ci)
    }

    /** set_value: `values_[key] = value`, replacing any earlier value under `key`. */
    method SetValue(key: string, v: Value)
      modifies this
      ensures values == old(values)[key := v]
      ensures HasKey(key) && values[key] == v
      ensures forall k :: k != key ==> (k in values <==> k in old(values))
      ensures forall k :: k != key && k in values ==> values[k] == old(values)[k]
    {
      values := values[key := v];
    }

    predicate HasKey(key: string)
      reads this
    {
      key in values
    }

    /** remove_key: `values_.erase(key)`; erasing an absent key changes nothing. */
    method RemoveKey(key: string)
      modifies this
      ensures values == old(values) - {key}
      ensures !HasKey(key)
      ensures !old(HasKey(key)) ==> values == old(values)
      ensures forall k :: k != key && k in old(values) ==> k in values && values[k] == old(values)[k]
    {
      values := values - {key};
    }

    /**
     * The non-const operator[]: a missing key is first given a JsonNull; the value under the key
     * is returned.
     */
    method Index(key: string) returns (r: Value)
      modifies this
      ensures old(HasKey(key)) ==> values == old(values) && r == values[key]
      ensures !old(HasKey(key)) ==> values == old(values)[key := Null] && r == Null
    {
      if key !in values {
        values := values[key := Null];
      }
      r := values[key];
    }

    /** The const operator[]: a missing key throws out_of_range and nothing is inserted. */
    function At(key: string): (r: Result<Value, string>)
      reads this
      ensures r.Ok? <==> HasKey(key)
      ensures r.Ok? ==> r.value == values[key]
      ensures r.Err? ==> r.error == "Key not found: " + key
    {
      if key in values then Ok(values[key]) else Err("Key not found: " + key)
    }
  }
}
