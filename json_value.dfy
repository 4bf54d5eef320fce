/**
 * The JSON value tree (json_value.hpp, json_value.cpp) and its serialisers, the `dump` member
 * of every value class (json_null.cpp, json_bool.cpp, json_number.cpp, json_string.cpp,
 * json_array.cpp, json_object.cpp).
 *
 * The C++ tree is a hierarchy of classes owning their children through unique_ptr; since
 * every child is owned by exactly one parent and `clone` copies deeply, the tree is a value
 * and is modelled as a datatype. A number keeps the text it was written as (its lexeme):
 * std::stod and the double formatting of json_number.cpp are floating point and stay
 * abstract, the formatter being a parameter of the dump.
 */
module JsonValues {

  /** JsonType: the six tags a value can carry. */
  datatype JsonType = NullType | BooleanType | NumberType | StringType | ArrayType | ObjectType

  datatype Value =
    | Null
    | Boolean(b: bool)
    | Number(lexeme: string)
    | Str(s: string)
    | Array(items: seq<Value>)
    | Object(members: map<string, Value>)

  /** The virtual `type()` of each value class. */
  function TypeOf(v: Value): JsonType
  {
    match v
    case Null => NullType
    case Boolean(_) => BooleanType
    case Number(_) => NumberType
    case Str(_) => StringType
    case Array(_) => ArrayType
    case Object(_) => ObjectType
  }

  predicate IsNull(v: Value) { TypeOf(v) == NullType }
  predicate IsBoolean(v: Value) { TypeOf(v) == BooleanType }
  predicate IsNumber(v: Value) { TypeOf(v) == NumberType }
  predicate IsString(v: Value) { TypeOf(v) == StringType }
  predicate IsArray(v: Value) { TypeOf(v) == ArrayType }
  predicate IsObject(v: Value) { TypeOf(v) == ObjectType }

  /** How many of the six `is_*` predicates hold. */
  function TagsHolding(v: Value): (n: nat)
    ensures n <= 6
  {
    (if IsNull(v) then 1 else 0) + (if IsBoolean(v) then 1 else 0) + (if IsNumber(v) then 1 else 0)
    + (if IsString(v) then 1 else 0) + (if IsArray(v) then 1 else 0) + (if IsObject(v) then 1 else 0)
  }

  /** Each predicate recognises exactly its own kind of value, and exactly one of them holds. */
  lemma ExactlyOneTag(v: Value)
    ensures IsNull(v) <==> v.Null?
    ensures IsBoolean(v) <==> v.Boolean?
    ensures IsNumber(v) <==> v.Number?
    ensures IsString(v) <==> v.Str?
    ensures IsArray(v) <==> v.Array?
    ensures IsObject(v) <==> v.Object?
    ensures TagsHolding(v) == 1
  {
  }

  /** std::string(n, ' ') */
  function Spaces(n: nat): (r: string)
    ensures |r| == n && forall i :: 0 <= i < n ==> r[i] == ' '
  {
    if n == 0 then "" else " " + Spaces(n - 1)
  }

  /**
   * What a dump does not fix by itself: the order in which an std::unordered_map is iterated,
   * and the text json_number.cpp prints for a number. Only an `order` that lists every key of
   * the map once describes a real iteration (see `Enumerates`).
   */
  datatype DumpEnv = DumpEnv(order: map<string, Value> -> seq<string>, number: string -> string)

  predicate Enumerates(ks: seq<string>, m: map<string, Value>)
  {
    (forall i :: 0 <= i < |ks| ==> ks[i] in m)
    && (forall k :: k in m ==> k in ks)
    && (forall i, j :: 0 <= i < j < |ks| ==> ks[i] != ks[j])
  }

  /** The keys of `ks` that are in `m`, in order. */
  function Present(ks: seq<string>, m: map<string, Value>): (r: seq<string>)
    ensures forall i :: 0 <= i < |r| ==> r[i] in m
    ensures forall k :: k in ks && k in m ==> k in r
    ensures (forall i :: 0 <= i < |ks| ==> ks[i] in m) ==> r == ks
  {
    if ks == [] then []
    else if ks[0] in m then [ks[0]] + Present(ks[1..], m)
    else Present(ks[1..], m)
  }

  /** The keys in the order the dump visits them. */
  function Listing(env: DumpEnv, m: map<string, Value>): seq<string>
  {
    Present(env.order(m), m)
  }

  /** The `std::string(current_indent, ' ')` written first when pretty-printing (indent >= 0). */
  function Pad(indent: int, n: nat): string
  {
    if indent >= 0 then Spaces(n) else ""
  }

  function Newline(indent: int): string
  {
    if indent >= 0 then "\n" else ""
  }

  /** The current indentation handed to the children: `indent >= 0 ? current_indent + indent : 0`. */
  function ChildIndent(indent: int, ci: nat): nat
  {
    if indent >= 0 then ci + indent else 0
  }

  /**
   * JsonValue::dump(indent, current_indent) for every kind of value. A negative indent is the
   * compact form; otherwise every value starts with current_indent spaces.
   */
  function Dump(env: DumpEnv, v: Value, indent: int, ci: nat): string
    decreases v
  {
    match v
    case Null => Pad(indent, ci) + "null"
    case Boolean(b) => Pad(indent, ci) + (if b then "true" else "false")
    case Number(x) => Pad(indent, ci) + env.number(x)
    case Str(s) => Pad(indent, ci) + "\"" + s + "\""
    case Array(items) =>
      Pad(indent, ci) + "[" + Newline(indent) + Elements(env, items, 0, indent, ci) + Pad(indent, ci) + "]"
    case Object(m) =>
      Pad(indent, ci) + "{" + Newline(indent) + Members(env, m, Listing(env, m), 0, indent, ci)
      + Pad(indent, ci) + "}"
  }

  /** The loop of JsonArray::dump from element i on. */
  function Elements(env: DumpEnv, items: seq<Value>, i: nat, indent: int, ci: nat): string
    requires i <= |items|
    decreases Array(items), |items| - i
  {
    if i == |items| then ""
    else
      Dump(env, items[i], indent, ChildIndent(indent, ci)) + (if i < |items| - 1 then "," else "")
      + Newline(indent) + Elements(env, items, i + 1, indent, ci)
  }

  /** The loop of JsonObject::dump from the i-th visited key on. */
  function Members(env: DumpEnv, m: map<string, Value>, ks: seq<string>, i: nat, indent: int, ci: nat): string
    requires i <= |ks| && forall j :: 0 <= j < |ks| ==> ks[j] in m
    decreases Object(m), |ks| - i
  {
    if i == |ks| then ""
    else
      Pad(indent, ci + if indent >= 0 then indent else 0) + "\"" + ks[i] + "\":" + (if indent >= 0 then " " else "")
      + Dump(env, m[ks[i]], indent, ChildIndent(indent, ci)) + (if i < |ks| - 1 then "," else "")
      + Newline(indent) + Members(env, m, ks, i + 1, indent, ci)
  }

  /** The parts joined with `sep` between neighbours. */
  function Join(sep: string, parts: seq<string>): (r: string)
    ensures parts == [] ==> r == ""
    ensures |parts| == 1 ==> r == parts[0]
  {
    if parts == [] then "" else if |parts| == 1 then parts[0] else parts[0] + sep + Join(sep, parts[1..])
  }

  /** The dumps of a sequence of values, each at the same indentation. */
  function DumpAll(env: DumpEnv, items: seq<Value>, indent: int, ci: nat): (r: seq<string>)
    ensures |r| == |items|
  {
    if items == [] then [] else [Dump(env, items[0], indent, ci)] + DumpAll(env, items[1..], indent, ci)
  }

  /** One line of an object dump: the key, the colon and the value. */
  function Entry(env: DumpEnv, m: map<string, Value>, k: string, indent: int, ci: nat): string
    requires k in m
  {
    Pad(indent, ci + if indent >= 0 then indent else 0) + "\"" + k + "\":" + (if indent >= 0 then " " else "")
    + Dump(env, m[k], indent, ChildIndent(indent, ci))
  }

  function Entries(env: DumpEnv, m: map<string, Value>, ks: seq<string>, indent: int, ci: nat): (r: seq<string>)
    requires forall j :: 0 <= j < |ks| ==> ks[j] in m
    ensures |r| == |ks|
  {
    if ks == [] then [] else [Entry(env, m, ks[0], indent, ci)] + Entries(env, m, ks[1..], indent, ci)
  }

  lemma {:induction false} ElementsJoin(env: DumpEnv, items: seq<Value>, i: nat, indent: int, ci: nat)
    requires i <= |items|
    ensures Elements(env, items, i, indent, ci)
            == Join("," + Newline(indent), DumpAll(env, items[i..], indent, ChildIndent(indent, ci)))
               + (if i < |items| then Newline(indent) else "")
    decreases |items| - i
  {
    if i < |items| {
      ElementsJoin(env, items, i + 1, indent, ci);
      assert items[i..][1..] == items[i + 1..];
    }
  }

  lemma {:induction false} MembersJoin(env: DumpEnv, m: map<string, Value>, ks: seq<string>, i: nat, indent: int, ci: nat)
    requires i <= |ks| && forall j :: 0 <= j < |ks| ==> ks[j] in m
    ensures Members(env, m, ks, i, indent, ci)
            == Join("," + Newline(indent), Entries(env, m, ks[i..], indent, ci)) + (if i < |ks| then Newline(indent) else "")
    decreases |ks| - i
  {
    if i < |ks| {
      MembersJoin(env, m, ks, i + 1, indent, ci);
      assert ks[i..][1..] == ks[i + 1..];
    }
  }

  /** Compact array dump: the element dumps joined by commas inside brackets; `[]` when empty. */
  lemma CompactArrayDump(env: DumpEnv, items: seq<Value>, ci: nat)
    ensures Dump(env, Array(items), -1, ci) == "[" + Join(",", DumpAll(env, items, -1, 0)) + "]"
    ensures items == [] ==> Dump(env, Array(items), -1, ci) == "[]"
  {
    ElementsJoin(env, items, 0, -1, ci);
    assert items[0..] == items;
    assert Pad(-1, ci) == "" && Newline(-1) == "" && "," + Newline(-1) == ",";
  }

  /**
   * Pretty array dump: `[` and a newline, the elements dumped at current_indent + indent and
   * separated by `,` and a newline, a final newline after a non-empty list, then `]` at
   * current_indent.
   */
  lemma PrettyArrayDump(env: DumpEnv, items: seq<Value>, indent: nat, ci: nat)
    ensures Dump(env, Array(items), indent, ci)
            == Spaces(ci) + "[\n" + Join(",\n", DumpAll(env, items, indent, ci + indent))
               + (if items == [] then "" else "\n") + Spaces(ci) + "]"
  {
    ElementsJoin(env, items, 0, indent, ci);
    assert items[0..] == items;
    assert Pad(indent, ci) == Spaces(ci) && Newline(indent) == "\n" && ChildIndent(indent, ci) == ci + indent;
    assert "," + Newline(indent) == ",\n";
  }

  /** `[1,"two"]` pretty-printed with indent 4, when the number 1 is printed as `1`. */
  lemma PrettyArrayExample(env: DumpEnv)
    requires env.number("1") == "1"
    ensures Dump(env, Array([Number("1"), Str("two")]), 4, 0) == "[\n    1,\n    \"two\"\n]"
  {
    var items := [Number("1"), Str("two")];
    PrettyArrayDump(env, items, 4, 0);
    ExampleItems(env);
    ExampleJoin();
    ExampleText();
  }

  lemma ExampleJoin()
    ensures Join(",\n", ["    1", "    \"two\""]) == "    1,\n    \"two\""
  {
    var parts := ["    1", "    \"two\""];
    assert parts[1..] == ["    \"two\""];
  }

  lemma ExampleText()
    ensures Spaces(0) + "[\n" + "    1,\n    \"two\"" + "\n" + Spaces(0) + "]" == "[\n    1,\n    \"two\"\n]"
  {
    assert Spaces(0) == "";
  }

  /** The two elements of the example, each dumped on its own line four spaces in. */
  lemma ExampleItems(env: DumpEnv)
    requires env.number("1") == "1"
    ensures DumpAll(env, [Number("1"), Str("two")], 4, 4) == ["    1", "    \"two\""]
  {
    var items := [Number("1"), Str("two")];
    FourSpaces();
    assert Dump(env, Str("two"), 4, 4) == "    \"two\"";
    assert Dump(env, Number("1"), 4, 4) == "    1";
    assert items[1..] == [Str("two")] && items[1..][1..] == [];
    assert DumpAll(env, items[1..], 4, 4) == ["    \"two\""];
  }

  lemma FourSpaces()
    ensures Spaces(4) == "    "
  {
    assert Spaces(1) == " ";
    assert Spaces(2) == "  ";
    assert Spaces(3) == "   ";
  }

  /**
   * Compact object dump: one `"key":value` per visited key, joined by commas inside braces;
   * keys are written as they are, without escaping. An empty object is `{}`.
   */
  lemma CompactObjectDump(env: DumpEnv, m: map<string, Value>, ci: nat)
    ensures Dump(env, Object(m), -1, ci) == "{" + Join(",", Entries(env, m, Listing(env, m), -1, ci)) + "}"
    ensures m == map[] ==> Dump(env, Object(m), -1, ci) == "{}"
  {
    CompactObjectJoin(env, m, ci);
    if m == map[] {
      var ks := Listing(env, m);
      assert ks == [] by {
        if ks != [] { assert false; }
      }
    }
  }

  lemma CompactObjectJoin(env: DumpEnv, m: map<string, Value>, ci: nat)
    ensures Dump(env, Object(m), -1, ci) == "{" + Join(",", Entries(env, m, Listing(env, m), -1, ci)) + "}"
  {
    var ks := Listing(env, m);
    CompactObjectShape(env, m, ci);
    MembersJoin(env, m, ks, 0, -1, ci);
    assert ks[0..] == ks;
  }

  /** The compact form has no padding and no newlines around the members. */
  lemma CompactObjectShape(env: DumpEnv, m: map<string, Value>, ci: nat)
    ensures Dump(env, Object(m), -1, ci) == "{" + Members(env, m, Listing(env, m), 0, -1, ci) + "}"
    ensures "," + Newline(-1) == ","
  {
    assert Pad(-1, ci) == "" && Newline(-1) == "";
  }
}

