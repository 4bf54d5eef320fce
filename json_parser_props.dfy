/**
 * What parse_object and parse_array promise about the texts they accept and reject, stated for
 * any lexer the parser can run on.
 */
module JsonParserProps {
  import opened Common
  import opened JsonLexing
  import opened JsonValues
  import opened JsonParsing

  /** `[ ..., v, ]`: after the comma parse_value meets `]` and throws "Invalid JSON value". */
  lemma {:induction false} ArrayTrailingComma(src: Source, st: PState, acc: seq<Value>, v: Value, st1: PState, st2: PState)
    requires Sound(src) && Fits(src, st) && ParseValue(src, st) == Ok((v, st1))
    requires st1.tok.kind == Comma && Advance(src, st1) == Ok(st2) && st2.tok.kind == RBracket
    ensures ParseElements(src, st, acc) == Err(InvalidValue)
  {
    NextElementStep(src, st, acc, v, st1, st2);
  }

  /** `{ ..., "k": v, }`: after the comma a string key is required. */
  lemma {:induction false} ObjectTrailingComma(src: Source, st: PState, acc: map<string, Value>, st2: PState, v: Value, st3: PState, st4: PState)
    requires Sound(src) && MemberHead(src, st, st2) && ParseValue(src, st2) == Ok((v, st3))
    requires st3.tok.kind == Comma && Advance(src, st3) == Ok(st4) && st4.tok.kind == RBrace
    ensures ParseMembers(src, st, acc) == Err(ExpectedStringKey)
  {
    NextMemberStep(src, st, acc, st2, v, st3, st4);
  }

  /**
   * `{ "k": v1, "k": v2 }`: the second assignment to `obj[k]` replaces the first, so the object
   * holds v2 under k.
   */
  lemma {:induction false} RepeatedKeyLaterWins(src: Source, st: PState, acc: map<string, Value>,
      st2: PState, v1: Value, st3: PState, st4: PState, st5: PState, v2: Value, st6: PState)
    requires Sound(src) && MemberHead(src, st, st2) && ParseValue(src, st2) == Ok((v1, st3))
    requires st3.tok.kind == Comma && Advance(src, st3) == Ok(st4)
    requires MemberHead(src, st4, st5) && st4.tok.value == st.tok.value
    requires ParseValue(src, st5) == Ok((v2, st6)) && st6.tok.kind == RBrace && Advance(src, st6).Ok?
    ensures ParseMembers(src, st, acc) == Ok((Object(acc[st.tok.value := v2]), Advance(src, st6).value))
  {
    var k := st.tok.value;
    NextMemberStep(src, st, acc, st2, v1, st3, st4);
    LastMemberStep(src, st4, acc[k := v1], st5, v2, st6);
    assert acc[k := v1][k := v2] == acc[k := v2];
  }

  /** Keys read earlier in an object are never dropped: the loop only adds or replaces entries. */
  lemma {:induction false} MembersKeepKeys(src: Source, st: PState, acc: map<string, Value>)
    requires Sound(src) && Fits(src, st) && ParseMembers(src, st, acc).Ok?
    ensures acc.Keys <= ParseMembers(src, st, acc).value.0.members.Keys
    decreases Measure(src, st)
  {
    var st1 := Advance(src, st).value;
    var st2 := Advance(src, st1).value;
    var (v, st3) := ParseValue(src, st2).value;
    var acc' := acc[st.tok.value := v];
    if st3.tok.kind == Comma {
      var st4 := Advance(src, st3).value;
      NextMemberStep(src, st, acc, st2, v, st3, st4);
      MembersKeepKeys(src, st4, acc');
    }
  }
}
