/**
 * The compact dump and the parser fit together: parsing the compact dump of a value gives the
 * value back, each part of the text being read as exactly the tokens of its own value.
 *
 * This holds for values the dump can write faithfully: strings and keys without `"` or `\`
 * (the dump does not escape them), numbers whose printed text is their own lexeme and is read
 * back by lex_number and std::stod, and objects whose iteration visits every key.
 */
module JsonRoundTrip {
  import opened Common
  import opened CStd
  import opened JsonLexing
  import opened JsonValues
  import opened JsonParsing

  /** No character that the dump would have to escape. */
  predicate Plain(s: string)
  {
    forall k :: 0 <= k < |s| ==> s[k] != '"' && s[k] != '\\'
  }

  /** A value whose compact dump reads back as itself. */
  predicate Printable(env: DumpEnv, v: Value)
    decreases v
  {
    match v
    case Null => true
    case Boolean(_) => true
    case Number(w) => env.number(w) == w && NumberLexeme(w) && StodAccepts(w)
    case Str(s) => Plain(s)
    case Array(items) => forall i | 0 <= i < |items| :: Printable(env, items[i])
    case Object(m) =>
      (forall k :: k in m ==> k in env.order(m))
      && forall k | k in m :: Plain(k) && Printable(env, m[k])
  }

  /** dump(-1): the compact text of a value. */
  function Compact(env: DumpEnv, v: Value): string
  {
    Dump(env, v, -1, 0)
  }

  /** `src` is the lexer of json_lexer.cpp on `x`. */
  predicate Reads(src: Source, x: string)
  {
    src.size == |x| && forall p: nat {:trigger Lex(x, p)} :: p <= |x| ==> src.next(p) == Lex(x, p)
  }

  lemma {:induction false} Split(x: string, i: nat, a: string, b: string)
    requires i + |a| + |b| <= |x| && x[i..i + |a| + |b|] == a + b
    ensures x[i..i + |a|] == a && x[i + |a|..i + |a| + |b|] == b
  {
    assert x[i..i + |a|] == x[i..i + |a| + |b|][..|a|];
    assert x[i + |a|..i + |a| + |b|] == x[i..i + |a| + |b|][|a|..];
  }

  /** `t` is the compact text of the scalar `v`, and the parser accepts it back. */
  predicate ScalarText(v: Value, t: string)
  {
    match v
    case Null => t == "null"
    case Boolean(b) => t == if b then "true" else "false"
    case Number(w) => t == w && NumberLexeme(w) && StodAccepts(w)
    case Str(s) => t == "\"" + s + "\"" && Plain(s)
    case _ => false
  }

  /** The compact dump of a printable scalar, the empty paddings dropped. */
  lemma {:induction false} CompactScalar(env: DumpEnv, v: Value)
    requires Printable(env, v) && !v.Array? && !v.Object?
    ensures ScalarText(v, Compact(env, v))
  {
    assert Pad(-1, 0) == "";
  }

  /** A keyword written at `i` and followed by a delimiter. */
  lemma {:induction false} KeywordAt(src: Source, x: string, i: nat, w: string)
    requires Sound(src) && Reads(src, x)
    requires w in {"true", "false", "null"}
    requires i + |w| <= |x| && x[i..i + |w|] == w && Delimited(x, i + |w|)
    ensures Pull(src, i) == Ok(PState(Keyword(w).value, i + |w|))
  {
    forall k | i <= k < i + |w|
      ensures IsAlpha(x[k])
    {
      assert x[k] == w[k - i];
    }
    KeywordToken(x, i, i + |w|);
  }

  /** A quoted plain text written at `p`. */
  lemma {:induction false} QuotedAt(src: Source, x: string, p: nat, s: string)
    requires Sound(src) && Reads(src, x)
    requires Plain(s) && p + |s| + 2 <= |x| && x[p..p + |s| + 2] == "\"" + s + "\""
    ensures Pull(src, p) == Ok(PState(Token(String, s), p + |s| + 2))
  {
    var e := p + |s| + 1;
    Split(x, p, "\"", s + "\"");
    Split(x, p + 1, s, "\"");
    assert x[p] == '"' && x[e] == '"';
    forall k | p < k < e
      ensures x[k] != '"' && x[k] != '\\'
    {
      assert x[k] == s[k - p - 1];
    }
    StringToken(x, p, p, e);
  }

  /** A one-character token written at `p`. */
  lemma {:induction false} PunctuationAt(src: Source, x: string, p: nat)
    requires Sound(src) && Reads(src, x)
    requires p < |x| && x[p] in "{}[]:,"
    ensures Pull(src, p) == Ok(PState(Token(Punctuation(x[p]).value, [x[p]]), p + 1))
  {
    PunctuationToken(x, p, p);
  }

  /** The value read from the token at `q`, with the state after it. */
  function ValueFrom(src: Source, q: nat): Result<(Value, PState), ParseError>
    requires Sound(src) && q <= src.size
  {
    match Pull(src, q)
    case Err(e) => Err(e)
    case Ok(st) => ParseValue(src, st)
  }

  /**
   * Wherever the text `t` is written in `x` and followed by a delimiter and a token, it is
   * parsed as the value `v`, the parser stopping on that token.
   */
  predicate ReadsAs(src: Source, x: string, t: string, v: Value)
    requires Sound(src) && src.size == |x|
  {
    forall q: nat {:trigger Placed(x, q, t)} ::
      q <= |x| && Placed(x, q, t) && Delimited(x, q + |t|) && Pull(src, q + |t|).Ok? ==>
        ValueFrom(src, q) == Ok((v, Pull(src, q + |t|).value))
  }

  lemma {:induction false} PlacedAt(x: string, q: nat, r: nat, t: string)
    requires q == r && Placed(x, q, t)
    ensures Placed(x, r, t)
  {
  }

  /** The text `t` is written in `x` at `q`. */
  predicate Placed(x: string, q: nat, t: string)
  {
    q + |t| <= |x| && x[q..q + |t|] == t
  }

  lemma {:induction false} NullAt(src: Source, x: string, i: nat, t: string)
    requires Sound(src) && Reads(src, x) && t == "null"
    requires Placed(x, i, t) && Delimited(x, i + |t|) && Pull(src, i + |t|).Ok?
    ensures ValueFrom(src, i) == Ok((Value.Null, Pull(src, i + |t|).value))
  {
    KeywordAt(src, x, i, t);
    ScalarStep(src, Pull(src, i).value, Value.Null);
  }

  lemma {:induction false} BooleanAt(src: Source, x: string, i: nat, b: bool, t: string)
    requires Sound(src) && Reads(src, x) && t == if b then "true" else "false"
    requires Placed(x, i, t) && Delimited(x, i + |t|) && Pull(src, i + |t|).Ok?
    ensures ValueFrom(src, i) == Ok((Boolean(b), Pull(src, i + |t|).value))
  {
    KeywordAt(src, x, i, t);
    ScalarStep(src, Pull(src, i).value, Boolean(b));
  }

  lemma {:induction false} NumberAt(src: Source, x: string, i: nat, w: string, t: string)
    requires Sound(src) && Reads(src, x) && t == w && NumberLexeme(w) && StodAccepts(w)
    requires Placed(x, i, t) && Delimited(x, i + |t|) && Pull(src, i + |t|).Ok?
    ensures ValueFrom(src, i) == Ok((Value.Number(w), Pull(src, i + |t|).value))
  {
    NumberToken(x, i, w);
    ScalarStep(src, Pull(src, i).value, Value.Number(w));
  }

  lemma {:induction false} StringAt(src: Source, x: string, i: nat, s: string, t: string)
    requires Sound(src) && Reads(src, x) && t == "\"" + s + "\"" && Plain(s)
    requires Placed(x, i, t) && Pull(src, i + |t|).Ok?
    ensures ValueFrom(src, i) == Ok((Str(s), Pull(src, i + |t|).value))
  {
    QuotedAt(src, x, i, s);
    ScalarStep(src, Pull(src, i).value, Str(s));
  }

  /** Any printable value written at `i` and followed by a delimiter is parsed back, exactly. */
  lemma {:induction false} ValueAt(env: DumpEnv, v: Value, src: Source, x: string, i: nat)
    requires Sound(src) && Reads(src, x)
    requires Printable(env, v)
    requires Placed(x, i, Compact(env, v))
    requires Delimited(x, i + |Compact(env, v)|) && Pull(src, i + |Compact(env, v)|).Ok?
    ensures ValueFrom(src, i) == Ok((v, Pull(src, i + |Compact(env, v)|).value))
    decreases v, 3
  {
    if v.Array? {
      ArrayAt(env, v, src, x, i);
    } else if v.Object? {
      ObjectAt(env, v, src, x, i);
    } else {
      ScalarValueAt(env, v, src, x, i);
    }
  }

  /** A printable scalar written as its compact text at `i` and followed by a delimiter is parsed back. */
  lemma {:induction false} ScalarValueAt(env: DumpEnv, v: Value, src: Source, x: string, i: nat)
    requires Sound(src) && Reads(src, x) && Printable(env, v) && !v.Array? && !v.Object?
    requires Placed(x, i, Compact(env, v))
    requires Delimited(x, i + |Compact(env, v)|) && Pull(src, i + |Compact(env, v)|).Ok?
    ensures ValueFrom(src, i) == Ok((v, Pull(src, i + |Compact(env, v)|).value))
  {
    var t := Compact(env, v);
    match v
    case Null => NullValueAt(env, t, src, x, i);
    case Boolean(b) => BooleanValueAt(env, b, t, src, x, i);
    case Number(w) => NumberValueAt(env, w, t, src, x, i);
    case Str(s) => StringValueAt(env, s, t, src, x, i);
  }

  /** null written as its compact text `t` at `i` and followed by a delimiter is parsed back. */
  lemma {:induction false} NullValueAt(env: DumpEnv, t: string, src: Source, x: string, i: nat)
    requires Sound(src) && Reads(src, x) && t == Compact(env, Value.Null)
    requires Placed(x, i, t) && Delimited(x, i + |t|) && Pull(src, i + |t|).Ok?
    ensures ValueFrom(src, i) == Ok((Value.Null, Pull(src, i + |t|).value))
  {
    CompactScalar(env, Value.Null);
    NullAt(src, x, i, t);
  }

  /** A boolean written as its compact text `t` at `i` and followed by a delimiter is parsed back. */
  lemma {:induction false} BooleanValueAt(env: DumpEnv, b: bool, t: string, src: Source, x: string, i: nat)
    requires Sound(src) && Reads(src, x) && t == Compact(env, Boolean(b))
    requires Placed(x, i, t) && Delimited(x, i + |t|) && Pull(src, i + |t|).Ok?
    ensures ValueFrom(src, i) == Ok((Boolean(b), Pull(src, i + |t|).value))
  {
    CompactScalar(env, Boolean(b));
    BooleanAt(src, x, i, b, t);
  }

  /** A printable string written as its compact text `t` at `i` is parsed back. */
  lemma {:induction false} StringValueAt(env: DumpEnv, s: string, t: string, src: Source, x: string, i: nat)
    requires Sound(src) && Reads(src, x) && Printable(env, Str(s)) && t == Compact(env, Str(s))
    requires Placed(x, i, t) && Pull(src, i + |t|).Ok?
    ensures ValueFrom(src, i) == Ok((Str(s), Pull(src, i + |t|).value))
  {
    CompactScalar(env, Str(s));
    StringAt(src, x, i, s, t);
  }

  /** A printable number written as its compact text `t` at `i` and followed by a delimiter is parsed back. */
  lemma {:induction false} NumberValueAt(env: DumpEnv, w: string, t: string, src: Source, x: string, i: nat)
    requires Sound(src) && Reads(src, x) && Printable(env, Value.Number(w)) && t == Compact(env, Value.Number(w))
    requires Placed(x, i, t) && Delimited(x, i + |t|) && Pull(src, i + |t|).Ok?
    ensures ValueFrom(src, i) == Ok((Value.Number(w), Pull(src, i + |t|).value))
  {
    CompactScalar(env, Value.Number(w));
    NumberAt(src, x, i, w, t);
  }

  /** The compact texts of the items. */
  function Texts(env: DumpEnv, items: seq<Value>): (ts: seq<string>)
    ensures |ts| == |items| && forall j :: 0 <= j < |items| ==> ts[j] == Compact(env, items[j])
  {
    seq(|items|, j requires 0 <= j < |items| => Compact(env, items[j]))
  }

  lemma {:induction false} DumpAllCompact(env: DumpEnv, items: seq<Value>)
    ensures DumpAll(env, items, -1, 0) == Texts(env, items)
    decreases |items|
  {
    if items != [] {
      DumpAllCompact(env, items[1..]);
    }
  }

  /** Each text `ts[j]` reads back as `vs[j]`, wherever it is written. */
  predicate AllReadAs(src: Source, x: string, ts: seq<string>, vs: seq<Value>)
    requires Sound(src) && src.size == |x|
    decreases |ts|
  {
    |ts| == |vs| && (ts == [] || (ReadsAs(src, x, ts[0], vs[0]) && AllReadAs(src, x, ts[1..], vs[1..])))
  }

  lemma {:induction false} AllFromEach(src: Source, x: string, ts: seq<string>, vs: seq<Value>)
    requires Sound(src) && src.size == |x|
    requires |ts| == |vs| && forall j | 0 <= j < |ts| :: ReadsAs(src, x, ts[j], vs[j])
    ensures AllReadAs(src, x, ts, vs)
    decreases |ts|
  {
    if ts != [] {
      forall j | 0 <= j < |ts| - 1
        ensures ReadsAs(src, x, ts[1..][j], vs[1..][j])
      {
        assert ts[1..][j] == ts[j + 1] && vs[1..][j] == vs[j + 1];
      }
      AllFromEach(src, x, ts[1..], vs[1..]);
    }
  }

  /** Each item's text reads back as the item, wherever it is written. */
  lemma {:induction false} ItemsReadAs(env: DumpEnv, items: seq<Value>, src: Source, x: string)
    requires Sound(src) && Reads(src, x)
    requires Printable(env, Array(items))
    ensures AllReadAs(src, x, Texts(env, items), items)
    decreases Array(items), 1
  {
    forall j, q: nat | 0 <= j < |items| && Placed(x, q, Compact(env, items[j]))
                     && Delimited(x, q + |Compact(env, items[j])|) && Pull(src, q + |Compact(env, items[j])|).Ok?
      ensures ValueFrom(src, q) == Ok((items[j], Pull(src, q + |Compact(env, items[j])|).value))
    {
      ValueAt(env, items[j], src, x, q);
    }
    AllFromEach(src, x, Texts(env, items), items);
  }

  lemma {:induction false} ArrayAt(env: DumpEnv, v: Value, src: Source, x: string, i: nat)
    requires Sound(src) && Reads(src, x) && Printable(env, v) && v.Array?
    requires Placed(x, i, Compact(env, v)) && Pull(src, i + |Compact(env, v)|).Ok?
    ensures ValueFrom(src, i) == Ok((v, Pull(src, i + |Compact(env, v)|).value))
    decreases v, 2
  {
    var items := v.items;
    var ts := Texts(env, items);
    var e := Join(",", ts);
    CompactArrayDump(env, items, 0);
    DumpAllCompact(env, items);
    assert Compact(env, v) == "[" + e + "]";
    ItemsReadAs(env, items, src, x);
    ArrayRead(src, x, i, ts, items);
  }

  /** `[`, the texts `ts` joined by commas, `]`, written at `i`, are parsed as an array. */
  lemma {:induction false} ArrayRead(src: Source, x: string, i: nat, ts: seq<string>, vs: seq<Value>)
    requires Sound(src) && Reads(src, x) && AllReadAs(src, x, ts, vs)
    requires Placed(x, i, "[" + Join(",", ts) + "]") && Pull(src, i + |Join(",", ts)| + 2).Ok?
    ensures ValueFrom(src, i) == Ok((Array(vs), Pull(src, i + |Join(",", ts)| + 2).value))
  {
    ArrayTokens(src, x, i, ts, vs);
    ArrayParsed(src, i, ts, vs, i + |Join(",", ts)| + 2);
  }

  /** The opening and closing characters around `e`. */
  lemma {:induction false} Enclosed(x: string, i: nat, o: char, e: string, c: char)
    requires i + |e| + 2 <= |x| && x[i..i + |e| + 2] == [o] + e + [c]
    ensures x[i] == o && x[i + 1..i + 1 + |e|] == e && x[i + 1 + |e|] == c
  {
    assert [o] + e + [c] == [o] + (e + [c]);
    Split(x, i, [o], e + [c]);
    Split(x, i + 1, e, [c]);
  }

  /** The opening token of `o`, `e`, `c` written at `i`, and the text after it. */
  lemma {:induction false} Opened(src: Source, x: string, i: nat, o: char, e: string, c: char)
    requires Sound(src) && Reads(src, x) && o in "{[" && c in "}]"
    requires Placed(x, i, [o] + e + [c])
    ensures Pull(src, i) == Ok(PState(Token(Punctuation(o).value, [o]), i + 1))
    ensures Placed(x, i + 1, e) && x[i + 1 + |e|] == c
  {
    Enclosed(x, i, o, e, c);
    PunctuationAt(src, x, i);
  }

  /** A leading character before `b`. */
  lemma {:induction false} Lead(x: string, i: nat, c: char, b: string)
    requires i + 1 + |b| <= |x| && x[i..i + 1 + |b|] == [c] + b
    ensures x[i] == c && x[i + 1..i + 1 + |b|] == b
  {
    assert x[i] == x[i..i + 1 + |b|][0];
    assert x[i + 1..i + 1 + |b|] == x[i..i + 1 + |b|][1..];
  }

  lemma {:induction false} JoinStep(ts: seq<string>)
    requires |ts| > 1
    ensures Join(",", ts) == ts[0] + ("," + Join(",", ts[1..]))
  {
  }

  lemma {:induction false} HeadTail<T>(acc: seq<T>, vs: seq<T>)
    requires vs != []
    ensures acc + [vs[0]] + vs[1..] == acc + vs
    ensures |vs| == 1 ==> acc + [vs[0]] == acc + vs
  {
    assert vs == [vs[0]] + vs[1..];
  }

  /** An element written from `s` to `e`. */
  lemma {:induction false} ItemAt(src: Source, x: string, s: nat, e: nat, t: string, v: Value)
    requires Sound(src) && Reads(src, x) && ReadsAs(src, x, t, v)
    requires s + |t| == e <= |x| && x[s..e] == t && Delimited(x, e) && Pull(src, e).Ok?
    ensures ValueFrom(src, s) == Ok((v, Pull(src, e).value))
  {
    assert Placed(x, s, t);
  }

  /*
   * Arrays, on the text: where `[`, the element texts and `]` are written, the tokens are
   * `[`, each element's tokens followed by `,` or `]`.
   */

  /**
   * The tokens of the element loop from `p`: the value `vs[j]` spans `|ts[j]|` characters and
   * is followed by a comma, the last by `]` ending at `close`.
   */
  predicate ElementTokens(src: Source, p: nat, ts: seq<string>, vs: seq<Value>, close: nat)
    requires Sound(src)
    decreases |ts|
  {
    && |ts| == |vs| > 0 && p + |ts[0]| < src.size && close <= src.size && Pull(src, close).Ok?
    && Pull(src, p + |ts[0]|).Ok? && ValueFrom(src, p) == Ok((vs[0], Pull(src, p + |ts[0]|).value))
    && if |ts| == 1 then
         close == p + |ts[0]| + 1 && Pull(src, p + |ts[0]|) == Ok(PState(Token(RBracket, "]"), close))
       else
         && Pull(src, p + |ts[0]|) == Ok(PState(Token(Comma, ","), p + |ts[0]| + 1))
         && ElementTokens(src, p + |ts[0]| + 1, ts[1..], vs[1..], close)
  }

  /** The first of several texts joined by commas, the comma after it and the rest. */
  lemma {:induction false} JoinHead(x: string, p: nat, ts: seq<string>)
    requires |ts| > 1 && Placed(x, p, Join(",", ts))
    ensures |Join(",", ts)| == |ts[0]| + 1 + |Join(",", ts[1..])|
    ensures Placed(x, p, ts[0]) && x[p + |ts[0]|] == ','
    ensures Placed(x, p + |ts[0]| + 1, Join(",", ts[1..]))
  {
    var rest := Join(",", ts[1..]);
    JoinStep(ts);
    Split(x, p, ts[0], "," + rest);
    Lead(x, p + |ts[0]|, ',', rest);
  }

  /** The first of several elements, and where the others are written. */
  lemma {:induction false} ElementHead(src: Source, x: string, p: nat, ts: seq<string>, vs: seq<Value>)
    requires Sound(src) && Reads(src, x)
    requires |ts| > 1 && AllReadAs(src, x, ts, vs)
    requires Placed(x, p, Join(",", ts))
    ensures var q := p + |ts[0]|;
            && |Join(",", ts)| == |ts[0]| + 1 + |Join(",", ts[1..])|
            && q < |x| && Pull(src, q) == Ok(PState(Token(Comma, ","), q + 1))
            && ValueFrom(src, p) == Ok((vs[0], Pull(src, q).value))
            && Placed(x, q + 1, Join(",", ts[1..]))
  {
    var q := p + |ts[0]|;
    JoinHead(x, p, ts);
    PunctuationAt(src, x, q);
    ItemAt(src, x, p, q, ts[0], vs[0]);
  }

  /** The texts `ts` joined by commas and followed by `]`, written at `p`, give the element tokens. */
  lemma {:induction false} ElementsText(src: Source, x: string, p: nat, vs: seq<Value>, ts: seq<string>, close: nat)
    requires Sound(src) && Reads(src, x)
    requires ts != [] && AllReadAs(src, x, ts, vs)
    requires Placed(x, p, Join(",", ts)) && close == p + |Join(",", ts)| + 1
    requires close <= |x| && x[close - 1] == ']' && Pull(src, close).Ok?
    ensures ElementTokens(src, p, ts, vs, close)
    decreases |ts|
  {
    var q := p + |ts[0]|;
    if |ts| == 1 {
      PunctuationAt(src, x, q);
      ItemAt(src, x, p, q, ts[0], vs[0]);
    } else {
      ElementHead(src, x, p, ts, vs);
      ElementsText(src, x, q + 1, vs[1..], ts[1..], close);
    }
  }

  /** `[`, the texts joined by commas, `]`, written at `i`: its tokens. */
  lemma {:induction false} ArrayTokens(src: Source, x: string, i: nat, ts: seq<string>, vs: seq<Value>)
    requires Sound(src) && Reads(src, x) && AllReadAs(src, x, ts, vs)
    requires Placed(x, i, "[" + Join(",", ts) + "]") && Pull(src, i + |Join(",", ts)| + 2).Ok?
    ensures Pull(src, i) == Ok(PState(Token(LBracket, "["), i + 1))
    ensures ts == [] ==> Pull(src, i + 1) == Ok(PState(Token(RBracket, "]"), i + 2))
    ensures ts != [] ==> ElementTokens(src, i + 1, ts, vs, i + |Join(",", ts)| + 2)
  {
    var e := Join(",", ts);
    Opened(src, x, i, '[', e, ']');
    if ts == [] {
      PunctuationAt(src, x, i + 1);
    } else {
      ElementsText(src, x, i + 1, vs, ts, i + |e| + 2);
    }
  }

  /*
   * Arrays, on the tokens: parse_array over those tokens.
   */

  /** The element loop started on the token at `p`. */
  function ElementsFrom(src: Source, p: nat, acc: seq<Value>): Result<(Value, PState), ParseError>
    requires Sound(src) && p <= src.size
  {
    match Pull(src, p)
    case Err(e) => Err(e)
    case Ok(st) => ParseElements(src, st, acc)
  }

  /** The element from `p` to `q`, then `]`. */
  lemma {:induction false} LastElement(src: Source, p: nat, q: nat, acc: seq<Value>, v: Value)
    requires Sound(src) && p <= src.size && q < src.size
    requires Pull(src, q) == Ok(PState(Token(RBracket, "]"), q + 1)) && Pull(src, q + 1).Ok?
    requires ValueFrom(src, p) == Ok((v, Pull(src, q).value))
    ensures Pull(src, p).Ok? && StartsValue(Pull(src, p).value.tok.kind)
    ensures ElementsFrom(src, p, acc) == Ok((Array(acc + [v]), Pull(src, q + 1).value))
  {
    LastElementStep(src, Pull(src, p).value, acc, v, Pull(src, q).value);
  }

  /** The element from `p` to `q`, then `,`. */
  lemma {:induction false} NextElement(src: Source, p: nat, q: nat, acc: seq<Value>, v: Value)
    requires Sound(src) && p <= src.size && q < src.size
    requires Pull(src, q) == Ok(PState(Token(Comma, ","), q + 1)) && Pull(src, q + 1).Ok?
    requires ValueFrom(src, p) == Ok((v, Pull(src, q).value))
    ensures Pull(src, p).Ok? && StartsValue(Pull(src, p).value.tok.kind)
    ensures ElementsFrom(src, p, acc) == ElementsFrom(src, q + 1, acc + [v])
  {
    NextElementStep(src, Pull(src, p).value, acc, v, Pull(src, q).value, Pull(src, q + 1).value);
  }

  /** The element loop over its tokens reads the values in order and appends them to `acc`. */
  lemma {:induction false} ElementsChained(src: Source, p: nat, ts: seq<string>, vs: seq<Value>, close: nat,
                                           acc: seq<Value>)
    requires Sound(src) && ElementTokens(src, p, ts, vs, close)
    ensures Pull(src, p).Ok? && StartsValue(Pull(src, p).value.tok.kind)
    ensures ElementsFrom(src, p, acc) == Ok((Array(acc + vs), Pull(src, close).value))
    decreases |ts|
  {
    var q := p + |ts[0]|;
    HeadTail(acc, vs);
    if |ts| == 1 {
      LastElement(src, p, q, acc, vs[0]);
    } else {
      ElementsChained(src, q + 1, ts[1..], vs[1..], close, acc + [vs[0]]);
      NextElement(src, p, q, acc, vs[0]);
    }
  }

  /** parse_array over the tokens of `[`, the elements, `]`. */
  lemma {:induction false} ArrayParsed(src: Source, i: nat, ts: seq<string>, vs: seq<Value>, close: nat)
    requires Sound(src) && i + 2 <= close <= src.size && Pull(src, close).Ok? && |ts| == |vs|
    requires Pull(src, i) == Ok(PState(Token(LBracket, "["), i + 1))
    requires ts == [] ==> close == i + 2 && Pull(src, i + 1) == Ok(PState(Token(RBracket, "]"), close))
    requires ts != [] ==> ElementTokens(src, i + 1, ts, vs, close)
    ensures ValueFrom(src, i) == Ok((Array(vs), Pull(src, close).value))
  {
    var st := Pull(src, i).value;
    if ts == [] {
      EmptyArrayStep(src, st, Pull(src, i + 1).value);
    } else {
      ElementsChained(src, i + 1, ts, vs, close, []);
      ArrayStep(src, st, Pull(src, i + 1).value);
      assert [] + vs == vs;
    }
  }

  /*
   * Objects: the compact dump lists every member, `"key":value`, joined by commas.
   */

  /** The text of a member: `"key":` and the value's text. */
  function EntryText(k: string, t: string): (e: string)
    ensures |e| == |k| + 3 + |t|
  {
    "\"" + k + "\":" + t
  }

  /** `es` are the texts of the members under the plain keys `ks` with the value texts `ts`. */
  predicate EntriesOf(es: seq<string>, ks: seq<string>, ts: seq<string>)
    decreases |es|
  {
    && |es| == |ks| == |ts|
    && (es == [] || (Plain(ks[0]) && es[0] == EntryText(ks[0], ts[0]) && EntriesOf(es[1..], ks[1..], ts[1..])))
  }

  /** The compact texts of the members of `m` under the keys `ks`. */
  function ValueTexts(env: DumpEnv, m: map<string, Value>, ks: seq<string>): (ts: seq<string>)
    requires forall j :: 0 <= j < |ks| ==> ks[j] in m
    ensures |ts| == |ks| && forall j :: 0 <= j < |ks| ==> ts[j] == Compact(env, m[ks[j]])
  {
    seq(|ks|, j requires 0 <= j < |ks| => Compact(env, m[ks[j]]))
  }

  /** The members of `m` under the keys `ks`, in order. */
  function Values(m: map<string, Value>, ks: seq<string>): (vs: seq<Value>)
    requires forall j :: 0 <= j < |ks| ==> ks[j] in m
    ensures |vs| == |ks| && forall j :: 0 <= j < |ks| ==> vs[j] == m[ks[j]]
  {
    seq(|ks|, j requires 0 <= j < |ks| => m[ks[j]])
  }

  /** The pairs `ks[j]`, `vs[j]`, in order, added to `acc`: later keys win. */
  function Insert(acc: map<string, Value>, ks: seq<string>, vs: seq<Value>): map<string, Value>
    requires |ks| == |vs|
    decreases |ks|
  {
    if ks == [] then acc else Insert(acc[ks[0] := vs[0]], ks[1..], vs[1..])
  }

  lemma {:induction false} InsertStep(acc: map<string, Value>, ks: seq<string>, vs: seq<Value>)
    requires |ks| == |vs| > 0
    ensures Insert(acc, ks, vs) == Insert(acc[ks[0] := vs[0]], ks[1..], vs[1..])
    ensures |ks| == 1 ==> Insert(acc, ks, vs) == acc[ks[0] := vs[0]]
  {
  }

  lemma {:induction false} InsertCovers(acc: map<string, Value>, m: map<string, Value>, ks: seq<string>, vs: seq<Value>)
    requires |ks| == |vs| && forall j :: 0 <= j < |ks| ==> ks[j] in m && vs[j] == m[ks[j]]
    ensures forall k :: k in Insert(acc, ks, vs) <==> k in acc || k in ks
    ensures forall k :: k in Insert(acc, ks, vs) ==> Insert(acc, ks, vs)[k] == if k in ks then m[k] else acc[k]
    decreases |ks|
  {
    if ks != [] {
      InsertCovers(acc[ks[0] := vs[0]], m, ks[1..], vs[1..]);
      assert forall k :: k in ks <==> k == ks[0] || k in ks[1..];
    }
  }

  /** Every member of `m` is under one of the listed keys, and the listed keys rebuild `m`. */
  lemma {:induction false} ListingCovers(env: DumpEnv, m: map<string, Value>)
    requires forall k :: k in m ==> k in env.order(m)
    ensures Insert(map[], Listing(env, m), Values(m, Listing(env, m))) == m
  {
    var ks := Listing(env, m);
    InsertCovers(map[], m, ks, Values(m, ks));
  }

  lemma {:induction false} EntriesCompact(env: DumpEnv, m: map<string, Value>, ks: seq<string>)
    requires forall j :: 0 <= j < |ks| ==> ks[j] in m && Plain(ks[j])
    ensures EntriesOf(Entries(env, m, ks, -1, 0), ks, ValueTexts(env, m, ks))
    decreases |ks|
  {
    if ks != [] {
      EntriesCompact(env, m, ks[1..]);
      assert ValueTexts(env, m, ks)[1..] == ValueTexts(env, m, ks[1..]);
      assert Entries(env, m, ks, -1, 0)[1..] == Entries(env, m, ks[1..], -1, 0);
      assert Entry(env, m, ks[0], -1, 0) == EntryText(ks[0], Compact(env, m[ks[0]]));
    }
  }

  /** The compact dump of an object, member texts joined by commas, and the members it lists. */
  lemma {:induction false} ObjectCompact(env: DumpEnv, v: Value, ks: seq<string>, es: seq<string>, ts: seq<string>, vs: seq<Value>)
    requires Printable(env, v) && v.Object? && ks == Listing(env, v.members)
    requires es == Entries(env, v.members, ks, -1, 0) && ts == ValueTexts(env, v.members, ks) && vs == Values(v.members, ks)
    ensures Compact(env, v) == "{" + Join(",", es) + "}" && |Compact(env, v)| == |Join(",", es)| + 2
    ensures EntriesOf(es, ks, ts) && Object(Insert(map[], ks, vs)) == v
  {
    CompactObjectDump(env, v.members, 0);
    EntriesCompact(env, v.members, ks);
    ListingCovers(env, v.members);
  }

  /** Each member's text reads back as the member's value, wherever it is written. */
  lemma {:induction false} MembersReadAs(env: DumpEnv, v: Value, ks: seq<string>, src: Source, x: string)
    requires Sound(src) && Reads(src, x)
    requires Printable(env, v) && v.Object? && forall j :: 0 <= j < |ks| ==> ks[j] in v.members
    ensures AllReadAs(src, x, ValueTexts(env, v.members, ks), Values(v.members, ks))
    decreases v, 1
  {
    var m := v.members;
    forall j, q: nat | 0 <= j < |ks| && Placed(x, q, Compact(env, m[ks[j]]))
                     && Delimited(x, q + |Compact(env, m[ks[j]])|) && Pull(src, q + |Compact(env, m[ks[j]])|).Ok?
      ensures ValueFrom(src, q) == Ok((m[ks[j]], Pull(src, q + |Compact(env, m[ks[j]])|).value))
    {
      ValueAt(env, m[ks[j]], src, x, q);
    }
    AllFromEach(src, x, ValueTexts(env, m, ks), Values(m, ks));
  }

  lemma {:induction false} ObjectAt(env: DumpEnv, v: Value, src: Source, x: string, i: nat)
    requires Sound(src) && Reads(src, x) && Printable(env, v) && v.Object?
    requires Placed(x, i, Compact(env, v)) && Pull(src, i + |Compact(env, v)|).Ok?
    ensures ValueFrom(src, i) == Ok((v, Pull(src, i + |Compact(env, v)|).value))
    decreases v, 2
  {
    var m := v.members;
    var ks := Listing(env, m);
    var es := Entries(env, m, ks, -1, 0);
    var ts := ValueTexts(env, m, ks);
    var vs := Values(m, ks);
    MembersReadAs(env, v, ks, src, x);
    ObjectCompact(env, v, ks, es, ts, vs);
    ObjectRead(src, x, i, es, ks, ts, vs, i + |Compact(env, v)|);
  }

  /** `{`, the members `ks[j]`: `ts[j]` joined by commas, `}`, written at `i`, are parsed as an object. */
  lemma {:induction false} ObjectRead(src: Source, x: string, i: nat, es: seq<string>, ks: seq<string>, ts: seq<string>, vs: seq<Value>,
                                      close: nat)
    requires Sound(src) && Reads(src, x) && AllReadAs(src, x, ts, vs)
    requires EntriesOf(es, ks, ts) && close == i + |Join(",", es)| + 2
    requires Placed(x, i, "{" + Join(",", es) + "}") && Pull(src, close).Ok?
    ensures ValueFrom(src, i) == Ok((Object(Insert(map[], ks, vs)), Pull(src, close).value))
  {
    ObjectTokens(src, x, i, es, ks, ts, vs, close);
    ObjectParsed(src, i, ks, ts, vs, close);
  }

  /** The key of an entry, its colon and its value's text. */
  lemma {:induction false} EntryShape(x: string, s: nat, k: string, t: string)
    requires Placed(x, s, EntryText(k, t))
    ensures Placed(x, s, "\"" + k + "\"") && x[s + |k| + 2] == ':' && Placed(x, s + |k| + 3, t)
  {
    var h := "\"" + k + "\"";
    assert EntryText(k, t) == h + ([':'] + t);
    Split(x, s, h, [':'] + t);
    Lead(x, s + |h|, ':', t);
  }

  /** The three tokens of a member `"k":v` from `s`, its value stopping on the token at `e`. */
  predicate MemberTokens(src: Source, s: nat, k: string, v: Value, e: nat)
    requires Sound(src)
  {
    && s + |k| + 3 <= src.size && e <= src.size && Pull(src, e).Ok?
    && Pull(src, s) == Ok(PState(Token(String, k), s + |k| + 2))
    && Pull(src, s + |k| + 2) == Ok(PState(Token(Colon, ":"), s + |k| + 3))
    && ValueFrom(src, s + |k| + 3) == Ok((v, Pull(src, e).value))
  }

  /** A member `"key":value` written from `s` to `e`: its three tokens. */
  lemma {:induction false} EntryAt(src: Source, x: string, s: nat, e: nat, k: string, t: string, v: Value)
    requires Sound(src) && Reads(src, x) && Plain(k) && ReadsAs(src, x, t, v)
    requires Placed(x, s, EntryText(k, t)) && e == s + |k| + 3 + |t|
    requires Delimited(x, e) && Pull(src, e).Ok?
    ensures MemberTokens(src, s, k, v, e)
  {
    var c := s + |k| + 2;
    EntryShape(x, s, k, t);
    KeyColonAt(src, x, s, k, c);
    ItemAt(src, x, c + 1, e, t, v);
  }

  /** A quoted key at `s` followed by a colon at `c`: the string token and the colon token. */
  lemma {:induction false} KeyColonAt(src: Source, x: string, s: nat, k: string, c: nat)
    requires Sound(src) && Reads(src, x) && Plain(k) && c == s + |k| + 2
    requires Placed(x, s, "\"" + k + "\"") && c < |x| && x[c] == ':'
    ensures Pull(src, s) == Ok(PState(Token(String, k), c))
    ensures Pull(src, c) == Ok(PState(Token(Colon, ":"), c + 1))
  {
    QuotedAt(src, x, s, k);
    PunctuationAt(src, x, c);
  }

  /**
   * The tokens of the member loop from `p`: the member `ks[j]`: `vs[j]` spans the text of its
   * entry and is followed by a comma, the last by `}` ending at `close`.
   */
  predicate MembersTokens(src: Source, p: nat, ks: seq<string>, ts: seq<string>, vs: seq<Value>, close: nat)
    requires Sound(src)
    decreases |ks|
  {
    && |ks| == |ts| == |vs| > 0 && close <= src.size && Pull(src, close).Ok?
    && var e := p + |ks[0]| + 3 + |ts[0]|;
       && e < src.size && MemberTokens(src, p, ks[0], vs[0], e)
       && if |ks| == 1 then
            close == e + 1 && Pull(src, e) == Ok(PState(Token(RBrace, "}"), close))
          else
            && Pull(src, e) == Ok(PState(Token(Comma, ","), e + 1))
            && MembersTokens(src, e + 1, ks[1..], ts[1..], vs[1..], close)
  }

  /** A member written from `s` to `e` and followed by a comma. */
  lemma {:induction false} MemberComma(src: Source, x: string, s: nat, e: nat, k: string, t: string, v: Value)
    requires Sound(src) && Reads(src, x) && Plain(k) && ReadsAs(src, x, t, v)
    requires Placed(x, s, EntryText(k, t)) && e == s + |k| + 3 + |t| && e < |x| && x[e] == ','
    ensures Pull(src, e) == Ok(PState(Token(Comma, ","), e + 1))
    ensures MemberTokens(src, s, k, v, e)
  {
    PunctuationAt(src, x, e);
    EntryAt(src, x, s, e, k, t, v);
  }

  /** The member texts `es` joined by commas and followed by `}`, written at `p`, give the member tokens. */
  lemma {:induction false} MembersText(src: Source, x: string, p: nat, es: seq<string>, ks: seq<string>,
                                       ts: seq<string>, vs: seq<Value>, close: nat)
    requires Sound(src) && Reads(src, x)
    requires es != [] && EntriesOf(es, ks, ts) && AllReadAs(src, x, ts, vs)
    requires Placed(x, p, Join(",", es)) && close == p + |Join(",", es)| + 1
    requires close <= |x| && x[close - 1] == '}' && Pull(src, close).Ok?
    ensures MembersTokens(src, p, ks, ts, vs, close)
    decreases |es|, 1
  {
    if |es| == 1 {
      LastMemberText(src, x, p, es, ks, ts, vs, close);
    } else {
      MembersTextNext(src, x, p, es, ks, ts, vs, close);
    }
  }

  /** The first of several members, its comma, then the others. */
  lemma {:induction false} MembersTextNext(src: Source, x: string, p: nat, es: seq<string>, ks: seq<string>,
                                           ts: seq<string>, vs: seq<Value>, close: nat)
    requires Sound(src) && Reads(src, x)
    requires |es| > 1 && EntriesOf(es, ks, ts) && AllReadAs(src, x, ts, vs)
    requires Placed(x, p, Join(",", es)) && close == p + |Join(",", es)| + 1
    requires close <= |x| && x[close - 1] == '}' && Pull(src, close).Ok?
    ensures MembersTokens(src, p, ks, ts, vs, close)
    decreases |es|, 0
  {
    var e := p + |ks[0]| + 3 + |ts[0]|;
    MemberHeadAt(src, x, p, es, ks, ts, vs, close);
    MembersText(src, x, e + 1, es[1..], ks[1..], ts[1..], vs[1..], close);
    MembersTokensStep(src, p, ks, ts, vs, close);
  }

  /** The first of several members: its tokens, its comma, and where the others are written. */
  lemma {:induction false} MemberHeadAt(src: Source, x: string, p: nat, es: seq<string>, ks: seq<string>, ts: seq<string>,
                     vs: seq<Value>, close: nat)
    requires Sound(src) && Reads(src, x)
    requires |es| > 1 && EntriesOf(es, ks, ts) && AllReadAs(src, x, ts, vs)
    requires Placed(x, p, Join(",", es)) && close == p + |Join(",", es)| + 1
    ensures var e := p + |ks[0]| + 3 + |ts[0]|;
            && e < src.size && MemberTokens(src, p, ks[0], vs[0], e)
            && Pull(src, e) == Ok(PState(Token(Comma, ","), e + 1))
            && Placed(x, e + 1, Join(",", es[1..])) && close == e + 1 + |Join(",", es[1..])| + 1
  {
    var e := p + |ks[0]| + 3 + |ts[0]|;
    EntriesRest(x, p, es, ks, ts);
    MemberComma(src, x, p, e, ks[0], ts[0], vs[0]);
  }

  /** The first member's tokens and its comma, before the tokens of the others. */
  lemma {:induction false} MembersTokensStep(src: Source, p: nat, ks: seq<string>, ts: seq<string>, vs: seq<Value>, close: nat)
    requires Sound(src) && |ks| == |ts| == |vs| > 1
    requires var e := p + |ks[0]| + 3 + |ts[0]|;
             && e < src.size && MemberTokens(src, p, ks[0], vs[0], e)
             && Pull(src, e) == Ok(PState(Token(Comma, ","), e + 1))
             && MembersTokens(src, e + 1, ks[1..], ts[1..], vs[1..], close)
    ensures MembersTokens(src, p, ks, ts, vs, close)
  {
  }

  /** The only member, then `}`. */
  lemma {:induction false} LastMemberText(src: Source, x: string, p: nat, es: seq<string>, ks: seq<string>, ts: seq<string>, vs: seq<Value>,
                        close: nat)
    requires Sound(src) && Reads(src, x)
    requires |es| == 1 && EntriesOf(es, ks, ts) && AllReadAs(src, x, ts, vs)
    requires Placed(x, p, Join(",", es)) && close == p + |Join(",", es)| + 1
    requires close <= |x| && x[close - 1] == '}' && Pull(src, close).Ok?
    ensures MembersTokens(src, p, ks, ts, vs, close)
  {
    var e := p + |ks[0]| + 3 + |ts[0]|;
    PunctuationAt(src, x, e);
    EntryAt(src, x, p, e, ks[0], ts[0], vs[0]);
  }

  /** After the first of several member texts and its comma, the others are written the same way. */
  lemma {:induction false} EntriesRest(x: string, p: nat, es: seq<string>, ks: seq<string>, ts: seq<string>)
    requires |es| > 1 && EntriesOf(es, ks, ts) && Placed(x, p, Join(",", es))
    ensures Placed(x, p, EntryText(ks[0], ts[0]))
    ensures p + |ks[0]| + 3 + |ts[0]| < |x| && x[p + |ks[0]| + 3 + |ts[0]|] == ','
    ensures Placed(x, p + |ks[0]| + 3 + |ts[0]| + 1, Join(",", es[1..]))
    ensures p + |ks[0]| + 3 + |ts[0]| + 1 + |Join(",", es[1..])| == p + |Join(",", es)|
  {
    var q := p + |ks[0]| + 3 + |ts[0]|;
    assert es[0] == EntryText(ks[0], ts[0]);
    assert |es[0]| == |ks[0]| + 3 + |ts[0]|;
    JoinHead(x, p, es);
    PlacedAt(x, p + |es[0]| + 1, q + 1, Join(",", es[1..]));
  }

  /** `{`, the member texts joined by commas, `}`, written at `i`: its tokens. */
  lemma {:induction false} ObjectTokens(src: Source, x: string, i: nat, es: seq<string>, ks: seq<string>, ts: seq<string>, vs: seq<Value>,
                                        close: nat)
    requires Sound(src) && Reads(src, x) && AllReadAs(src, x, ts, vs)
    requires EntriesOf(es, ks, ts) && close == i + |Join(",", es)| + 2
    requires Placed(x, i, "{" + Join(",", es) + "}") && Pull(src, close).Ok?
    ensures Pull(src, i) == Ok(PState(Token(LBrace, "{"), i + 1))
    ensures ks == [] ==> Pull(src, i + 1) == Ok(PState(Token(RBrace, "}"), close))
    ensures ks != [] ==> MembersTokens(src, i + 1, ks, ts, vs, close)
  {
    var e := Join(",", es);
    Opened(src, x, i, '{', e, '}');
    if ks == [] {
      PunctuationAt(src, x, i + 1);
    } else {
      MembersText(src, x, i + 1, es, ks, ts, vs, close);
    }
  }

  /** The member loop started on the token at `p`. */
  function MembersFrom(src: Source, p: nat, acc: map<string, Value>): Result<(Value, PState), ParseError>
    requires Sound(src) && p <= src.size
  {
    match Pull(src, p)
    case Err(e) => Err(e)
    case Ok(st) => ParseMembers(src, st, acc)
  }

  /** The member from `s` to `e`, then `}`. */
  lemma {:induction false} LastMember(src: Source, s: nat, k: string, v: Value, e: nat, acc: map<string, Value>)
    requires Sound(src) && MemberTokens(src, s, k, v, e) && e < src.size
    requires Pull(src, e) == Ok(PState(Token(RBrace, "}"), e + 1)) && Pull(src, e + 1).Ok?
    ensures MembersFrom(src, s, acc) == Ok((Object(acc[k := v]), Pull(src, e + 1).value))
  {
    var vp := s + |k| + 3;
    assert MemberHead(src, Pull(src, s).value, Pull(src, vp).value);
    LastMemberStep(src, Pull(src, s).value, acc, Pull(src, vp).value, v, Pull(src, e).value);
  }

  /** The member from `s` to `e`, then `,`. */
  lemma {:induction false} NextMember(src: Source, s: nat, k: string, v: Value, e: nat, acc: map<string, Value>)
    requires Sound(src) && MemberTokens(src, s, k, v, e) && e < src.size
    requires Pull(src, e) == Ok(PState(Token(Comma, ","), e + 1)) && Pull(src, e + 1).Ok?
    ensures MembersFrom(src, s, acc) == MembersFrom(src, e + 1, acc[k := v])
  {
    var vp := s + |k| + 3;
    assert MemberHead(src, Pull(src, s).value, Pull(src, vp).value);
    NextMemberStep(src, Pull(src, s).value, acc, Pull(src, vp).value, v, Pull(src, e).value, Pull(src, e + 1).value);
  }

  /** The member loop over its tokens reads the members in order and adds them to `acc`, giving `out`. */
  lemma {:induction false} MembersChained(src: Source, p: nat, ks: seq<string>, ts: seq<string>, vs: seq<Value>,
                                          close: nat, acc: map<string, Value>, out: map<string, Value>)
    requires Sound(src) && MembersTokens(src, p, ks, ts, vs, close) && out == Insert(acc, ks, vs)
    ensures Pull(src, p) == Ok(PState(Token(String, ks[0]), p + |ks[0]| + 2))
    ensures MembersFrom(src, p, acc) == Ok((Object(out), Pull(src, close).value))
    decreases |ks|, 1
  {
    if |ks| == 1 {
      OneMemberChained(src, p, ks, ts, vs, close, acc, out);
    } else {
      MembersChainedStep(src, p, ks, ts, vs, close, acc, out);
    }
  }

  /** A single member, then `}`. */
  lemma {:induction false} OneMemberChained(src: Source, p: nat, ks: seq<string>, ts: seq<string>, vs: seq<Value>,
                                            close: nat, acc: map<string, Value>, out: map<string, Value>)
    requires Sound(src) && MembersTokens(src, p, ks, ts, vs, close) && out == Insert(acc, ks, vs) && |ks| == 1
    ensures Pull(src, p) == Ok(PState(Token(String, ks[0]), p + |ks[0]| + 2))
    ensures MembersFrom(src, p, acc) == Ok((Object(out), Pull(src, close).value))
  {
    InsertStep(acc, ks, vs);
    LastMember(src, p, ks[0], vs[0], p + |ks[0]| + 3 + |ts[0]|, acc);
  }

  /** The first of several members added to `acc`, then the others. */
  lemma {:induction false} MembersChainedStep(src: Source, p: nat, ks: seq<string>, ts: seq<string>, vs: seq<Value>,
                                              close: nat, acc: map<string, Value>, out: map<string, Value>)
    requires Sound(src) && MembersTokens(src, p, ks, ts, vs, close) && out == Insert(acc, ks, vs) && |ks| > 1
    ensures Pull(src, p) == Ok(PState(Token(String, ks[0]), p + |ks[0]| + 2))
    ensures MembersFrom(src, p, acc) == Ok((Object(out), Pull(src, close).value))
    decreases |ks|, 0
  {
    var k, v, e := ks[0], vs[0], p + |ks[0]| + 3 + |ts[0]|;
    InsertStep(acc, ks, vs);
    MembersChained(src, e + 1, ks[1..], ts[1..], vs[1..], close, acc[k := v], out);
    NextMember(src, p, k, v, e, acc);
  }

  /** parse_object over the tokens of `{`, the members, `}`. */
  lemma {:induction false} ObjectParsed(src: Source, i: nat, ks: seq<string>, ts: seq<string>, vs: seq<Value>, close: nat)
    requires Sound(src) && i + 2 <= close <= src.size && Pull(src, close).Ok? && |ks| == |ts| == |vs|
    requires Pull(src, i) == Ok(PState(Token(LBrace, "{"), i + 1))
    requires ks == [] ==> close == i + 2 && Pull(src, i + 1) == Ok(PState(Token(RBrace, "}"), close))
    requires ks != [] ==> MembersTokens(src, i + 1, ks, ts, vs, close)
    ensures ValueFrom(src, i) == Ok((Object(Insert(map[], ks, vs)), Pull(src, close).value))
  {
    if ks == [] {
      EmptyObjectParsed(src, i, close);
    } else {
      MembersParsed(src, i, ks, ts, vs, close);
    }
  }

  lemma {:induction false} EmptyObjectParsed(src: Source, i: nat, close: nat)
    requires Sound(src) && close == i + 2 && close <= src.size && Pull(src, close).Ok?
    requires Pull(src, i) == Ok(PState(Token(LBrace, "{"), i + 1))
    requires Pull(src, i + 1) == Ok(PState(Token(RBrace, "}"), close))
    ensures ValueFrom(src, i) == Ok((Object(map[]), Pull(src, close).value))
  {
    EmptyObjectStep(src, Pull(src, i).value, Pull(src, i + 1).value);
  }

  lemma {:induction false} MembersParsed(src: Source, i: nat, ks: seq<string>, ts: seq<string>, vs: seq<Value>, close: nat)
    requires Sound(src) && i + 2 <= close <= src.size && Pull(src, close).Ok?
    requires Pull(src, i) == Ok(PState(Token(LBrace, "{"), i + 1))
    requires MembersTokens(src, i + 1, ks, ts, vs, close)
    ensures ValueFrom(src, i) == Ok((Object(Insert(map[], ks, vs)), Pull(src, close).value))
  {
    MembersChained(src, i + 1, ks, ts, vs, close, map[], Insert(map[], ks, vs));
    ObjectStep(src, Pull(src, i).value, Pull(src, i + 1).value);
  }

  /** parse(dump(v)) == v for every printable value. */
  lemma {:induction false} RoundTrip(env: DumpEnv, v: Value)
    requires Printable(env, v)
    ensures Parse(Compact(env, v)) == Ok(v)
  {
    var x := Compact(env, v);
    var src := Lexer(x);
    LexerSound(x);
    assert Reads(src, x);
    assert Placed(x, 0, x) by {
      assert x[0..|x|] == x;
    }
    assert Pull(src, |x|) == Ok(PState(Token(End, ""), |x|)) by {
      assert src.next(|x|) == Lex(x, |x|);
    }
    ValueAt(env, v, src, x, 0);
  }
}
