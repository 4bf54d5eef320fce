/**
 * The calculator's parser (Calculator/src/parser/parser.cpp): precedence climbing over the
 * token list with a shared cursor `pos`. `+ -` bind loosest, then `* /`, then `^`; each level is
 * a loop that folds to the left. The AST nodes (number_node, operator_node, function_node)
 * become the datatype `Expr`; evaluating them is not part of this model.
 */
module CalcParsing {
  import opened Common
  import opened CalcLexing

  datatype Expr =
    | Num(lexeme: string)                    // number_node; the lexeme stands for std::stod of it
    | BinOp(op: char, left: Expr, right: Expr)  // operator_node
    | Call(name: string, arg: Expr)          // function_node

  /** A parse result: the tree and the cursor after it. */
  type Parsed = Result<(Expr, nat), CalcError>

  /** The token at `pos` is the operator written `op`. */
  predicate OperatorAt(toks: seq<CToken>, pos: nat, op: string)
  {
    pos < |toks| && toks[pos].kind == Operator && toks[pos].value == op
  }

  /** parse_expression: a term, then `+ term` / `- term` folded to the left. */
  function Expression(toks: seq<CToken>, pos: nat): (r: Parsed)
    requires pos <= |toks|
    ensures r.Ok? ==> pos < r.value.1 <= |toks|
    decreases |toks| - pos, 3
  {
    match Term(toks, pos)
    case Err(e) => Err(e)
    case Ok((left, p)) => ExpressionRest(toks, p, left)
  }

  /** The loop of parse_expression, with `left` the tree so far. */
  function ExpressionRest(toks: seq<CToken>, pos: nat, left: Expr): (r: Parsed)
    requires pos <= |toks|
    ensures r.Ok? ==> pos <= r.value.1 <= |toks|
    decreases |toks| - pos, 0
  {
    if OperatorAt(toks, pos, "+") || OperatorAt(toks, pos, "-") then
      match Term(toks, pos + 1)
      case Err(e) => Err(e)
      case Ok((right, p)) => ExpressionRest(toks, p, BinOp(toks[pos].value[0], left, right))
    else Ok((left, pos))
  }

  /** parse_term: a power, then `* power` / `/ power` folded to the left. */
  function Term(toks: seq<CToken>, pos: nat): (r: Parsed)
    requires pos <= |toks|
    ensures r.Ok? ==> pos < r.value.1 <= |toks|
    decreases |toks| - pos, 2
  {
    match Power(toks, pos)
    case Err(e) => Err(e)
    case Ok((left, p)) => TermRest(toks, p, left)
  }

  function TermRest(toks: seq<CToken>, pos: nat, left: Expr): (r: Parsed)
    requires pos <= |toks|
    ensures r.Ok? ==> pos <= r.value.1 <= |toks|
    decreases |toks| - pos, 0
  {
    if OperatorAt(toks, pos, "*") || OperatorAt(toks, pos, "/") then
      match Power(toks, pos + 1)
      case Err(e) => Err(e)
      case Ok((right, p)) => TermRest(toks, p, BinOp(toks[pos].value[0], left, right))
    else Ok((left, pos))
  }

  /** parse_power: a factor, then `^ factor` folded to the left. */
  function Power(toks: seq<CToken>, pos: nat): (r: Parsed)
    requires pos <= |toks|
    ensures r.Ok? ==> pos < r.value.1 <= |toks|
    decreases |toks| - pos, 1
  {
    match Factor(toks, pos)
    case Err(e) => Err(e)
    case Ok((left, p)) => PowerRest(toks, p, left)
  }

  function PowerRest(toks: seq<CToken>, pos: nat, left: Expr): (r: Parsed)
    requires pos <= |toks|
    ensures r.Ok? ==> pos <= r.value.1 <= |toks|
    decreases |toks| - pos, 0
  {
    if OperatorAt(toks, pos, "^") then
      match Factor(toks, pos + 1)
      case Err(e) => Err(e)
      case Ok((right, p)) => PowerRest(toks, p, BinOp('^', left, right))
    else Ok((left, pos))
  }

  /**
   * parse_factor: a number, `( expression )` or `function ( expression )`. Every success moves
   * the cursor forward, which is what makes the whole descent terminate.
   */
  function Factor(toks: seq<CToken>, pos: nat): (r: Parsed)
    requires pos <= |toks|
    ensures r.Ok? ==> pos < r.value.1 <= |toks|
    ensures pos == |toks| ==> r == Err(UnexpectedEnd)
    decreases |toks| - pos, 0
  {
    if pos >= |toks| then Err(UnexpectedEnd)
    else
      var t := toks[pos];
      if t.kind == NumberTok then Ok((Num(t.value), pos + 1))
      else if t.kind == LParen then
        match Expression(toks, pos + 1)
        case Err(e) => Err(e)
        case Ok((inner, p)) =>
          if p >= |toks| || toks[p].kind != RParen then Err(ExpectedClosingParen) else Ok((inner, p + 1))
      else if t.kind == Function then
        if pos + 1 >= |toks| || toks[pos + 1].kind != LParen then Err(ExpectedOpeningParenAfterFunction)
        else
          match Expression(toks, pos + 2)
          case Err(e) => Err(e)
          case Ok((arg, p)) =>
            if p >= |toks| || toks[p].kind != RParen then Err(ExpectedClosingParenAfterArgument)
            else Ok((Call(t.value, arg), p + 1))
      else Err(ExpectedFactor(t.value))
  }

  /** parser::parse: a non-empty token list holding exactly one expression. */
  function ParseAll(toks: seq<CToken>): (r: Result<Expr, CalcError>)
    ensures toks == [] ==> r == Err(NoValidTokens)
  {
    if toks == [] then Err(NoValidTokens)
    else
      match Expression(toks, 0)
      case Err(e) => Err(e)
      case Ok((tree, p)) => if p < |toks| then Err(UnexpectedTokensAfter) else Ok(tree)
  }

  class Parser {
    constructor()
    {
    }

    /** parser::parse */
    method Parse(toks: seq<CToken>) returns (r: Result<Expr, CalcError>)
      ensures r == ParseAll(toks)
    {
      if |toks| == 0 {
        return Err(NoValidTokens);
      }
      var tree := ParseExpression(toks, 0);
      if tree.Err? {
        return Err(tree.error);
      }
      if tree.value.1 < |toks| {
        return Err(UnexpectedTokensAfter);
      }
      return Ok(tree.value.0);
    }

    method ParseExpression(toks: seq<CToken>, pos0: nat) returns (r: Parsed)
      requires pos0 <= |toks|
      ensures r == Expression(toks, pos0)
      decreases |toks| - pos0, 3
    {
      var first := ParseTerm(toks, pos0);
      if first.Err? {
        return first;
      }
      var (left, pos) := first.value;
      while pos < |toks| && toks[pos].kind == Operator && (toks[pos].value == "+" || toks[pos].value == "-")
        invariant pos0 < pos <= |toks|
        invariant Expression(toks, pos0) == ExpressionRest(toks, pos, left)
        decreases |toks| - pos
      {
        var op := toks[pos].value[0];
        var right := ParseTerm(toks, pos + 1);
        if right.Err? {
          return Err(right.error);
        }
        left, pos := BinOp(op, left, right.value.0), right.value.1;
      }
      return Ok((left, pos));
    }

    method ParseTerm(toks: seq<CToken>, pos0: nat) returns (r: Parsed)
      requires pos0 <= |toks|
      ensures r == Term(toks, pos0)
      decreases |toks| - pos0, 2
    {
      var first := ParsePower(toks, pos0);
      if first.Err? {
        return first;
      }
      var (left, pos) := first.value;
      while pos < |toks| && toks[pos].kind == Operator && (toks[pos].value == "*" || toks[pos].value == "/")
        invariant pos0 < pos <= |toks|
        invariant Term(toks, pos0) == TermRest(toks, pos, left)
        decreases |toks| - pos
      {
        var op := toks[pos].value[0];
        var right := ParsePower(toks, pos + 1);
        if right.Err? {
          return Err(right.error);
        }
        left, pos := BinOp(op, left, right.value.0), right.value.1;
      }
      return Ok((left, pos));
    }

    method ParsePower(toks: seq<CToken>, pos0: nat) returns (r: Parsed)
      requires pos0 <= |toks|
      ensures r == Power(toks, pos0)
      decreases |toks| - pos0, 1
    {
      var first := ParseFactor(toks, pos0);
      if first.Err? {
        return first;
      }
      var (left, pos) := first.value;
      while pos < |toks| && toks[pos].kind == Operator && toks[pos].value == "^"
        invariant pos0 < pos <= |toks|
        invariant Power(toks, pos0) == PowerRest(toks, pos, left)
        decreases |toks| - pos
      {
        var op := toks[pos].value[0];
        var right := ParseFactor(toks, pos + 1);
        if right.Err? {
          return Err(right.error);
        }
        left, pos := BinOp(op, left, right.value.0), right.value.1;
      }
      return Ok((left, pos));
    }

    method ParseFactor(toks: seq<CToken>, pos: nat) returns (r: Parsed)
      requires pos <= |toks|
      ensures r == Factor(toks, pos)
      decreases |toks| - pos, 0
    {
      if pos >= |toks| {
        return Err(UnexpectedEnd);
      }
      var t := toks[pos];
      if t.kind == NumberTok {
        return Ok((Num(t.value), pos + 1));
      }
      if t.kind == LParen {
        var inner := ParseExpression(toks, pos + 1);
        if inner.Err? {
          return inner;
        }
        var p := inner.value.1;
        if p >= |toks| || toks[p].kind != RParen {
          return Err(ExpectedClosingParen);
        }
        return Ok((inner.value.0, p + 1));
      }
      if t.kind == Function {
        if pos + 1 >= |toks| || toks[pos + 1].kind != LParen {
          return Err(ExpectedOpeningParenAfterFunction);
        }
        var arg := ParseExpression(toks, pos + 2);
        if arg.Err? {
          return arg;
        }
        var p := arg.value.1;
        if p >= |toks| || toks[p].kind != RParen {
          return Err(ExpectedClosingParenAfterArgument);
        }
        return Ok((Call(t.value, arg.value.0), p + 1));
      }
      return Err(ExpectedFactor(t.value));
    }
  }

  /** The trees the parser can build: operators are the five the tokenizer knows. */
  predicate WellFormed(e: Expr)
  {
    match e
    case Num(_) => true
    case BinOp(op, l, r) => (op == '+' || op == '-' || op == '*' || op == '/' || op == '^') && WellFormed(l) && WellFormed(r)
    case Call(_, a) => WellFormed(a)
  }

  /** The tokens of a tree written with a pair of parentheses around every operation. */
  function Tokens(e: Expr): (ts: seq<CToken>)
    ensures |ts| > 0
  {
    match e
    case Num(x) => [CToken(NumberTok, x)]
    case BinOp(op, l, r) => [CToken(LParen, "(")] + Tokens(l) + [CToken(Operator, [op])] + Tokens(r) + [CToken(RParen, ")")]
    case Call(f, a) => [CToken(Function, f), CToken(LParen, "(")] + Tokens(a) + [CToken(RParen, ")")]
  }

  /** The tokens `ts` stand at `pos` in `toks`. */
  predicate Placed(toks: seq<CToken>, pos: nat, ts: seq<CToken>)
  {
    pos + |ts| <= |toks| && toks[pos..pos + |ts|] == ts
  }

  /** Where a factor is followed by `)` or by nothing, every level above it passes it on unchanged. */
  lemma {:induction false} LoneFactor(toks: seq<CToken>, pos: nat, e: Expr, q: nat)
    requires pos <= |toks| && Factor(toks, pos) == Ok((e, q))
    requires q == |toks| || toks[q].kind == RParen
    ensures Expression(toks, pos) == Ok((e, q))
  {
    assert Power(toks, pos) == Ok((e, q));
    assert Term(toks, pos) == Ok((e, q));
  }

  /** `( l op r )` at pos + 1 .. : the expression inside is the single operation. */
  lemma {:induction false} OperationInside(toks: seq<CToken>, pos: nat, op: char, l: Expr, r: Expr, q1: nat, q2: nat)
    requires op == '+' || op == '-' || op == '*' || op == '/' || op == '^'
    requires pos < q1 < q2 < |toks|
    requires Factor(toks, pos) == Ok((l, q1)) && toks[q1] == CToken(Operator, [op])
    requires Factor(toks, q1 + 1) == Ok((r, q2)) && toks[q2].kind == RParen
    ensures Expression(toks, pos) == Ok((BinOp(op, l, r), q2))
  {
    var e := BinOp(op, l, r);
    if op == '^' {
      assert PowerRest(toks, q2, e) == Ok((e, q2));
      assert PowerRest(toks, q1, l) == Ok((e, q2));
      assert Power(toks, pos) == Ok((e, q2));
      assert Term(toks, pos) == Ok((e, q2));
    } else if op == '*' || op == '/' {
      assert Power(toks, pos) == Ok((l, q1));
      assert Power(toks, q1 + 1) == Ok((r, q2));
      assert TermRest(toks, q1, l) == Ok((e, q2));
      assert Term(toks, pos) == Ok((e, q2));
    } else {
      assert Power(toks, pos) == Ok((l, q1));
      assert Term(toks, pos) == Ok((l, q1));
      assert Power(toks, q1 + 1) == Ok((r, q2));
      assert Term(toks, q1 + 1) == Ok((r, q2));
      assert ExpressionRest(toks, q1, l) == Ok((e, q2));
    }
  }

  /** A part of placed tokens is placed at the corresponding offset. */
  lemma {:induction false} PlacedPart(toks: seq<CToken>, pos: nat, ts: seq<CToken>, i: nat, j: nat)
    requires Placed(toks, pos, ts) && i <= j <= |ts|
    ensures Placed(toks, pos + i, ts[i..j])
  {
    forall k | 0 <= k < j - i
      ensures toks[pos + i..pos + j][k] == ts[i..j][k]
    {
      assert toks[pos..pos + |ts|][i + k] == toks[pos + i + k];
    }
  }

  /** The token at offset k of placed tokens. */
  lemma {:induction false} PlacedAt(toks: seq<CToken>, pos: nat, ts: seq<CToken>, k: nat)
    requires Placed(toks, pos, ts) && k < |ts|
    ensures toks[pos + k] == ts[k]
  {
    assert toks[pos..pos + |ts|][k] == toks[pos + k];
  }

  /** How the tokens of an operation are laid out. */
  lemma {:induction false} OperationLayout(e: Expr)
    requires e.BinOp?
    ensures var ts, tl, tr := Tokens(e), Tokens(e.left), Tokens(e.right);
      && |ts| == |tl| + |tr| + 3 && ts[0] == CToken(LParen, "(") && ts[1..1 + |tl|] == tl
      && ts[1 + |tl|] == CToken(Operator, [e.op]) && ts[2 + |tl|..|ts| - 1] == tr && ts[|ts| - 1].kind == RParen
  {
  }

  /** How the tokens of a call are laid out. */
  lemma {:induction false} CallLayout(e: Expr)
    requires e.Call?
    ensures var ts, ta := Tokens(e), Tokens(e.arg);
      && |ts| == |ta| + 3 && ts[0] == CToken(Function, e.name) && ts[1].kind == LParen
      && ts[2..2 + |ta|] == ta && ts[|ts| - 1].kind == RParen
  {
  }

  /** A fully parenthesised tree, placed anywhere in a token list, is read back as one factor. */
  lemma {:induction false} FactorReadsTokens(toks: seq<CToken>, pos: nat, e: Expr)
    requires WellFormed(e) && Placed(toks, pos, Tokens(e))
    ensures Factor(toks, pos) == Ok((e, pos + |Tokens(e)|))
    decreases e, 2
  {
    match e
    case Num(x) =>
      PlacedAt(toks, pos, Tokens(e), 0);
    case BinOp(op, l, r) =>
      OperationReadsTokens(toks, pos, e);
    case Call(f, a) =>
      CallReadsTokens(toks, pos, e);
  }

  /** Where the parts of a placed operation stand. */
  lemma {:induction false} OperationPlaced(toks: seq<CToken>, pos: nat, e: Expr, q1: nat, q2: nat)
    requires e.BinOp? && Placed(toks, pos, Tokens(e))
    requires q1 == pos + 1 + |Tokens(e.left)| && q2 == q1 + 1 + |Tokens(e.right)|
    ensures pos + |Tokens(e)| == q2 + 1 && q2 < |toks|
    ensures Placed(toks, pos + 1, Tokens(e.left)) && Placed(toks, q1 + 1, Tokens(e.right))
    ensures toks[pos].kind == LParen && toks[q1] == CToken(Operator, [e.op]) && toks[q2].kind == RParen
  {
    var ts := Tokens(e);
    var tl := Tokens(e.left);
    OperationLayout(e);
    PlacedPart(toks, pos, ts, 1, 1 + |tl|);
    PlacedPart(toks, pos, ts, 2 + |tl|, |ts| - 1);
    PlacedAt(toks, pos, ts, 0);
    PlacedAt(toks, pos, ts, 1 + |tl|);
    PlacedAt(toks, pos, ts, |ts| - 1);
  }

  lemma {:induction false} OperationReadsTokens(toks: seq<CToken>, pos: nat, e: Expr)
    requires e.BinOp? && WellFormed(e) && Placed(toks, pos, Tokens(e))
    ensures Factor(toks, pos) == Ok((e, pos + |Tokens(e)|))
    decreases e, 1
  {
    var q1 := pos + 1 + |Tokens(e.left)|;
    var q2 := q1 + 1 + |Tokens(e.right)|;
    OperationPlaced(toks, pos, e, q1, q2);
    OperandsRead(toks, pos, e, q1, q2);
    OperationFactor(toks, pos, e.op, e.left, e.right, q1, q2);
  }

  /** The two operands, placed side by side around the operator, are read as factors. */
  lemma {:induction false} OperandsRead(toks: seq<CToken>, pos: nat, e: Expr, q1: nat, q2: nat)
    requires e.BinOp? && WellFormed(e.left) && WellFormed(e.right)
    requires Placed(toks, pos + 1, Tokens(e.left)) && Placed(toks, q1 + 1, Tokens(e.right))
    requires q1 == pos + 1 + |Tokens(e.left)| && q2 == q1 + 1 + |Tokens(e.right)|
    ensures Factor(toks, pos + 1) == Ok((e.left, q1)) && Factor(toks, q1 + 1) == Ok((e.right, q2))
    decreases e, 0
  {
    FactorReadsTokens(toks, pos + 1, e.left);
    FactorReadsTokens(toks, q1 + 1, e.right);
  }

  /** `(`, then `l`, the operator and `r` read as factors, then `)`: the operation is one factor. */
  lemma {:induction false} OperationFactor(toks: seq<CToken>, pos: nat, op: char, l: Expr, r: Expr, q1: nat, q2: nat)
    requires op == '+' || op == '-' || op == '*' || op == '/' || op == '^'
    requires pos < q1 < q2 < |toks| && toks[pos].kind == LParen
    requires Factor(toks, pos + 1) == Ok((l, q1)) && toks[q1] == CToken(Operator, [op])
    requires Factor(toks, q1 + 1) == Ok((r, q2)) && toks[q2].kind == RParen
    ensures Factor(toks, pos) == Ok((BinOp(op, l, r), q2 + 1))
  {
    OperationInside(toks, pos + 1, op, l, r, q1, q2);
    ParenStep(toks, pos, BinOp(op, l, r), q2);
  }

  /** Where the parts of a placed call stand. */
  lemma {:induction false} CallPlaced(toks: seq<CToken>, pos: nat, e: Expr, q: nat)
    requires e.Call? && Placed(toks, pos, Tokens(e)) && q == pos + 2 + |Tokens(e.arg)|
    ensures pos + |Tokens(e)| == q + 1 && q < |toks| && Placed(toks, pos + 2, Tokens(e.arg))
    ensures toks[pos] == CToken(Function, e.name) && toks[pos + 1].kind == LParen && toks[q].kind == RParen
  {
    var ts := Tokens(e);
    var ta := Tokens(e.arg);
    CallLayout(e);
    PlacedPart(toks, pos, ts, 2, 2 + |ta|);
    PlacedAt(toks, pos, ts, 0);
    PlacedAt(toks, pos, ts, 1);
    PlacedAt(toks, pos, ts, |ts| - 1);
  }

  lemma {:induction false} CallReadsTokens(toks: seq<CToken>, pos: nat, e: Expr)
    requires e.Call? && WellFormed(e) && Placed(toks, pos, Tokens(e))
    ensures Factor(toks, pos) == Ok((e, pos + |Tokens(e)|))
    decreases e, 0
  {
    var q := pos + 2 + |Tokens(e.arg)|;
    CallPlaced(toks, pos, e, q);
    FactorReadsTokens(toks, pos + 2, e.arg);
    LoneFactor(toks, pos + 2, e.arg, q);
  }

  /** `( expression )` is a factor. */
  lemma {:induction false} ParenStep(toks: seq<CToken>, pos: nat, e: Expr, q: nat)
    requires pos < q < |toks| && toks[pos].kind == LParen && toks[q].kind == RParen
    requires Expression(toks, pos + 1) == Ok((e, q))
    ensures Factor(toks, pos) == Ok((e, q + 1))
  {
  }

  /**
   * Round trip: writing a tree out with full parentheses and parsing the tokens gives the tree
   * back, so the parser builds exactly the structure the parentheses spell.
   */
  lemma {:induction false} ParseTokensRoundTrip(e: Expr)
    requires WellFormed(e)
    ensures ParseAll(Tokens(e)) == Ok(e)
  {
    var ts := Tokens(e);
    assert ts[0..|ts|] == ts;
    FactorReadsTokens(ts, 0, e);
    LoneFactor(ts, 0, e, |ts|);
  }

  /** A number followed by something other than `^` is a whole power. */
  lemma {:induction false} NumberPower(toks: seq<CToken>, pos: nat)
    requires pos < |toks| && toks[pos].kind == NumberTok && !OperatorAt(toks, pos + 1, "^")
    ensures Power(toks, pos) == Ok((Num(toks[pos].value), pos + 1))
  {
    assert Factor(toks, pos) == Ok((Num(toks[pos].value), pos + 1));
    assert PowerRest(toks, pos + 1, Num(toks[pos].value)) == Ok((Num(toks[pos].value), pos + 1));
  }

  /** A number followed by neither `^`, `*` nor `/` is a whole term. */
  lemma {:induction false} NumberTerm(toks: seq<CToken>, pos: nat)
    requires pos < |toks| && toks[pos].kind == NumberTok
    requires !OperatorAt(toks, pos + 1, "^") && !OperatorAt(toks, pos + 1, "*") && !OperatorAt(toks, pos + 1, "/")
    ensures Term(toks, pos) == Ok((Num(toks[pos].value), pos + 1))
  {
    NumberPower(toks, pos);
    assert TermRest(toks, pos + 1, Num(toks[pos].value)) == Ok((Num(toks[pos].value), pos + 1));
  }

  /** `^` folds to the left: a ^ b ^ c is (a ^ b) ^ c. */
  lemma {:induction false} PowerLeftAssociative(a: string, b: string, c: string)
    ensures ParseAll([CToken(NumberTok, a), CToken(Operator, "^"), CToken(NumberTok, b), CToken(Operator, "^"), CToken(NumberTok, c)])
            == Ok(BinOp('^', BinOp('^', Num(a), Num(b)), Num(c)))
  {
    var ts := [CToken(NumberTok, a), CToken(Operator, "^"), CToken(NumberTok, b), CToken(Operator, "^"), CToken(NumberTok, c)];
    var ab := BinOp('^', Num(a), Num(b));
    var abc := BinOp('^', ab, Num(c));
    assert Factor(ts, 4) == Ok((Num(c), 5));
    assert PowerRest(ts, 5, abc) == Ok((abc, 5));
    assert PowerRest(ts, 3, ab) == Ok((abc, 5));
    assert Factor(ts, 2) == Ok((Num(b), 3));
    assert PowerRest(ts, 1, Num(a)) == Ok((abc, 5));
    assert Factor(ts, 0) == Ok((Num(a), 1));
    assert Power(ts, 0) == Ok((abc, 5));
    assert TermRest(ts, 5, abc) == Ok((abc, 5));
    assert Term(ts, 0) == Ok((abc, 5));
    assert ExpressionRest(ts, 5, abc) == Ok((abc, 5));
    assert Expression(ts, 0) == Ok((abc, 5));
  }

  /** `-` folds to the left: a - b - c is (a - b) - c. */
  lemma {:induction false} MinusLeftAssociative(a: string, b: string, c: string)
    ensures ParseAll([CToken(NumberTok, a), CToken(Operator, "-"), CToken(NumberTok, b), CToken(Operator, "-"), CToken(NumberTok, c)])
            == Ok(BinOp('-', BinOp('-', Num(a), Num(b)), Num(c)))
  {
    var ts := [CToken(NumberTok, a), CToken(Operator, "-"), CToken(NumberTok, b), CToken(Operator, "-"), CToken(NumberTok, c)];
    var ab := BinOp('-', Num(a), Num(b));
    var abc := BinOp('-', ab, Num(c));
    NumberTerm(ts, 0);
    NumberTerm(ts, 2);
    NumberTerm(ts, 4);
    assert ExpressionRest(ts, 5, abc) == Ok((abc, 5));
    assert ExpressionRest(ts, 3, ab) == Ok((abc, 5));
    assert ExpressionRest(ts, 1, Num(a)) == Ok((abc, 5));
    assert Expression(ts, 0) == Ok((abc, 5));
  }

  /** `*` binds tighter than `+`: a + b * c is a + (b * c). */
  lemma {:induction false} ProductBindsTighter(a: string, b: string, c: string)
    ensures ParseAll([CToken(NumberTok, a), CToken(Operator, "+"), CToken(NumberTok, b), CToken(Operator, "*"), CToken(NumberTok, c)])
            == Ok(BinOp('+', Num(a), BinOp('*', Num(b), Num(c))))
  {
    var ts := [CToken(NumberTok, a), CToken(Operator, "+"), CToken(NumberTok, b), CToken(Operator, "*"), CToken(NumberTok, c)];
    var bc := BinOp('*', Num(b), Num(c));
    var e := BinOp('+', Num(a), bc);
    NumberTerm(ts, 0);
    NumberPower(ts, 2);
    NumberPower(ts, 4);
    assert TermRest(ts, 5, bc) == Ok((bc, 5));
    assert TermRest(ts, 3, Num(b)) == Ok((bc, 5));
    assert Term(ts, 2) == Ok((bc, 5));
    assert ExpressionRest(ts, 5, e) == Ok((e, 5));
    assert ExpressionRest(ts, 1, Num(a)) == Ok((e, 5));
    assert Expression(ts, 0) == Ok((e, 5));
  }

  /** `3 +`: the factor after the operator is missing. */
  lemma {:induction false} MissingOperand(a: string)
    ensures ParseAll([CToken(NumberTok, a), CToken(Operator, "+")]) == Err(UnexpectedEnd)
  {
    var ts := [CToken(NumberTok, a), CToken(Operator, "+")];
    NumberTerm(ts, 0);
    assert Power(ts, 2) == Err(UnexpectedEnd);
    assert Term(ts, 2) == Err(UnexpectedEnd);
    assert ExpressionRest(ts, 1, Num(a)) == Err(UnexpectedEnd);
  }

  /** A leading `-` is not a unary minus: it is not a factor. */
  lemma {:induction false} NoUnaryMinus(a: string)
    ensures ParseAll([CToken(Operator, "-"), CToken(NumberTok, a)]) == Err(ExpectedFactor("-"))
  {
    var ts := [CToken(Operator, "-"), CToken(NumberTok, a)];
    assert Factor(ts, 0) == Err(ExpectedFactor("-"));
    assert Power(ts, 0) == Err(ExpectedFactor("-"));
    assert Term(ts, 0) == Err(ExpectedFactor("-"));
  }

  /** Two numbers in a row: the second is left over. */
  lemma {:induction false} TrailingTokens(a: string, b: string)
    ensures ParseAll([CToken(NumberTok, a), CToken(NumberTok, b)]) == Err(UnexpectedTokensAfter)
  {
    var ts := [CToken(NumberTok, a), CToken(NumberTok, b)];
    NumberTerm(ts, 0);
    assert ExpressionRest(ts, 1, Num(a)) == Ok((Num(a), 1));
  }
}
