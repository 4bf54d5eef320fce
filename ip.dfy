/**
 * Conversion of a dotted IPv4 address to a 32-bit unsigned integer
 * (HomeWorks2dSemester/IpValidator/validator.cpp, ipToInt).
 */
module IpValidator {
  import opened Common
  import opened CStd

  /** Why ipToInt throws: `substr` starting past the end, or `std::stoi` failing on a field. */
  datatype IpError = SubstrOutOfRange | BadField(cause: StoiError)

  function Pow2(k: nat): (p: nat)
    ensures p >= 1
  {
    if k == 0 then 1 else 2 * Pow2(k - 1)
  }

  /** Bitwise OR of two natural numbers. */
  function BitOr(x: nat, y: nat): nat
    decreases x + y
  {
    if x == 0 then y
    else if y == 0 then x
    else 2 * BitOr(x / 2, y / 2) + (if x % 2 == 1 || y % 2 == 1 then 1 else 0)
  }

  /** The OR of two numbers below 2^k stays below 2^k, so `ans` remains a uint32. */
  lemma {:induction false} BitOrBound(x: nat, y: nat, k: nat)
    requires x < Pow2(k) && y < Pow2(k)
    ensures BitOr(x, y) < Pow2(k)
    decreases x + y
  {
    if x != 0 && y != 0 {
      BitOrBound(x / 2, y / 2, k - 1);
    }
  }

  /** OR-ing a number below 2^k into a multiple of 2^k is addition. */
  lemma {:induction false} BitOrDisjoint(m: nat, lo: nat, k: nat)
    requires lo < Pow2(k)
    ensures BitOr(m * Pow2(k), lo) == m * Pow2(k) + lo
    decreases k
  {
    var hi := m * Pow2(k);
    if k > 0 && hi != 0 && lo != 0 {
      var p := Pow2(k - 1);
      assert hi == 2 * (m * p) by {
        assert Pow2(k) == 2 * p;
        assert m * (2 * p) == 2 * (m * p);
      }
      assert hi / 2 == m * p && hi % 2 == 0;
      BitOrDisjoint(m, lo / 2, k - 1);
    }
  }

  /** Offset of the first '.' in `t`, or |t| when there is none (npos mapped to the length). */
  function FindDot(t: string): (e: nat)
    ensures e <= |t|
  {
    if t == [] || t[0] == '.' then 0 else 1 + FindDot(t[1..])
  }

  /** FindDot stops at the first '.' after a dot-free prefix. */
  lemma {:induction false} FindDotAfter(a: string, t: string)
    requires NoDot(a)
    ensures FindDot(a + "." + t) == |a|
  {
    if a != [] {
      assert (a + "." + t)[1..] == a[1..] + "." + t;
      FindDotAfter(a[1..], t);
    }
  }

  lemma {:induction false} FindDotNone(a: string)
    requires NoDot(a)
    ensures FindDot(a) == |a|
  {
    if a != [] {
      FindDotNone(a[1..]);
    }
  }

  /** The shifts ipToInt uses, one per field: 24, 16, 8 and 0. */
  predicate FieldShift(shift: int)
  {
    shift == 0 || shift == 8 || shift == 16 || shift == 24
  }

  /** The shift of the turn with `k` turns still to run: 24, 16, 8, then 0. */
  function ShiftFor(k: nat): (shift: int)
    requires 0 < k <= 4
    ensures FieldShift(shift)
  {
    8 * (k - 1)
  }

  /** `uint32_t byte = stoi(...)` followed by `byte << shift`, both modulo 2^32. */
  function Shifted(v: int, shift: int): (r: nat)
    requires FieldShift(shift)
    ensures r < UINT32
  {
    if shift == 0 then v % UINT32
    else if shift == 8 then ((v % UINT32) * 0x100) % UINT32
    else if shift == 16 then ((v % UINT32) * 0x1_0000) % UINT32
    else ((v % UINT32) * 0x100_0000) % UINT32
  }

  /** Where reading resumes after a field ending at offset `e`: past the dot, or past the end. */
  function AfterField(t: string, e: nat): Option<string>
    requires e <= |t|
  {
    if e < |t| then Some(t[e + 1..]) else None
  }

  /**
   * The `k` loop turns still to run, from the remaining text (None: a start position past the
   * end, where `substr` throws) with `acc` OR-ed so far; the field read in this turn is shifted
   * left by 8 * (k - 1), i.e. 24, 16, 8, 0 over the four turns.
   */
  function Convert(rest: Option<string>, k: nat, acc: nat): Result<nat, IpError>
    requires k <= 4
    decreases k, 1
  {
    if k == 0 then Ok(acc)
    else match rest
      case None => Err(SubstrOutOfRange)
      case Some(t) =>
        var e := FindDot(t);
        ConvertField(Stoi(t[..e]), AfterField(t, e), k, acc)
  }

  /** One loop turn after std::stoi has read its field: throw, or OR the field in and go on. */
  function ConvertField(field: Result<int, StoiError>, next: Option<string>, k: nat, acc: nat): Result<nat, IpError>
    requires 0 < k <= 4
    decreases k, 0
  {
    match field
    case Err(cause) => Err(BadField(cause))
    case Ok(v) => Convert(next, k - 1, BitOr(acc, Shifted(v, ShiftFor(k))))
  }

  /** What ipToInt returns or throws. */
  function IpToIntSpec(s: string): Result<nat, IpError>
  {
    Convert(Some(s), 4, 0)
  }

  /** The text from `start` on, or None when `start` is past the end. */
  function Remaining(s: string, start: nat): Option<string>
  {
    if start <= |s| then Some(s[start..]) else None
  }

  /** The loop variables `start` and `ans` between two turns. */
  datatype LoopState = LoopState(start: nat, ans: nat)

  /** One turn of the loop at shift `shift`: cut the next field, parse it and OR it in. */
  function Turn(s: string, st: LoopState, shift: int): Result<LoopState, IpError>
    requires FieldShift(shift)
  {
    if st.start > |s| then Err(SubstrOutOfRange)
    else
      var end := st.start + FindDot(s[st.start..]);
      match Stoi(s[st.start..end])
      case Err(cause) => Err(BadField(cause))
      case Ok(v) => Ok(LoopState(end + 1, BitOr(st.ans, Shifted(v, shift))))
  }

  /** The loop variables after the first `n` turns, or what one of those turns threw. */
  function Turns(s: string, n: nat): Result<LoopState, IpError>
    requires n <= 4
  {
    if n == 0 then Ok(LoopState(0, 0))
    else match Turns(s, n - 1)
      case Err(e) => Err(e)
      case Ok(st) => Turn(s, st, ShiftFor(5 - n))
  }

  /** One turn of the loop is one step of the field-by-field reading. */
  lemma TurnStep(s: string, st: LoopState, k: nat)
    requires 0 < k <= 4
    ensures var t := Turn(s, st, ShiftFor(k));
      Convert(Remaining(s, st.start), k, st.ans) ==
        if t.Err? then Err(t.error) else Convert(Remaining(s, t.value.start), k - 1, t.value.ans)
  {
    if st.start <= |s| {
      ConvertAt(s, st.start, k, st.ans);
      TurnField(s, st, k, st.start + FindDot(s[st.start..]));
    }
  }

  /** The field a turn cuts out is read by std::stoi, then OR-ed in at the turn's shift. */
  lemma TurnField(s: string, st: LoopState, k: nat, end: nat)
    requires st.start <= |s| && 0 < k <= 4 && end == st.start + FindDot(s[st.start..])
    ensures var t := Turn(s, st, ShiftFor(k));
      ConvertField(Stoi(s[st.start..end]), Remaining(s, end + 1), k, st.ans) ==
        if t.Err? then Err(t.error) else Convert(Remaining(s, t.value.start), k - 1, t.value.ans)
  {
    var field := Stoi(s[st.start..end]);
    if field.Ok? {
      TurnFieldOk(s, st, k, end, field.value);
    }
  }

  lemma TurnFieldOk(s: string, st: LoopState, k: nat, end: nat, v: int)
    requires st.start <= |s| && 0 < k <= 4 && end == st.start + FindDot(s[st.start..])
    requires Stoi(s[st.start..end]) == Ok(v)
    ensures Turn(s, st, ShiftFor(k)) == Ok(LoopState(end + 1, BitOr(st.ans, Shifted(v, ShiftFor(k)))))
    ensures ConvertField(Ok(v), Remaining(s, end + 1), k, st.ans) ==
      Convert(Remaining(s, end + 1), k - 1, BitOr(st.ans, Shifted(v, ShiftFor(k))))
  {
  }

  /** After `n` turns, the loop and the field-by-field reading agree on what is left to do. */
  predicate LoopAgrees(s: string, n: nat)
    requires n <= 4
  {
    (Turns(s, n).Err? ==> IpToIntSpec(s) == Err(Turns(s, n).error)) &&
    (Turns(s, n).Ok? ==>
      IpToIntSpec(s) == Convert(Remaining(s, Turns(s, n).value.start), 4 - n, Turns(s, n).value.ans))
  }

  lemma {:induction false} TurnsAgree(s: string, n: nat)
    requires n <= 4
    ensures LoopAgrees(s, n)
  {
    if n == 0 {
      assert s[0..] == s;
    } else {
      TurnsAgree(s, n - 1);
      TurnsAgreeStep(s, n);
    }
  }

  /** Agreement after n - 1 turns carries over the n-th turn. */
  lemma TurnsAgreeStep(s: string, n: nat)
    requires 0 < n <= 4 && LoopAgrees(s, n - 1)
    ensures LoopAgrees(s, n)
  {
    if Turns(s, n - 1).Ok? {
      var st := Turns(s, n - 1).value;
      assert Turns(s, n) == Turn(s, st, ShiftFor(5 - n));
      TurnStep(s, st, 4 - (n - 1));
    }
  }

  /** A turn that throws ends ipToInt with that exception. */
  lemma TurnsThrow(s: string, n: nat)
    requires n <= 4 && Turns(s, n).Err?
    ensures IpToIntSpec(s) == Err(Turns(s, n).error)
  {
    TurnsAgree(s, n);
  }

  /** After four turns that do not throw, ipToInt returns the accumulated value. */
  lemma TurnsFinish(s: string)
    requires Turns(s, 4).Ok?
    ensures IpToIntSpec(s) == Ok(Turns(s, 4).value.ans)
  {
    TurnsAgree(s, 4);
  }

  method IpToInt(str: string) returns (r: Result<nat, IpError>)
    ensures r == IpToIntSpec(str)
    ensures r.Ok? ==> r.value < UINT32
  {
    var ans: nat := 0;
    var start: nat := 0;
    var shift := 24;
    for i := 0 to 4
      invariant shift == 24 - 8 * i && ans < UINT32
      invariant Turns(str, i) == Ok(LoopState(start, ans))
    {
      var turn := ReadField(str, start, ans, shift);
      if turn.Err? {
        TurnsThrow(str, i + 1);
        return Err(turn.error);
      }
      ans := turn.value.ans;
      start := turn.value.start;
      shift := shift - 8;
    }
    TurnsFinish(str);
    return Ok(ans);
  }

  /** The body of the loop: the field from `start` to the next '.' (or the end) is OR-ed in. */
  method ReadField(str: string, start: nat, ans: nat, shift: int) returns (r: Result<LoopState, IpError>)
    requires FieldShift(shift) && ans < UINT32
    ensures r == Turn(str, LoopState(start, ans), shift)
    ensures r.Ok? ==> r.value.ans < UINT32
  {
    if start > |str| {
      return Err(SubstrOutOfRange);
    }
    var end := start + FindDot(str[start..]);
    var parsed := Stoi(str[start..end]);
    if parsed.Err? {
      return Err(BadField(parsed.error));
    }
    var shifted := Shifted(parsed.value, shift);
    Pow2Of32();
    BitOrBound(ans, shifted, 32);
    return Ok(LoopState(end + 1, BitOr(ans, shifted)));
  }

  lemma Pow2Of32()
    ensures Pow2(32) == UINT32
  {
    assert Pow2(8) == 0x100;
    PowAdd(8, 8);
    PowAdd(16, 16);
  }

  /** One turn of the loop, seen from the position `start` of the whole input. */
  lemma ConvertAt(s: string, start: nat, k: nat, acc: nat)
    requires start <= |s| && 0 < k <= 4
    ensures var end := start + FindDot(s[start..]);
      Convert(Remaining(s, start), k, acc) == ConvertField(Stoi(s[start..end]), Remaining(s, end + 1), k, acc)
  {
    var t := s[start..];
    var e := FindDot(t);
    assert s[start..start + e] == t[..e];
    if e < |t| {
      assert s[start + e + 1..] == t[e + 1..];
    }
  }

  predicate NoDot(a: string)
  {
    forall j :: 0 <= j < |a| ==> a[j] != '.'
  }

  /** A field followed by a '.' is read with std::stoi, and reading resumes after the dot. */
  lemma ConvertHead(a: string, t: string, k: nat, acc: nat)
    requires NoDot(a) && k < 4
    ensures Convert(Some(a + "." + t), k + 1, acc) == ConvertField(Stoi(a), Some(t), k + 1, acc)
  {
    var s := a + "." + t;
    FindDotAfter(a, t);
    assert s[..|a|] == a && s[|a| + 1..] == t;
  }

  /** A last field without a dot ends at the end of the input, past which `substr` throws. */
  lemma ConvertLast(a: string, k: nat, acc: nat)
    requires NoDot(a) && k < 4
    ensures Convert(Some(a), k + 1, acc) == ConvertField(Stoi(a), None, k + 1, acc)
  {
    FindDotNone(a);
    assert a[..|a|] == a;
  }

  function Dotted(a: string, b: string, c: string, d: string): string
  {
    a + "." + b + "." + c + "." + d
  }

  lemma SplitDotted(a: string, b: string, c: string, d: string)
    ensures Dotted(a, b, c, d) == a + "." + (b + "." + (c + "." + d))
  {
  }

  /** The fold of four fields with shifts 24, 16, 8 and 0. */
  function Pack(a: int, b: int, c: int, d: int): nat
  {
    BitOr(BitOr(BitOr(BitOr(0, Shifted(a, 24)), Shifted(b, 16)), Shifted(c, 8)), Shifted(d, 0))
  }

  /** Four dot-free fields are read left to right, each with std::stoi. */
  lemma DottedFields(a: string, b: string, c: string, d: string)
    requires NoDot(a) && NoDot(b) && NoDot(c) && NoDot(d)
    requires Stoi(a).Ok? && Stoi(b).Ok? && Stoi(c).Ok? && Stoi(d).Ok?
    ensures IpToIntSpec(Dotted(a, b, c, d)) ==
      Ok(Pack(Stoi(a).value, Stoi(b).value, Stoi(c).value, Stoi(d).value))
  {
    SplitDotted(a, b, c, d);
    var va, vb, vc := Stoi(a).value, Stoi(b).value, Stoi(c).value;
    ConvertHead(a, b + "." + (c + "." + d), 3, 0);
    var x1 := BitOr(0, Shifted(va, 24));
    ConvertHead(b, c + "." + d, 2, x1);
    var x2 := BitOr(x1, Shifted(vb, 16));
    ConvertHead(c, d, 1, x2);
    var x3 := BitOr(x2, Shifted(vc, 8));
    ConvertLast(d, 0, x3);
  }

  /** Four dot-free fields that std::stoi reads as octets pack into one big-endian number. */
  lemma DottedOctets(sa: string, sb: string, sc: string, sd: string, a: nat, b: nat, c: nat, d: nat)
    requires NoDot(sa) && NoDot(sb) && NoDot(sc) && NoDot(sd)
    requires Stoi(sa) == Ok(a) && Stoi(sb) == Ok(b) && Stoi(sc) == Ok(c) && Stoi(sd) == Ok(d)
    requires a <= 255 && b <= 255 && c <= 255 && d <= 255
    ensures IpToIntSpec(Dotted(sa, sb, sc, sd)) == Ok(a * 0x100_0000 + b * 0x1_0000 + c * 0x100 + d)
  {
    DottedFields(sa, sb, sc, sd);
    PackQuad(a, b, c, d);
  }

  /** "a.b.c.d" with every field at most 255 gives a·2^24 + b·2^16 + c·2^8 + d. */
  lemma DottedQuad(a: nat, b: nat, c: nat, d: nat)
    requires a <= 255 && b <= 255 && c <= 255 && d <= 255
    ensures IpToIntSpec(Dotted(NatToString(a), NatToString(b), NatToString(c), NatToString(d)))
            == Ok(a * 0x100_0000 + b * 0x1_0000 + c * 0x100 + d)
  {
    Octet(a);
    Octet(b);
    Octet(c);
    Octet(d);
    DottedOctets(NatToString(a), NatToString(b), NatToString(c), NatToString(d), a, b, c, d);
  }

  /** The numeral of an octet is a dot-free field that std::stoi reads back. */
  lemma Octet(n: nat)
    requires n <= 255
    ensures NoDot(NatToString(n)) && Stoi(NatToString(n)) == Ok(n)
  {
    NumeralNoDot(n);
    StoiOfNumeral(n);
  }

  lemma NumeralNoDot(n: nat)
    ensures NoDot(NatToString(n))
  {
    var s := NatToString(n);
    assert forall j :: 0 <= j < |s| ==> IsDigit(s[j]);
  }

  lemma PackQuad(a: nat, b: nat, c: nat, d: nat)
    requires a <= 255 && b <= 255 && c <= 255 && d <= 255
    ensures Pack(a, b, c, d) == a * 0x100_0000 + b * 0x1_0000 + c * 0x100 + d
  {
    ShiftedBy(a, 24, 0x100_0000);
    ShiftedBy(b, 16, 0x1_0000);
    ShiftedBy(c, 8, 0x100);
    ShiftedBy(d, 0, 1);
    OrBelow(a, b * 0x1_0000, 24, 0x100_0000);
    OrBelow(a * 0x100 + b, c * 0x100, 16, 0x1_0000);
    OrBelow(a * 0x1_0000 + b * 0x100 + c, d, 8, 0x100);
  }

  /** Pow2 at the shifts the source uses. */
  lemma {:induction false} Pow2At(k: nat, p: nat)
    requires (k == 0 && p == 1) || (k == 8 && p == 0x100) || (k == 16 && p == 0x1_0000) || (k == 24 && p == 0x100_0000)
    ensures Pow2(k) == p
  {
    assert Pow2(8) == 0x100;
    if k == 16 {
      PowAdd(8, 8);
    } else if k == 24 {
      PowAdd(8, 8);
      PowAdd(16, 8);
    }
  }

  lemma ShiftedBy(v: nat, k: nat, p: nat)
    requires v <= 255
    requires (k == 0 && p == 1) || (k == 8 && p == 0x100) || (k == 16 && p == 0x1_0000) || (k == 24 && p == 0x100_0000)
    ensures Shifted(v, k) == v * p
  {
  }

  lemma OrBelow(m: nat, lo: nat, k: nat, p: nat)
    requires (k == 0 && p == 1) || (k == 8 && p == 0x100) || (k == 16 && p == 0x1_0000) || (k == 24 && p == 0x100_0000)
    requires lo < p
    ensures BitOr(m * p, lo) == m * p + lo
  {
    Pow2At(k, p);
    BitOrDisjoint(m, lo, k);
  }

  lemma {:induction false} PowAdd(m: nat, n: nat)
    ensures Pow2(m + n) == Pow2(m) * Pow2(n)
    decreases m
  {
    if m > 0 {
      PowAdd(m - 1, n);
    }
  }

  /** Only four fields are read: whatever follows a fourth '.' is ignored. */
  lemma IgnoresAfterFourthDot(a: string, b: string, c: string, d: string, rest: string)
    requires NoDot(a) && NoDot(b) && NoDot(c) && NoDot(d)
    ensures IpToIntSpec(Dotted(a, b, c, d) + "." + rest) == IpToIntSpec(Dotted(a, b, c, d))
  {
    SplitDotted(a, b, c, d);
    assert Dotted(a, b, c, d) + "." + rest == a + "." + (b + "." + (c + "." + (d + "." + rest)));
    ConvertHead(a, b + "." + (c + "." + (d + "." + rest)), 3, 0);
    ConvertHead(a, b + "." + (c + "." + d), 3, 0);
    if Stoi(a).Ok? {
      var x1 := BitOr(0, Shifted(Stoi(a).value, 24));
      ConvertHead(b, c + "." + (d + "." + rest), 2, x1);
      ConvertHead(b, c + "." + d, 2, x1);
      if Stoi(b).Ok? {
        var x2 := BitOr(x1, Shifted(Stoi(b).value, 16));
        ConvertHead(c, d + "." + rest, 1, x2);
        ConvertHead(c, d, 1, x2);
        if Stoi(c).Ok? {
          var x3 := BitOr(x2, Shifted(Stoi(c).value, 8));
          ConvertHead(d, rest, 0, x3);
          ConvertLast(d, 0, x3);
        }
      }
    }
  }

  /** With only three fields that parse, the fourth `substr` starts past the end and throws. */
  lemma ThreeFieldsThrow(a: string, b: string, c: string)
    requires NoDot(a) && NoDot(b) && NoDot(c)
    requires Stoi(a).Ok? && Stoi(b).Ok? && Stoi(c).Ok?
    ensures IpToIntSpec(a + "." + b + "." + c) == Err(SubstrOutOfRange)
  {
    assert a + "." + b + "." + c == a + "." + (b + "." + c);
    ConvertHead(a, b + "." + c, 3, 0);
    var x1 := BitOr(0, Shifted(Stoi(a).value, 24));
    ConvertHead(b, c, 2, x1);
    var x2 := BitOr(x1, Shifted(Stoi(b).value, 16));
    ConvertLast(c, 1, x2);
  }

  /** An empty field makes std::stoi throw invalid_argument. */
  lemma EmptyFieldThrows(a: string, c: string, d: string)
    requires NoDot(a) && Stoi(a).Ok?
    ensures IpToIntSpec(a + ".." + c + "." + d) == Err(BadField(InvalidArgument))
  {
    assert a + ".." + c + "." + d == a + "." + ("" + "." + (c + "." + d));
    ConvertHead(a, "" + "." + (c + "." + d), 3, 0);
    ConvertHead("", c + "." + d, 2, BitOr(0, Shifted(Stoi(a).value, 24)));
  }

  /** A field above 255 is OR-ed into the neighbouring octet: "0.0.0.256" reads as "0.0.1.0". */
  lemma NoRangeCheck()
    ensures IpToIntSpec("0.0.0.256") == IpToIntSpec("0.0.1.0") == Ok(256)
  {
    ReadsWideField();
    ReadsOneZero();
  }

  lemma ReadsWideField()
    ensures IpToIntSpec("0.0.0.256") == Ok(256)
  {
    StoiOfNumeral(0);
    StoiOfNumeral(256);
    assert NatToString(0) == "0" && NatToString(256) == "256";
    NumeralNoDot(0);
    NumeralNoDot(256);
    assert "0.0.0.256" == Dotted("0", "0", "0", "256");
    DottedFields("0", "0", "0", "256");
    ShiftedBy(0, 8, 0x100);
    ShiftedBy(0, 16, 0x1_0000);
    ShiftedBy(0, 24, 0x100_0000);
  }

  lemma ReadsOneZero()
    ensures IpToIntSpec("0.0.1.0") == Ok(256)
  {
    StoiOfNumeral(0);
    StoiOfNumeral(1);
    assert NatToString(0) == "0" && NatToString(1) == "1";
    NumeralNoDot(0);
    NumeralNoDot(1);
    assert "0.0.1.0" == Dotted("0", "0", "1", "0");
    DottedFields("0", "0", "1", "0");
    PackQuad(0, 0, 1, 0);
  }

}
