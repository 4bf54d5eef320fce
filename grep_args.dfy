/**
 * The grep front end's command-line parser (grep/src/arg_parser.cpp): options are read while
 * the argument starts with '-', then comes the pattern and then the paths, and the result is
 * validated. Every failure is a grep_error of the argument category with a message, except a
 * count that std::stoi cannot read, which escapes as std::stoi's own exception.
 */
module GrepArgs {
  import opened Common
  import opened CStd

  /** The exceptions arg_parser::parse lets out. */
  datatype GrepError =
    | ArgumentError(message: string)  // grep_error(category::argument, message)
    | CountError(reason: StoiError)   // std::invalid_argument / std::out_of_range from std::stoi

  /** struct args */
  datatype Args = Args(
    pattern: string,
    paths: seq<string>,
    caseInsensitive: bool,
    recursive: bool,
    wholeWord: bool,
    wholeLine: bool,
    invertMatch: bool,
    listFiles: bool,
    countMatches: bool,
    contextBefore: int,
    contextAfter: int,
    color: bool,
    includeExtensions: seq<string>)

  /** A default-constructed args. */
  const Defaults: Args := Args("", [], false, false, false, false, false, false, false, 0, 0, false, [])

  /**
   * How many characters of an option are compared with "--include=" and cut off before the
   * extension: 9 as written, 10 as intended.
   */
  datatype IncludeRule = NineChars | TenChars

  function Cut(rule: IncludeRule): nat
  {
    if rule == NineChars then 9 else 10
  }

  /** std::string::substr(0, n) */
  function Prefix(s: string, n: nat): (r: string)
    ensures |r| == if n <= |s| then n else |s|
  {
    if n <= |s| then s[..n] else s
  }

  /** std::string::substr(n), where n is never past the end. */
  function Suffix(s: string, n: nat): (r: string)
    ensures n <= |s| ==> s == s[..n] + r
  {
    if n <= |s| then s[n..] else []
  }

  /** argv[i][0] == '-': the empty C string starts with its terminating zero, not '-'. */
  predicate IsOption(arg: string)
  {
    |arg| > 0 && arg[0] == '-'
  }

  /** The extension an --include= option names, with one leading '*' dropped. */
  function Extension(ext: string): (r: string)
    ensures ext != [] && ext[0] == '*' ==> ext == "*" + r
    ensures (ext == [] || ext[0] != '*') ==> r == ext
  {
    if ext != [] && ext[0] == '*' then ext[1..] else ext
  }

  /** The options that set a flag. */
  predicate IsFlag(opt: string)
  {
    opt in {"-i", "-r", "-w", "-E", "-v", "-l", "-c", "--color"}
  }

  /** Which count an option takes from the next argument, if any. */
  predicate TakesCount(opt: string)
  {
    Prefix(opt, 2) in {"-A", "-B", "-C"}
  }

  /** The std::stoi count after a count option, or the error its absence or its text gives. */
  function Count(argv: seq<string>, i: nat, name: string): (r: Result<int, GrepError>)
    requires i < |argv|
    ensures i + 1 >= |argv| ==> r == Err(ArgumentError(name + " requires a number"))
    ensures i + 1 < |argv| ==> (r.Ok? <==> Stoi(argv[i + 1]).Ok?)
    ensures i + 1 < |argv| && r.Ok? ==> r.value == Stoi(argv[i + 1]).value
  {
    if i + 1 >= |argv| then Err(ArgumentError(name + " requires a number"))
    else
      match Stoi(argv[i + 1])
      case Err(e) => Err(CountError(e))
      case Ok(n) => Ok(n)
  }

  /** The args after one of the eight flag options, or None for any other option. */
  function SetFlag(opt: string, a: Args): (r: Option<Args>)
    ensures r.Some? <==> IsFlag(opt)
    ensures r.Some? ==> r.value.pattern == a.pattern && r.value.paths == a.paths
  {
    if opt == "-i" then Some(a.(caseInsensitive := true))
    else if opt == "-r" then Some(a.(recursive := true))
    else if opt == "-w" then Some(a.(wholeWord := true))
    else if opt == "-E" then Some(a.(wholeLine := true))
    else if opt == "-v" then Some(a.(invertMatch := true))
    else if opt == "-l" then Some(a.(listFiles := true))
    else if opt == "-c" then Some(a.(countMatches := true))
    else if opt == "--color" then Some(a.(color := true))
    else None
  }

  /** The args after the count `n` of -A (after), -B (before) or -C (both). */
  function SetCount(name: string, n: int, a: Args): (r: Args)
    ensures r.pattern == a.pattern && r.paths == a.paths
    ensures name == "-C" ==> r.contextBefore == r.contextAfter == n
  {
    if name == "-A" then a.(contextAfter := n)
    else if name == "-B" then a.(contextBefore := n)
    else a.(contextBefore := n, contextAfter := n)
  }

  /** One pass of the option loop at argv[i]: the updated args and the index of the next argument. */
  function Step(rule: IncludeRule, argv: seq<string>, i: nat, a: Args): (r: Result<(Args, nat), GrepError>)
    requires i < |argv|
    ensures r.Ok? ==> i < r.value.1 <= |argv| && r.value.0.pattern == a.pattern && r.value.0.paths == a.paths
  {
    var opt := argv[i];
    match SetFlag(opt, a)
    case Some(b) => Ok((b, i + 1))
    case None =>
      if TakesCount(opt) then
        match Count(argv, i, Prefix(opt, 2))
        case Err(e) => Err(e)
        case Ok(n) => Ok((SetCount(Prefix(opt, 2), n, a), i + 2))
      else if Prefix(opt, Cut(rule)) == "--include=" then
        Ok((a.(includeExtensions := a.includeExtensions + [Extension(Suffix(opt, Cut(rule)))]), i + 1))
      else Err(ArgumentError("Unknown option: " + opt))
  }

  /** The option loop from argv[i] on: the args it builds and where the pattern should be. */
  function Options(rule: IncludeRule, argv: seq<string>, i: nat, a: Args): (r: Result<(Args, nat), GrepError>)
    requires 1 <= i <= |argv|
    ensures r.Ok? ==> i <= r.value.1 <= |argv| && (r.value.1 < |argv| ==> !IsOption(argv[r.value.1]))
    ensures r.Ok? ==> r.value.0.pattern == a.pattern && r.value.0.paths == a.paths
    decreases |argv| - i
  {
    if i < |argv| && IsOption(argv[i]) then
      match Step(rule, argv, i, a)
      case Err(e) => Err(e)
      case Ok((b, j)) => Options(rule, argv, j, b)
    else Ok((a, i))
  }

  /** The combinations arg_parser::validate accepts. */
  predicate Consistent(a: Args)
  {
    a.contextBefore >= 0 && a.contextAfter >= 0 && !(a.listFiles && a.countMatches) && !(a.wholeWord && a.wholeLine)
  }

  /** arg_parser::validate: the first rule a broken, or None. */
  function Validate(a: Args): (r: Option<GrepError>)
    ensures r.None? <==> Consistent(a)
    ensures (a.contextBefore < 0 || a.contextAfter < 0) ==> r == Some(ArgumentError("Context lines cannot be negative"))
    ensures a.contextBefore >= 0 && a.contextAfter >= 0 && a.listFiles && a.countMatches
            ==> r == Some(ArgumentError("Cannot combine -l and -c"))
    ensures a.contextBefore >= 0 && a.contextAfter >= 0 && !(a.listFiles && a.countMatches) && a.wholeWord && a.wholeLine
            ==> r == Some(ArgumentError("Cannot combine -w and -E"))
  {
    if a.contextBefore < 0 || a.contextAfter < 0 then Some(ArgumentError("Context lines cannot be negative"))
    else if a.listFiles && a.countMatches then Some(ArgumentError("Cannot combine -l and -c"))
    else if a.wholeWord && a.wholeLine then Some(ArgumentError("Cannot combine -w and -E"))
    else None
  }

  /** The paths after the pattern at argv[i]: the rest of the arguments, or "." when there are none. */
  function Paths(argv: seq<string>, i: nat): seq<string>
    requires i < |argv|
  {
    if i + 1 >= |argv| then ["."] else argv[i + 1..]
  }

  /** The end of arg_parser::parse once the options are read and argv[i] should be the pattern. */
  function Operands(argv: seq<string>, i: nat, a: Args): (r: Result<Args, GrepError>)
    requires 1 <= i <= |argv|
    ensures i >= |argv| ==> r == Err(ArgumentError("Pattern required"))
    ensures r.Ok? ==> Consistent(r.value) && r.value.pattern == argv[i] && r.value.paths == Paths(argv, i)
  {
    if i >= |argv| then Err(ArgumentError("Pattern required"))
    else
      var b := a.(pattern := argv[i], paths := Paths(argv, i));
      match Validate(b)
      case Some(e) => Err(e)
      case None => Ok(b)
  }

  /** arg_parser::parse, with the --include= comparison cut by `rule`. */
  function ParseWith(rule: IncludeRule, argv: seq<string>): (r: Result<Args, GrepError>)
    requires |argv| >= 1
    ensures |argv| < 2 ==> r == Err(ArgumentError("Usage: " + argv[0] + " [options] pattern [file...]"))
    ensures r.Ok? ==> Consistent(r.value)
    ensures r.Ok? ==> exists i :: 1 <= i < |argv| && !IsOption(argv[i]) && r.value.pattern == argv[i] && r.value.paths == Paths(argv, i)
  {
    if |argv| < 2 then Err(ArgumentError("Usage: " + argv[0] + " [options] pattern [file...]"))
    else
      match Options(rule, argv, 1, Defaults)
      case Err(e) => Err(e)
      case Ok((a, i)) => Operands(argv, i, a)
  }

  /** arg_parser::parse as written. */
  function Parsed(argv: seq<string>): Result<Args, GrepError>
    requires |argv| >= 1
  {
    ParseWith(NineChars, argv)
  }

  /** arg_parser::parse */
  method Parse(argv: seq<string>) returns (r: Result<Args, GrepError>)
    requires |argv| >= 1
    ensures r == Parsed(argv)
  {
    var result := Defaults;
    if |argv| < 2 {
      return Err(ArgumentError("Usage: " + argv[0] + " [options] pattern [file...]"));
    }
    var i := 1;
    while i < |argv| && IsOption(argv[i])
      invariant 1 <= i <= |argv|
      invariant Options(NineChars, argv, 1, Defaults) == Options(NineChars, argv, i, result)
      decreases |argv| - i
    {
      var step := ReadOption(argv, i, result);
      if step.Err? {
        return Err(step.error);
      }
      result, i := step.value.0, step.value.1;
    }
    assert result.paths == [];
    r := ReadOperands(argv, i, result);
  }

  /** The pattern, the paths and validate, after the option loop of arg_parser::parse. */
  method ReadOperands(argv: seq<string>, i0: nat, options: Args) returns (r: Result<Args, GrepError>)
    requires 1 <= i0 <= |argv| && options.paths == []
    ensures r == Operands(argv, i0, options)
  {
    var i := i0;
    if i >= |argv| {
      return Err(ArgumentError("Pattern required"));
    }
    var pattern := argv[i];
    i := i + 1;
    var paths := options.paths;
    if i >= |argv| {
      paths := paths + ["."];
    } else {
      paths := PushPaths(argv, i, paths);
    }
    assert paths == Paths(argv, i0);
    var result := options.(pattern := pattern, paths := paths);
    var e := Validate(result);
    if e.Some? {
      return Err(e.value);
    }
    return Ok(result);
  }

  /** The loop of arg_parser::parse that pushes argv[i..] onto the paths. */
  method PushPaths(argv: seq<string>, i0: nat, paths0: seq<string>) returns (paths: seq<string>)
    requires i0 <= |argv|
    ensures paths == paths0 + argv[i0..]
  {
    paths := paths0;
    var i := i0;
    while i < |argv|
      invariant i0 <= i <= |argv|
      invariant paths == paths0 + argv[i0..i]
      decreases |argv| - i
    {
      assert argv[i0..i + 1] == argv[i0..i] + [argv[i]];
      paths := paths + [argv[i]];
      i := i + 1;
    }
    assert argv[i0..i] == argv[i0..];
  }

  /** One pass of the option loop of arg_parser::parse, up to and including its ++i. */
  method ReadOption(argv: seq<string>, i: nat, result: Args) returns (r: Result<(Args, nat), GrepError>)
    requires i < |argv|
    ensures r == Step(NineChars, argv, i, result)
  {
    var opt := argv[i];
    var next := result;
    var j := i;
    var cut := Cut(NineChars);
    if IsFlag(opt) {
      next := SetFlag(opt, next).value;
    } else if TakesCount(opt) {
      var name := Prefix(opt, 2);
      if j + 1 >= |argv| {
        return Err(ArgumentError(name + " requires a number"));
      }
      j := j + 1;
      var n := Stoi(argv[j]);
      if n.Err? {
        return Err(CountError(n.error));
      }
      next := SetCount(name, n.value, next);
    } else if Prefix(opt, cut) == "--include=" {
      next := next.(includeExtensions := next.includeExtensions + [Extension(Suffix(opt, cut))]);
    } else {
      return Err(ArgumentError("Unknown option: " + opt));
    }
    return Ok((next, j + 1));
  }

  /** Options never reach the pattern or the paths, and -C sets both context counts. */
  lemma {:induction false} ContextBoth(rule: IncludeRule, argv: seq<string>, i: nat, a: Args)
    requires i < |argv| && Prefix(argv[i], 2) == "-C"
    ensures Step(rule, argv, i, a).Ok? ==> Step(rule, argv, i, a).value.0.contextBefore == Step(rule, argv, i, a).value.0.contextAfter
    ensures i + 1 >= |argv| ==> Step(rule, argv, i, a) == Err(ArgumentError("-C requires a number"))
  {
    assert argv[i][1] == Prefix(argv[i], 2)[1] == 'C';
    assert !IsFlag(argv[i]) && TakesCount(argv[i]);
    assert SetFlag(argv[i], a).None?;
    if i + 1 >= |argv| {
      assert "-C" + " requires a number" == "-C requires a number";
      assert Count(argv, i, Prefix(argv[i], 2)) == Err(ArgumentError("-C requires a number"));
    }
  }

  /** An option nobody recognises throws "Unknown option: " with the option itself. */
  lemma {:induction false} UnknownOption(rule: IncludeRule, argv: seq<string>, i: nat, a: Args)
    requires i < |argv| && !IsFlag(argv[i]) && !TakesCount(argv[i]) && Prefix(argv[i], Cut(rule)) != "--include="
    ensures Step(rule, argv, i, a) == Err(ArgumentError("Unknown option: " + argv[i]))
  {
  }

  /** As written, no option is ever an --include= option: nine characters never equal ten. */
  lemma {:induction false} IncludeNeverMatches(argv: seq<string>, i: nat, a: Args, ext: string)
    requires i < |argv| && argv[i] == "--include=" + ext
    ensures Step(NineChars, argv, i, a) == Err(ArgumentError("Unknown option: " + argv[i]))
  {
    var opt := argv[i];
    assert opt[..2] == "--";
    assert !TakesCount(opt) && !IsFlag(opt);
    UnknownOption(NineChars, argv, i, a);
  }

  /** Comparing ten characters, "--include=*.txt" adds the extension ".txt". */
  lemma {:induction false} IncludeIntended(argv: seq<string>, i: nat, a: Args, ext: string)
    requires i < |argv| && argv[i] == "--include=" + ext
    ensures Step(TenChars, argv, i, a) == Ok((a.(includeExtensions := a.includeExtensions + [Extension(ext)]), i + 1))
  {
    var opt := argv[i];
    assert opt[..2] == "--" && opt[..10] == "--include=" && opt[10..] == ext;
    assert !TakesCount(opt) && !IsFlag(opt);
  }

  /** With no argument after the pattern grep searches ".", and otherwise exactly the rest, in order. */
  lemma {:induction false} PatternThenPaths(rule: IncludeRule, argv: seq<string>, k: nat)
    requires 1 <= k < |argv| && !IsOption(argv[k]) && forall m :: 1 <= m < k ==> IsFlag(argv[m])
    ensures Options(rule, argv, 1, Defaults).Ok? && Options(rule, argv, 1, Defaults).value.1 == k
    ensures ParseWith(rule, argv).Ok? ==> ParseWith(rule, argv).value.pattern == argv[k]
    ensures ParseWith(rule, argv).Ok? ==> ParseWith(rule, argv).value.paths == (if k + 1 == |argv| then ["."] else argv[k + 1..])
  {
    FlagsThenStop(rule, argv, 1, k, Defaults);
  }

  /** A run of flags is read up to the first argument that is not an option. */
  lemma {:induction false} FlagsThenStop(rule: IncludeRule, argv: seq<string>, i: nat, k: nat, a: Args)
    requires 1 <= i <= k < |argv| && !IsOption(argv[k]) && forall m :: i <= m < k ==> IsFlag(argv[m])
    ensures Options(rule, argv, i, a).Ok? && Options(rule, argv, i, a).value.1 == k
    decreases k - i
  {
    if i < k {
      var opt := argv[i];
      assert IsFlag(opt);
      assert IsOption(opt);
      var b := Step(rule, argv, i, a).value.0;
      assert Step(rule, argv, i, a) == Ok((b, i + 1));
      FlagsThenStop(rule, argv, i + 1, k, b);
    }
  }
}
