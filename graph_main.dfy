/**
 * The input-file checks of the graph course work's entry point (GraphCourseWork/main.cpp):
 * the lower-cased extension of the file name, and the refusal of anything but .txt and .json.
 */
module GraphMain {
  import opened Common
  import opened CStd

  /** `find_last_of('.')`: the position of the last dot, or None for npos. */
  function LastDot(s: string): (r: Option<nat>)
    ensures r.Some? ==> r.value < |s| && s[r.value] == '.' && forall k :: r.value < k < |s| ==> s[k] != '.'
    ensures r.None? ==> forall k :: 0 <= k < |s| ==> s[k] != '.'
  {
    if s == [] then None
    else if s[|s| - 1] == '.' then Some(|s| - 1)
    else LastDot(s[..|s| - 1])
  }

  /** `std::transform(..., ::tolower)` over a string. */
  function Lowered(s: string): (r: string)
    ensures |r| == |s| && forall k :: 0 <= k < |s| ==> r[k] == ToLower(s[k])
  {
    if s == [] then [] else Lowered(s[..|s| - 1]) + [ToLower(s[|s| - 1])]
  }

  /** get_file_extension: the lower-cased text after the last dot, or "" when there is no dot. */
  function GetFileExtension(filename: string): (ext: string)
    ensures LastDot(filename).None? ==> ext == ""
    ensures LastDot(filename).Some? ==> ext == Lowered(filename[LastDot(filename).value + 1..])
  {
    match LastDot(filename)
    case None => ""
    case Some(pos) => Lowered(filename[pos + 1..])
  }

  /** The extension never holds a dot, and has no upper-case letter. */
  lemma ExtensionIsLastComponent(filename: string)
    ensures forall k :: 0 <= k < |GetFileExtension(filename)| ==>
      GetFileExtension(filename)[k] != '.' && !('A' <= GetFileExtension(filename)[k] <= 'Z')
  {
  }

  /** Any base name followed by a dot and a dot-free extension gives that extension, lower-cased. */
  lemma ExtensionOfNameDotExt(base: string, raw: string)
    requires forall k :: 0 <= k < |raw| ==> raw[k] != '.'
    ensures GetFileExtension(base + "." + raw) == Lowered(raw)
  {
    var s := base + "." + raw;
    LastDotAfter(base, raw);
    assert s[|base| + 1..] == raw;
  }

  lemma {:induction false} LastDotAfter(base: string, raw: string)
    requires forall k :: 0 <= k < |raw| ==> raw[k] != '.'
    ensures LastDot(base + "." + raw) == Some(|base|)
    decreases |raw|
  {
    var s := base + "." + raw;
    if raw != [] {
      assert s[..|s| - 1] == base + "." + raw[..|raw| - 1];
      LastDotAfter(base, raw[..|raw| - 1]);
    }
  }

  /** "graph.TXT" is a text file. */
  lemma UpperCaseExtension()
    ensures GetFileExtension("graph.TXT") == "txt"
  {
    assert "graph.TXT" == "graph" + "." + "TXT";
    ExtensionOfNameDotExt("graph", "TXT");
    var r := Lowered("TXT");
    assert ToLower('T') == 't' && ToLower('X') == 'x';
    assert r[0] == 't' && r[1] == 'x' && r[2] == 't';
    assert r == "txt";
  }

  /** How main stops before loading: empty path, or a type other than .txt and .json. */
  datatype InputError = EmptyPath | UnsupportedType

  /** main's checks on the file name; on success, whether the file is read as JSON. */
  function CheckInputPath(filePath: string): (r: Result<bool, InputError>)
    ensures r.Err? <==> filePath == [] || GetFileExtension(filePath) !in {"txt", "json"}
    ensures r.Ok? ==> (r.value <==> GetFileExtension(filePath) == "json")
    ensures filePath == [] ==> r == Err(EmptyPath)
  {
    if filePath == [] then Err(EmptyPath)
    else
      var ext := GetFileExtension(filePath);
      if ext != "txt" && ext != "json" then Err(UnsupportedType) else Ok(ext == "json")
  }
}
