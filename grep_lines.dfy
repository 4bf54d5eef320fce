/**
 * The grep line processor (grep/src/line_processor.cpp). It sees the lines of one file at a
 * time and keeps a window of recent lines in `buffer_`. A line leaves the window from the front,
 * and it is printed as it leaves when it matched, or when a match follows it within the
 * after-context. It also counts the matches of every file. The regular-expression matcher is
 * a pair of functions fixed at construction. What the output functions print is kept as a
 * trace of records.
 */
module GrepLines {
  import opened CStd

  /** 2^64: size_t arithmetic wraps modulo this. */
  const SIZE: nat := 0x1_0000_0000_0000_0000

  /** static_cast<size_t> of an int. */
  function AsSize(x: int): (r: nat)
    requires INT_MIN <= x <= INT_MAX
    ensures r < SIZE
    ensures x >= 0 ==> r == x
  {
    if x >= 0 then x else x + SIZE
  }

  /** line_processor::line_info */
  datatype LineInfo = LineInfo(text: string, number: nat, matched: bool)

  /** One call of the output functions. */
  datatype Output =
    | Print(path: string, number: nat, text: string)  // output::print
    | Filename(path: string)                          // output::print_filename
    | CountLine(path: string, count: nat)             // output::print_count
    | Summary(path: string, count: nat)               // output::print_summary

  /** Ascending line numbers: the order lines arrive in from a file. */
  predicate Ascending(buf: seq<LineInfo>)
  {
    forall i, j :: 0 <= i < j < |buf| ==> buf[i].number < buf[j].number
  }

  /** match_counts_[path] read through operator[]: a missing file counts 0. */
  function CountOf(counts: map<string, nat>, path: string): nat
  {
    if path in counts then counts[path] else 0
  }

  class LineProcessor {
    const matches: string -> bool
    const highlight: string -> string
    const contextBefore: int
    const contextAfter: int
    const listFiles: bool
    const countMatches: bool
    const color: bool
    var buffer: seq<LineInfo>
    var matchCounts: map<string, nat>
    var fileHasMatches: bool
    /** Everything printed so far, in order. */
    var trace: seq<Output>

    /** The window never holds more than before + after + 1 lines (as a size_t). */
    ghost predicate Valid()
      reads this
    {
      InRange() && |buffer| <= Limit()
    }

    /** static_cast<size_t>(context_before_ + context_after_ + 1) */
    function Limit(): nat
      requires INT_MIN <= contextBefore + contextAfter + 1 <= INT_MAX
    {
      AsSize(contextBefore + contextAfter + 1)
    }

    /** The text of a printed line: highlighted when --color is on. */
    function Shown(text: string): string
    {
      if color then highlight(text) else text
    }

    /** n + context_after_ in size_t arithmetic: the last line number a match at n reaches. */
    function Reach(n: nat): nat
      requires INT_MIN <= contextAfter <= INT_MAX
    {
      (n + AsSize(contextAfter)) % SIZE
    }

    /**
     * What a for-each over `buf` prints: every line numbered at most `bound`, and also every
     * matched line when `keepMatched`.
     */
    function Emit(path: string, buf: seq<LineInfo>, bound: nat, keepMatched: bool): (r: seq<Output>)
      ensures |r| <= |buf|
      ensures forall k :: 0 <= k < |r| ==> r[k].Print? && r[k].path == path
      decreases |buf|
    {
      if buf == [] then []
      else
        var li := buf[|buf| - 1];
        var front := Emit(path, buf[..|buf| - 1], bound, keepMatched);
        if (keepMatched && li.matched) || li.number <= bound then front + [Print(path, li.number, Shown(li.text))]
        else front
    }

    /** The inner for loop of process: a matched line among buf[1..] within the after-context. */
    predicate MatchAhead(buf: seq<LineInfo>)
      requires INT_MIN <= contextAfter <= INT_MAX
    {
      exists i :: 1 <= i < |buf| && i <= AsSize(contextAfter) && buf[i].matched
    }

    /** What one pass of the while loop of process prints before it pops buf[0]. */
    function Leave(path: string, buf: seq<LineInfo>): (r: seq<Output>)
      requires |buf| > 0 && INT_MIN <= contextBefore <= INT_MAX && INT_MIN <= contextAfter <= INT_MAX
      ensures !buf[0].matched ==> |r| <= 1
      ensures forall k :: 0 <= k < |r| ==> r[k].Print? && r[k].path == path
    {
      var front := buf[0];
      if front.matched then Emit(path, buf, Reach(front.number), false)
      else if |buf| > AsSize(contextBefore) && MatchAhead(buf) then [Print(path, front.number, Shown(front.text))]
      else []
    }

    /**
     * The while loop of process: the lines left once the window is down to Limit(), and what
     * was printed on the way. Lines only leave from the front.
     */
    function Evict(path: string, buf: seq<LineInfo>): (r: (seq<LineInfo>, seq<Output>))
      requires INT_MIN <= contextBefore <= INT_MAX && INT_MIN <= contextAfter <= INT_MAX
      requires INT_MIN <= contextBefore + contextAfter + 1 <= INT_MAX
      ensures |r.0| <= |buf| && |r.0| <= Limit()
      ensures |buf| <= Limit() ==> r.0 == buf && r.1 == []
      decreases |buf|
    {
      if |buf| <= Limit() then (buf, [])
      else
        var rest := Evict(path, buf[1..]);
        (rest.0, Leave(path, buf) + rest.1)
    }

    /** line_processor::line_processor */
    constructor(matches: string -> bool, highlight: string -> string, before: int, after: int,
                listFiles: bool, countMatches: bool, color: bool)
      requires INT_MIN <= before <= INT_MAX && INT_MIN <= after <= INT_MAX
      requires INT_MIN <= before + after + 1 <= INT_MAX
      ensures this.matches == matches && this.highlight == highlight
      ensures contextBefore == before && contextAfter == after
      ensures this.listFiles == listFiles && this.countMatches == countMatches && this.color == color
      ensures buffer == [] && matchCounts == map[] && !fileHasMatches && trace == []
      ensures Valid()
    {
      this.matches := matches;
      this.highlight := highlight;
      contextBefore := before;
      contextAfter := after;
      this.listFiles := listFiles;
      this.countMatches := countMatches;
      this.color := color;
      buffer := [];
      matchCounts := map[];
      fileHasMatches := false;
      trace := [];
    }

    /** The range facts the constructor established, needed to read Limit() and Reach(). */
    ghost predicate InRange()
    {
      INT_MIN <= contextBefore <= INT_MAX && INT_MIN <= contextAfter <= INT_MAX
      && INT_MIN <= contextBefore + contextAfter + 1 <= INT_MAX
    }

    /** line_processor::process */
    method Process(path: string, line: string, number: nat)
      requires Valid() && number < SIZE
      modifies this`buffer, this`trace, this`fileHasMatches, this`matchCounts
      ensures Valid()
      ensures matchCounts == if matches(line) then old(matchCounts)[path := CountOf(old(matchCounts), path) + 1] else old(matchCounts)
      ensures fileHasMatches == (old(fileHasMatches) || matches(line))
      ensures countMatches || (listFiles && !matches(line)) ==> buffer == old(buffer) && trace == old(trace)
      ensures !(countMatches || (listFiles && !matches(line))) ==>
                buffer == Evict(path, old(buffer) + [LineInfo(line, number, matches(line))]).0
                && trace == old(trace) + Evict(path, old(buffer) + [LineInfo(line, number, matches(line))]).1
    {
      var matched := matches(line);
      if matched {
        fileHasMatches := true;
        matchCounts := matchCounts[path := CountOf(matchCounts, path) + 1];
      }
      if countMatches || (listFiles && !matched) {
        return;
      }
      Push(path, LineInfo(line, number, matched));
    }

    /** The push_back and the while loop of process. */
    method Push(path: string, li: LineInfo)
      requires Valid()
      modifies this`buffer, this`trace
      ensures Valid()
      ensures buffer == Evict(path, old(buffer) + [li]).0 && trace == old(trace) + Evict(path, old(buffer) + [li]).1
    {
      buffer := buffer + [li];
      ghost var pushed := buffer;
      while |buffer| > Limit()
        invariant Evict(path, pushed).0 == Evict(path, buffer).0
        invariant trace + Evict(path, buffer).1 == old(trace) + Evict(path, pushed).1
        decreases |buffer|
      {
        ghost var t0, b0 := trace, buffer;
        EvictFront(path);
        ghost var l, e := Leave(path, b0), Evict(path, buffer).1;
        assert (t0 + l) + e == t0 + (l + e);
      }
      assert trace + [] == trace;
    }

    /** One pass of the while loop of process: print what buffer_.front() calls for, then pop it. */
    method EvictFront(path: string)
      requires InRange() && |buffer| > Limit()
      modifies this`buffer, this`trace
      ensures buffer == old(buffer)[1..]
      ensures trace == old(trace) + Leave(path, old(buffer))
      ensures Evict(path, old(buffer)).0 == Evict(path, buffer).0
      ensures Evict(path, old(buffer)).1 == Leave(path, old(buffer)) + Evict(path, buffer).1
    {
      var front := buffer[0];
      if front.matched {
        EmitLines(path, Reach(front.number), false);
      } else if |buffer| > AsSize(contextBefore) {
        var shouldPrint := FindMatchAhead();
        if shouldPrint {
          trace := trace + [Print(path, front.number, Shown(front.text))];
        }
      }
      buffer := buffer[1..];
    }

    /** The for loop with a break in process: is a matched line among the next context_after_ lines? */
    method FindMatchAhead() returns (shouldPrint: bool)
      requires InRange()
      ensures shouldPrint == MatchAhead(buffer)
    {
      shouldPrint := false;
      var i := 1;
      while i < |buffer| && i <= AsSize(contextAfter)
        invariant 1 <= i
        invariant forall k :: 1 <= k < i && k < |buffer| ==> !buffer[k].matched
        decreases |buffer| - i
      {
        if buffer[i].matched {
          shouldPrint := true;
          break;
        }
        i := i + 1;
      }
    }

    /** A for-each over buffer_ that prints the lines Emit selects. */
    method EmitLines(path: string, bound: nat, keepMatched: bool)
      modifies this`trace
      ensures trace == old(trace) + Emit(path, buffer, bound, keepMatched)
    {
      var k := 0;
      while k < |buffer|
        invariant 0 <= k <= |buffer|
        invariant trace == old(trace) + Emit(path, buffer[..k], bound, keepMatched)
        decreases |buffer| - k
      {
        var li := buffer[k];
        assert buffer[..k + 1][..k] == buffer[..k];
        if (keepMatched && li.matched) || li.number <= bound {
          trace := trace + [Print(path, li.number, Shown(li.text))];
        }
        k := k + 1;
      }
      assert buffer[..k] == buffer;
    }

    /** What flush_file prints after the summary: the count, the file name or the window's lines. */
    function Report(path: string, buf: seq<LineInfo>, hasMatches: bool, count: nat): (r: seq<Output>)
      requires INT_MIN <= contextAfter <= INT_MAX
      ensures countMatches ==> r == [CountLine(path, count)]
      ensures !countMatches && listFiles && hasMatches ==> r == [Filename(path)]
      ensures forall k :: 0 <= k < |r| ==> !r[k].Summary?
    {
      if countMatches then [CountLine(path, count)]
      else if listFiles && hasMatches then [Filename(path)]
      else if buf == [] then []
      else Emit(path, buf, Reach(buf[|buf| - 1].number), true)
    }

    /** What flush_file prints for `path`, with the window, the flag and the count it finds. */
    function Flushed(path: string, buf: seq<LineInfo>, hasMatches: bool, count: nat): (r: seq<Output>)
      requires INT_MIN <= contextAfter <= INT_MAX
      ensures countMatches ==> |r| > 0 && r[|r| - 1] == CountLine(path, count) && forall k :: 0 <= k < |r| - 1 ==> r[k] == Summary(path, count)
      ensures !countMatches && listFiles && hasMatches ==> |r| > 0 && r[|r| - 1] == Filename(path)
      ensures count > 0 <==> |r| > 0 && r[0] == Summary(path, count)
    {
      (if count > 0 then [Summary(path, count)] else []) + Report(path, buf, hasMatches, count)
    }

    /** line_processor::flush_file */
    method FlushFile(path: string)
      requires Valid()
      modifies this`buffer, this`fileHasMatches, this`matchCounts, this`trace
      ensures matchCounts == old(matchCounts)[path := CountOf(old(matchCounts), path)]
      ensures trace == old(trace) + Flushed(path, old(buffer), old(fileHasMatches), CountOf(old(matchCounts), path))
      ensures buffer == [] && !fileHasMatches && Valid()
    {
      var count := CountOf(matchCounts, path);
      matchCounts := matchCounts[path := count];
      ghost var t0 := trace;
      var summary := if count > 0 then [Summary(path, count)] else [];
      trace := trace + summary;
      ReportFile(path, count);
      assert t0 + (summary + Report(path, buffer, fileHasMatches, count)) == (t0 + summary) + Report(path, buffer, fileHasMatches, count);
      buffer := [];
      fileHasMatches := false;
    }

    /** The if-chain of flush_file after the summary. */
    method ReportFile(path: string, count: nat)
      requires INT_MIN <= contextAfter <= INT_MAX
      modifies this`trace
      ensures trace == old(trace) + Report(path, buffer, fileHasMatches, count)
    {
      if countMatches {
        trace := trace + [CountLine(path, count)];
      } else if listFiles && fileHasMatches {
        trace := trace + [Filename(path)];
      } else if buffer != [] {
        EmitLines(path, Reach(buffer[|buffer| - 1].number), true);
      } else {
        assert trace == old(trace) + [];
      }
    }

    /** line_processor::get_counts: the matches of every file processed or flushed. */
    function GetCounts(): (r: map<string, nat>)
      reads this
      ensures forall p :: p in r <==> p in matchCounts
      ensures forall p :: p in r ==> r[p] == CountOf(matchCounts, p)
    {
      matchCounts
    }
  }

  /** Lines leave the window only from the front: what is left is the tail of what was there. */
  lemma {:induction false} EvictKeepsTail(p: LineProcessor, path: string, buf: seq<LineInfo>)
    requires p.InRange()
    ensures var rest := p.Evict(path, buf).0; rest == buf[|buf| - |rest|..]
    decreases |buf|
  {
    if |buf| > p.Limit() {
      var rest := p.Evict(path, buf[1..]).0;
      EvictKeepsTail(p, path, buf[1..]);
      assert buf[1..][|buf| - 1 - |rest|..] == buf[|buf| - |rest|..];
    }
  }

  /** Every stretch of an ascending window is ascending. */
  lemma {:induction false} SuffixAscending(buf: seq<LineInfo>, d: nat)
    requires Ascending(buf) && d <= |buf|
    ensures Ascending(buf[d..])
  {
    var rest := buf[d..];
    forall i, j | 0 <= i < j < |rest|
      ensures rest[i].number < rest[j].number
    {
      assert rest[i] == buf[d + i] && rest[j] == buf[d + j];
    }
  }

  /** A line numbered above all of an ascending window extends it ascending. */
  lemma {:induction false} PushAscending(buf: seq<LineInfo>, li: LineInfo)
    requires Ascending(buf) && forall k :: 0 <= k < |buf| ==> buf[k].number < li.number
    ensures Ascending(buf + [li])
  {
    var all := buf + [li];
    forall i, j | 0 <= i < j < |all|
      ensures all[i].number < all[j].number
    {
      assert all[i] == buf[i];
      if j < |buf| {
        assert all[j] == buf[j];
      }
    }
  }

  /** A line that entered an ascending window after all of it keeps it ascending, whatever leaves. */
  lemma {:induction false} ArrivalOrder(p: LineProcessor, path: string, buf: seq<LineInfo>, li: LineInfo)
    requires p.InRange() && Ascending(buf) && forall k :: 0 <= k < |buf| ==> buf[k].number < li.number
    ensures Ascending(p.Evict(path, buf + [li]).0)
  {
    var all := buf + [li];
    PushAscending(buf, li);
    var rest := p.Evict(path, all).0;
    EvictKeepsTail(p, path, all);
    SuffixAscending(all, |all| - |rest|);
  }

  /** A matched line at the front of a full window is printed first, with its own number. */
  lemma {:induction false} MatchedLinePrinted(p: LineProcessor, path: string, buf: seq<LineInfo>)
    requires p.InRange() && |buf| > 0 && buf[0].matched
    requires p.contextAfter >= 0 && buf[0].number + p.contextAfter < SIZE
    ensures |p.Leave(path, buf)| > 0 && p.Leave(path, buf)[0] == Print(path, buf[0].number, p.Shown(buf[0].text))
  {
    LeadingLine(p, path, buf, p.Reach(buf[0].number), false);
  }

  /** A selected first line of the window is the first line printed. */
  lemma {:induction false} LeadingLine(p: LineProcessor, path: string, buf: seq<LineInfo>, bound: nat, keepMatched: bool)
    requires |buf| > 0 && buf[0].number <= bound
    ensures |p.Emit(path, buf, bound, keepMatched)| > 0
    ensures p.Emit(path, buf, bound, keepMatched)[0] == Print(path, buf[0].number, p.Shown(buf[0].text))
    decreases |buf|
  {
    if |buf| > 1 {
      var init := buf[..|buf| - 1];
      assert init[0] == buf[0];
      LeadingLine(p, path, init, bound, keepMatched);
    }
  }
}
