/**
 * From the bytes of a log file to the workers: what a reader thread makes of its
 * lines, and what the whole pipeline delivers of a file.
 */
module LogFile {
  import opened Joins
  import opened Options
  import opened ReaderRanges
  import opened PipelineSafety
  import PipelineProgress

  type Line = seq<char>

  // ---------- What a thread pushes ----------

  predicate Ends(c: char) {
    c == '\r' || c == LF || c == '\0'
  }

  /** A line, as a C string, up to its first carriage return or newline. */
  function Stripped(line: Line): (r: Line)
    ensures r <= line && forall i | 0 <= i < |r| :: !Ends(r[i])
    ensures |r| < |line| ==> Ends(line[|r|])
  {
    if line == [] || Ends(line[0]) then [] else [line[0]] + Stripped(line[1..])
  }

  /** The entries of the lines that are neither blank nor malformed, in order. */
  function Parsed<T>(lines: seq<Line>, parse: Line -> Option<T>): seq<T> {
    if lines == [] then []
    else
      Parsed(lines[..|lines| - 1], parse) + Pushed(lines[|lines| - 1], parse)
  }

  function Pushed<T>(line: Line, parse: Line -> Option<T>): seq<T> {
    var l := Stripped(line);
    if l == [] then [] else match parse(l) case Some(e) => [e] case None => []
  }

  // ---------- What the entries are ----------

  /** What a read is as a C string: all of it up to its first carriage return, newline or NUL. */
  ghost predicate CString(line: Line, l: Line) {
    && l <= line && (forall i | 0 <= i < |l| :: l[i] != '\r' && l[i] != '\n' && l[i] != '\0')
    && (|l| < |line| ==> line[|l|] == '\r' || line[|l|] == '\n' || line[|l|] == '\0')
  }

  /** The read is a line of which the parser makes x. */
  ghost predicate ParsesTo<T>(line: Line, parse: Line -> Option<T>, x: T) {
    exists l :: CString(line, l) && l != [] && parse(l) == Some(x)
  }

  /** The read is a line, and the parser refuses it. */
  ghost predicate Malformed<T>(line: Line, parse: Line -> Option<T>) {
    exists l :: CString(line, l) && l != [] && parse(l).None?
  }

  /** The reads at the given positions, in order, parse to the given entries; the others are blank or refused. */
  ghost predicate Selects<T>(lines: seq<Line>, parse: Line -> Option<T>, at: seq<nat>, pushed: seq<T>) {
    && |at| == |pushed|
    && (forall j | 0 <= j < |at| :: at[j] < |lines| && ParsesTo(lines[at[j]], parse, pushed[j]))
    && (forall i, j | 0 <= i < j < |at| :: at[i] < at[j])
    && (forall i | 0 <= i < |lines| && i !in at :: CString(lines[i], []) || Malformed(lines[i], parse))
  }

  ghost function MalformedReads<T>(lines: seq<Line>, parse: Line -> Option<T>): set<nat> {
    set i: nat | i < |lines| && Malformed(lines[i], parse)
  }

  /** The reads that parse to x. */
  ghost function ReadsOf<T>(lines: seq<Line>, parse: Line -> Option<T>, x: T): set<nat> {
    set i: nat | i < |lines| && ParsesTo(lines[i], parse, x)
  }

  lemma StrippedIsCString(line: Line, l: Line)
    ensures CString(line, l) <==> l == Stripped(line)
  {
    var r := Stripped(line);
    if CString(line, l) {
      assert forall i | 0 <= i < |r| :: !Ends(line[i]);
      assert forall i | 0 <= i < |l| :: !Ends(line[i]);
      assert |l| == |r|;
    }
  }

  lemma PushedIsParse<T>(line: Line, parse: Line -> Option<T>)
    ensures Pushed(line, parse) == [] ==> CString(line, []) || Malformed(line, parse)
    ensures Pushed(line, parse) != [] ==> |Pushed(line, parse)| == 1 && ParsesTo(line, parse, Pushed(line, parse)[0])
    ensures forall x :: ParsesTo(line, parse, x) <==> Pushed(line, parse) == [x]
    ensures Malformed(line, parse) <==> Stripped(line) != [] && parse(Stripped(line)).None?
  {
    forall l ensures CString(line, l) <==> l == Stripped(line) {
      StrippedIsCString(line, l);
    }
  }

  lemma SelectsWithout<T>(lines: seq<Line>, line: Line, parse: Line -> Option<T>, at: seq<nat>, pushed: seq<T>)
    requires Selects(lines, parse, at, pushed) && (CString(line, []) || Malformed(line, parse))
    ensures Selects(lines + [line], parse, at, pushed)
  {
  }

  lemma SelectsWith<T>(lines: seq<Line>, line: Line, parse: Line -> Option<T>, at: seq<nat>, pushed: seq<T>, x: T)
    requires Selects(lines, parse, at, pushed) && ParsesTo(line, parse, x)
    ensures Selects(lines + [line], parse, at + [|lines|], pushed + [x])
  {
    var after := at + [|lines|];
    forall i | 0 <= i < |lines + [line]| && i !in after
      ensures CString((lines + [line])[i], []) || Malformed((lines + [line])[i], parse)
    {
      assert after[|at|] == |lines|;
      assert forall j | 0 <= j < |at| :: after[j] == at[j];
    }
  }

  lemma {:induction false} ParsedSelects<T>(lines: seq<Line>, parse: Line -> Option<T>) returns (at: seq<nat>)
    ensures Selects(lines, parse, at, Parsed(lines, parse))
  {
    if lines == [] {
      at := [];
    } else {
      var front, line := lines[..|lines| - 1], lines[|lines| - 1];
      assert lines == front + [line];
      at := ParsedSelects(front, parse);
      PushedIsParse(line, parse);
      var p := Pushed(line, parse);
      if p == [] {
        SelectsWithout(front, line, parse, at, Parsed(front, parse));
      } else {
        SelectsWith(front, line, parse, at, Parsed(front, parse), p[0]);
        at := at + [|front|];
      }
    }
  }

  lemma MalformedLast<T>(lines: seq<Line>, line: Line, parse: Line -> Option<T>)
    ensures |MalformedReads(lines + [line], parse)|
         == |MalformedReads(lines, parse)| + if Malformed(line, parse) then 1 else 0
  {
    assert MalformedReads(lines + [line], parse)
        == MalformedReads(lines, parse) + if Malformed(line, parse) then {|lines|} else {};
  }

  /** A reader thread: the entries it pushes, with parse for the log line parser. */
  method ReaderThread<T>(file: seq<char>, start: nat, end: nat, parse: Line -> Option<T>)
    returns (pushed: seq<T>, malformed: nat)
    requires end <= |file|
    ensures pushed == Parsed(Reads(file, LineStart(file, start), end), parse)
    ensures exists at :: Selects(Reads(file, LineStart(file, start), end), parse, at, pushed)
    ensures malformed == |MalformedReads(Reads(file, LineStart(file, start), end), parse)|
  {
    var fp := new Stream(file);
    var realStart := FindLineStart(fp, start);
    fp.Seek(realStart);
    ghost var lines: seq<Line> := [];
    pushed, malformed := [], 0;
    while fp.at < end
      invariant fp.data == file
      invariant lines + Reads(file, fp.at, end) == Reads(file, realStart, end)
      invariant pushed == Parsed(lines, parse) && malformed == |MalformedReads(lines, parse)|
      decreases |file| - fp.at
    {
      var line := fp.Gets();
      JoinAssociates(lines, [line], Reads(file, fp.at, end));
      ParsedLast(lines, line, parse);
      MalformedLast(lines, line, parse);
      PushedIsParse(line, parse);
      lines := lines + [line];
      line := Stripped(line);
      if line != [] {
        match parse(line)
        case Some(entry) => pushed := pushed + [entry];
        case None => malformed := malformed + 1;
      }
    }
    assert lines + [] == lines;
    ghost var at := ParsedSelects(lines, parse);
  }

  lemma ParsedLast<T>(lines: seq<Line>, line: Line, parse: Line -> Option<T>)
    ensures Parsed(lines + [line], parse) == Parsed(lines, parse) + Pushed(line, parse)
  {
    assert (lines + [line])[..|lines|] == lines;
  }

  lemma {:induction false} ParsedJoin<T>(a: seq<Line>, b: seq<Line>, parse: Line -> Option<T>)
    ensures Parsed(a + b, parse) == Parsed(a, parse) + Parsed(b, parse)
  {
    if b == [] {
      assert a + b == a;
    } else {
      var n := |b| - 1;
      assert (a + b)[..|a + b| - 1] == a + b[..n];
      ParsedJoin(a, b[..n], parse);
    }
  }

  // ---------- The file through the pipeline ----------

  /** An entry occurs among the parsed ones as often as reads parse to it. */
  lemma {:induction false} CopiesAreReads(lines: seq<Line>, parse: Parser, x: Pipeline.Entry)
    ensures Copies(Parsed(lines, parse), x) == |ReadsOf(lines, parse, x)|
  {
    if lines == [] {
      assert ReadsOf(lines, parse, x) == {};
    } else {
      var front, line := lines[..|lines| - 1], lines[|lines| - 1];
      assert lines == front + [line];
      CopiesAreReads(front, parse, x);
      CopiesOfLast(front, line, parse, x);
      ReadsOfLast(front, line, parse, x);
    }
  }

  lemma CopiesOfLast(lines: seq<Line>, line: Line, parse: Parser, x: Pipeline.Entry)
    ensures Copies(Parsed(lines + [line], parse), x)
         == Copies(Parsed(lines, parse), x) + if ParsesTo(line, parse, x) then 1 else 0
  {
    ParsedLast(lines, line, parse);
    PushedIsParse(line, parse);
    CopiesJoin(Parsed(lines, parse), Pushed(line, parse), x);
    CopiesOfOne(Pushed(line, parse), x);
  }

  lemma ReadsOfLast(lines: seq<Line>, line: Line, parse: Parser, x: Pipeline.Entry)
    ensures |ReadsOf(lines + [line], parse, x)|
         == |ReadsOf(lines, parse, x)| + if ParsesTo(line, parse, x) then 1 else 0
  {
    assert ReadsOf(lines + [line], parse, x)
        == ReadsOf(lines, parse, x) + if ParsesTo(line, parse, x) then {|lines|} else {};
  }

  lemma CopiesOfOne(q: seq<Pipeline.Entry>, x: Pipeline.Entry)
    requires |q| <= 1
    ensures Copies(q, x) == if q == [x] then 1 else 0
  {
  }

  type Parser = Line -> Option<Pipeline.Entry>

  /** What thread i of the reader process pushes. */
  function ThreadPushes(file: seq<char>, threads: nat, i: nat, parse: Parser): seq<Pipeline.Entry>
    requires i < threads
  {
    Parsed(Reads(file, LineStart(file, StartByte(|file|, threads, i)), EndByte(|file|, threads, i)), parse)
  }

  /** The pipeline starts with each reader thread about to push the entries of its own range. */
  ghost predicate ReadsFile(s: Pipeline.Sys, file: seq<char>, parse: Parser) {
    && |s.readers| > 0
    && forall i | 0 <= i < |s.readers| :: s.readers[i].todo == ThreadPushes(file, |s.readers|, i, parse)
  }

  lemma {:induction false} InReadersFrom(readers: seq<Pipeline.Reader>, file: seq<char>, threads: nat, i: nat,
                                        parse: Parser, x: Pipeline.Entry)
    requires i <= threads == |readers|
    requires forall k | 0 <= k < threads :: readers[k].todo == ThreadPushes(file, threads, k, parse)
    requires threads > 0
    ensures InReaders(readers[..i], x) + Copies(Parsed(ReadsFrom(file, threads, i), parse), x)
         == Copies(Parsed(ParallelRead(file, threads), parse), x)
  {
    if i > 0 {
      var k := i - 1;
      InReadersFrom(readers, file, threads, k, parse, x);
      var own := Reads(file, LineStart(file, StartByte(|file|, threads, k)), EndByte(|file|, threads, k));
      ParsedJoin(own, ReadsFrom(file, threads, i), parse);
      CopiesJoin(Parsed(own, parse), Parsed(ReadsFrom(file, threads, i), parse), x);
      assert readers[..i][..k] == readers[..k] && readers[..i][k] == readers[k];
    }
  }

  lemma ReadersHoldFile(s: Pipeline.Sys, file: seq<char>, parse: Parser, x: Pipeline.Entry)
    requires ReadsFile(s, file, parse)
    ensures InReaders(s.readers, x) == Copies(Parsed(ParallelRead(file, |s.readers|), parse), x)
  {
    var n := |s.readers|;
    InReadersFrom(s.readers, file, n, n, parse, x);
    assert s.readers[..n] == s.readers;
    assert ReadsFrom(file, n, n) == [];
  }

  /**
   * End to end: with clean cuts (lines that fit the buffer, for instance), a run of the pipeline that can go no
   * further has processed every entry exactly as often as a single reader finds it in the file: as often as
   * there are reads that parse to it.
   */
  lemma FileIsProcessed(c: Pipeline.Caps, run: seq<Pipeline.Sys>, file: seq<char>, parse: Parser, x: Pipeline.Entry)
    requires Pipeline.IsRun(c, run) && ReadsFile(run[0], file, parse) && Datum(x)
    requires Pipeline.Shape(c, run[|run| - 1]) && !PipelineProgress.CanMove(c, run[|run| - 1])
    requires forall k | 1 <= k < |run[0].readers| :: CutsAtBuffer(file, Cut(file, |run[0].readers|, k))
    ensures Processed(run[|run| - 1].workers, x) == Copies(Parsed(SequentialRead(file), parse), x)
    ensures Processed(run[|run| - 1].workers, x) == |ReadsOf(SequentialRead(file), parse, x)|
  {
    CopiesAreReads(SequentialRead(file), parse, x);
    ReadersHoldFile(run[0], file, parse, x);
    ParallelIffCutsAtBuffers(file, |run[0].readers|);
    PipelineProgress.MaximalRunDelivers(c, run, x);
  }
}
