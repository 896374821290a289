/**
 * Reading a log file in parallel: the file is cut into byte ranges, each range
 * is moved to a line start, and its thread reads line by line.  The result is
 * compared with one thread that reads the whole file.
 */
module ReaderRanges {
  import opened Joins

  const LF: char := '\n'

  /** fgets fills a buffer of 1024 bytes, so one call delivers at most 1023. */
  const LIMIT := 1023

  // ---------- The stream ----------

  /** A file opened for reading, with its position. */
  class Stream {
    const data: seq<char>
    var at: nat

    constructor (text: seq<char>)
      ensures data == text && at == 0
    {
      data, at := text, 0;
    }

    method Seek(pos: nat)
      modifies this
      ensures at == pos
    {
      at := pos;
    }

    /** The next byte, or none at the end of the file. */
    method Getc() returns (more: bool, c: char)
      modifies this
      ensures more == (old(at) < |data|)
      ensures at == if more then old(at) + 1 else old(at)
      ensures more ==> c == data[old(at)]
    {
      more, c := at < |data|, LF;
      if more {
        c := data[at];
        at := at + 1;
      }
    }

    /** Reads through the next newline, but not more than a buffer full. */
    method Gets() returns (line: seq<char>)
      requires at < |data|
      modifies this
      ensures at == ReadEnd(data, old(at)) && line == data[old(at)..at]
      ensures 1 <= |line| <= 1023 && '\n' !in line[..|line| - 1]
      ensures at < |data| && |line| < 1023 ==> line[|line| - 1] == '\n'
    {
      line := [];
      ghost var p := at;
      while |line| < LIMIT && at < |data|
        invariant p <= at <= |data| && line == data[p..at] && |line| <= LIMIT && LF !in line
        invariant LineEnd(data, at) == LineEnd(data, p) && (at > p ==> data[at - 1] != LF)
        invariant at <= LineEnd(data, p)
        decreases |data| - at
      {
        var more, c := Getc();
        line := line + [c];
        assert line[..|line| - 1] == data[p..at - 1];
        if c == LF {
          return;
        }
      }
    }
  }

  // ---------- Lines and reads ----------

  /** The position just after the next newline, or the end of the file. */
  function LineEnd(file: seq<char>, pos: nat): (r: nat)
    requires pos <= |file|
    ensures pos <= r <= |file|
    ensures pos < |file| ==> pos < r
    ensures forall i | pos <= i < r - 1 :: file[i] != LF
    ensures r < |file| ==> r > pos && file[r - 1] == LF
    decreases |file| - pos
  {
    if pos == |file| then pos
    else if file[pos] == LF then pos + 1
    else LineEnd(file, pos + 1)
  }

  function ReadEnd(file: seq<char>, pos: nat): (r: nat)
    requires pos <= |file|
    ensures pos <= r <= |file| && (pos < |file| ==> pos < r)
  {
    var e := LineEnd(file, pos);
    if e - pos <= LIMIT then e else pos + LIMIT
  }

  predicate StartsLine(file: seq<char>, pos: nat) {
    pos == 0 || (pos <= |file| && file[pos - 1] == LF)
  }

  /** The first line start at or after pos; positions past the end are left alone. */
  function LineStart(file: seq<char>, pos: nat): (r: nat)
    ensures pos <= r && (pos <= |file| ==> r <= |file|)
  {
    if pos == 0 || pos > |file| || file[pos - 1] == LF then pos else LineEnd(file, pos)
  }

  /** Nothing but the rest of a line lies between a position and the line start found from it. */
  lemma LineStartIsFirst(file: seq<char>, pos: nat)
    requires pos <= |file|
    ensures var r := LineStart(file, pos);
      && pos <= r <= |file| && (r == 0 || r == |file| || file[r - 1] == '\n')
      && (r > pos ==> pos > 0 && '\n' !in file[pos - 1..r - 1])
  {
  }

  method FindLineStart(fp: Stream, pos: nat) returns (r: nat)
    modifies fp
    ensures r == LineStart(fp.data, pos)
  {
    if pos == 0 {
      return 0;
    }
    fp.Seek(pos - 1);
    var more, c := fp.Getc();
    if !more || c == LF {
      return pos;
    }
    var file := fp.data;
    more, c := fp.Getc();
    while more && c != LF
      invariant pos <= fp.at <= |file|
        && LineEnd(file, pos) == (if more && c == LF then fp.at else LineEnd(file, fp.at))
      invariant !more ==> fp.at == |file|
      decreases |file| - fp.at, more
    {
      more, c := fp.Getc();
    }
    return fp.at;
  }

  /** The successive reads that begin at or after from and before end. */
  function Reads(file: seq<char>, from: nat, end: nat): seq<seq<char>>
    requires end <= |file|
    decreases |file| - from
  {
    if from >= end then []
    else [file[from..ReadEnd(file, from)]] + Reads(file, ReadEnd(file, from), end)
  }

  /** The reading loop of one thread. */
  method ReadRange(file: seq<char>, start: nat, end: nat) returns (lines: seq<seq<char>>)
    requires end <= |file|
    ensures lines == Reads(file, LineStart(file, start), end)
  {
    var fp := new Stream(file);
    var realStart := FindLineStart(fp, start);
    fp.Seek(realStart);
    lines := [];
    while fp.at < end
      invariant lines + Reads(file, fp.at, end) == Reads(file, realStart, end)
      decreases |file| - fp.at
    {
      var line := fp.Gets();
      JoinAssociates(lines, [line], Reads(file, fp.at, end));
      lines := lines + [line];
    }
  }

  // ---------- The split ----------

  function Chunk(size: nat, threads: nat): nat
    requires threads > 0
  {
    (size + threads - 1) / threads
  }

  /** Where the range of thread i begins, not yet capped by the file size. */
  function StartByte(size: nat, threads: nat, i: nat): nat
    requires threads > 0
  {
    i * Chunk(size, threads)
  }

  function EndByte(size: nat, threads: nat, i: nat): nat
    requires threads > 0
  {
    var e := (i + 1) * Chunk(size, threads);
    if e > size || i == threads - 1 then size else e
  }

  /** What threads i and later read, in thread order. */
  function ReadsFrom(file: seq<char>, threads: nat, i: nat): seq<seq<char>>
    requires 0 < threads && i <= threads
    decreases threads - i
  {
    if i == threads then []
    else
      Reads(file, LineStart(file, StartByte(|file|, threads, i)), EndByte(|file|, threads, i))
      + ReadsFrom(file, threads, i + 1)
  }

  function ParallelRead(file: seq<char>, threads: nat): seq<seq<char>>
    requires 0 < threads
  {
    ReadsFrom(file, threads, 0)
  }

  function SequentialRead(file: seq<char>): seq<seq<char>> {
    Reads(file, 0, |file|)
  }

  /** The reader process sets up the range of each thread. */
  method SetRanges(size: nat, threads: nat) returns (starts: seq<nat>, ends: seq<nat>)
    requires 0 < threads
    ensures |starts| == |ends| == threads
    ensures forall i | 0 <= i < threads ::
      starts[i] == StartByte(size, threads, i) && ends[i] == EndByte(size, threads, i)
  {
    var chunk := (size + threads - 1) / threads;
    starts, ends := [], [];
    for i := 0 to threads
      invariant |starts| == |ends| == i
      invariant forall j | 0 <= j < i ::
        starts[j] == StartByte(size, threads, j) && ends[j] == EndByte(size, threads, j)
    {
      var end: nat := (i + 1) * chunk;
      if end > size || i == threads - 1 {
        end := size;
      }
      starts, ends := starts + [i * chunk], ends + [end];
    }
  }

  /** Each thread reads its own range; the results are joined in thread order. */
  method RunReader(file: seq<char>, threads: nat) returns (lines: seq<seq<char>>)
    requires 0 < threads
    ensures lines == ParallelRead(file, threads)
  {
    var starts, ends := SetRanges(|file|, threads);
    lines := [];
    for i := 0 to threads
      invariant lines + ReadsFrom(file, threads, i) == ParallelRead(file, threads)
    {
      assert starts[i] == StartByte(|file|, threads, i);
      var part := ReadRange(file, starts[i], ends[i]);
      JoinAssociates(lines, part, ReadsFrom(file, threads, i + 1));
      lines := lines + part;
    }
  }

  /** The ranges of the threads lie end to end from 0 to the size, in the smallest equal chunks that reach it. */
  lemma RangesTile(size: nat, threads: nat, i: nat)
    requires i < threads
    ensures StartByte(size, threads, 0) == 0 && EndByte(size, threads, threads - 1) == size
    ensures i + 1 < threads ==>
      EndByte(size, threads, i)
        == if StartByte(size, threads, i + 1) <= size then StartByte(size, threads, i + 1) else size
    ensures var chunk := Chunk(size, threads);
      StartByte(size, threads, i) == i * chunk && size <= chunk * threads < size + threads
  {
    RoundedUp(size, threads);
  }

  lemma RoundedUp(size: nat, threads: nat)
    requires 0 < threads
    ensures size <= Chunk(size, threads) * threads < size + threads
    ensures Chunk(size, threads) * threads == threads * Chunk(size, threads)
  {
    var n := size + threads - 1;
    assert n == (n / threads) * threads + n % threads;
  }

  // ---------- The two agree ----------

  /** Following the reads from p, the first one that begins at or after b. */
  function ReadAt(file: seq<char>, p: nat, b: nat): (r: nat)
    requires p <= |file| && b <= |file|
    ensures p <= r <= |file| && b <= r
    decreases |file| - p
  {
    if p >= b then p else ReadAt(file, ReadEnd(file, p), b)
  }

  /** Reading on from p passes through the read at b. */
  lemma {:induction false} ReadsSplit(file: seq<char>, p: nat, b: nat, end: nat)
    requires p <= |file| && b <= end <= |file|
    ensures Reads(file, p, end) == Reads(file, p, b) + Reads(file, ReadAt(file, p, b), end)
    decreases |file| - p
  {
    if p < b {
      ReadsSplit(file, ReadEnd(file, p), b, end);
    }
  }

  lemma {:induction false} ReadAtTwice(file: seq<char>, p: nat, a: nat, b: nat)
    requires p <= |file| && a <= b <= |file|
    ensures ReadAt(file, ReadAt(file, p, a), b) == ReadAt(file, p, b)
    decreases |file| - p
  {
    if p < a {
      ReadAtTwice(file, ReadEnd(file, p), a, b);
    }
  }

  /** No newline separates p from the line end that both share. */
  lemma {:induction false} SameLineEnd(file: seq<char>, p: nat, q: nat)
    requires p <= q <= |file| && (q < LineEnd(file, p) || q == |file| == LineEnd(file, p))
    ensures LineEnd(file, q) == LineEnd(file, p)
    decreases q - p
  {
    if p < q {
      SameLineEnd(file, p + 1, q);
    }
  }

  /** However long the line, its successor is where some read begins. */
  lemma {:induction false} ReadsMeetLineEnd(file: seq<char>, p: nat)
    requires p <= |file|
    ensures ReadAt(file, p, LineEnd(file, p)) == LineEnd(file, p)
    decreases |file| - p
  {
    var e, q := LineEnd(file, p), ReadEnd(file, p);
    if q < e {
      SameLineEnd(file, p, q);
      ReadsMeetLineEnd(file, q);
    }
  }

  /** Every line start is where some read of the sequential reader begins. */
  lemma {:induction false} ReadsMeetLineStarts(file: seq<char>, p: nat, s: nat)
    requires p <= s <= |file| && (StartsLine(file, s) || s == |file|)
    ensures ReadAt(file, p, s) == s
    decreases |file| - p
  {
    if p < s {
      var e := LineEnd(file, p);
      assert e <= s;
      ReadsMeetLineEnd(file, p);
      ReadAtTwice(file, p, e, s);
      ReadsMeetLineStarts(file, e, s);
    }
  }

  lemma LineStartStarts(file: seq<char>, b: nat)
    requires b <= |file|
    ensures StartsLine(file, LineStart(file, b)) || LineStart(file, b) == |file|
    ensures ReadAt(file, 0, LineStart(file, b)) == LineStart(file, b)
    ensures ReadAt(file, 0, b) <= LineStart(file, b)
  {
    var s := LineStart(file, b);
    ReadsMeetLineStarts(file, 0, s);
    ReadAtTwice(file, 0, b, s);
  }

  /** No read of the sequential reader begins between b and the next line start: the cut at b loses nothing. */
  predicate CutsCleanly(file: seq<char>, b: nat)
    requires b <= |file|
  {
    ReadAt(file, 0, b) == LineStart(file, b)
  }

  function Cut(file: seq<char>, threads: nat, i: nat): (r: nat)
    requires 0 < threads
    ensures r <= |file|
  {
    var s := StartByte(|file|, threads, i);
    if s > |file| then |file| else s
  }

  lemma Multiples(i: nat, q: nat)
    ensures i * q <= (i + 1) * q
  {
    assert (i + 1) * q == i * q + q;
  }

  /** One range in terms of the cuts on its two sides. */
  lemma RangeIsBetweenCuts(file: seq<char>, threads: nat, i: nat)
    requires i < threads
    ensures EndByte(|file|, threads, i) == Cut(file, threads, i + 1) >= Cut(file, threads, i)
    ensures Cut(file, threads, threads) == |file|
    ensures Reads(file, LineStart(file, StartByte(|file|, threads, i)), EndByte(|file|, threads, i))
         == Reads(file, LineStart(file, Cut(file, threads, i)), Cut(file, threads, i + 1))
  {
    RoundedUp(|file|, threads);
    Multiples(i, Chunk(|file|, threads));
  }

  /** A range reads what the sequential reader reads between the cuts, unless its first cut loses reads. */
  lemma RangeAgainstSequential(file: seq<char>, a: nat, b: nat)
    requires a <= b <= |file|
    ensures |Reads(file, LineStart(file, a), b)| <= |Reads(file, ReadAt(file, 0, a), b)|
    ensures CutsCleanly(file, a) ==> Reads(file, LineStart(file, a), b) == Reads(file, ReadAt(file, 0, a), b)
    ensures |Reads(file, LineStart(file, a), b)| == |Reads(file, ReadAt(file, 0, a), b)| ==>
      || CutsCleanly(file, a)
      || (&& b < LineStart(file, a) && b < |file|
          && ReadAt(file, 0, a) == ReadAt(file, 0, b) && LineStart(file, b) == LineStart(file, a))
  {
    LineStartStarts(file, a);
    var s, p := LineStart(file, a), ReadAt(file, 0, a);
    ReadAtTwice(file, 0, a, s);
    if s <= b {
      ReadsSplit(file, p, s, b);
    } else if p < s {
      if p >= b {
        ReadAtTwice(file, 0, a, b);
        SameLineEnd(file, a, b);
        assert file[b - 1] != LF || a == b;
      }
    }
  }

  ghost predicate CleanFrom(file: seq<char>, threads: nat, i: nat)
    requires 0 < threads
  {
    forall k | i <= k < threads :: CutsCleanly(file, Cut(file, threads, k))
  }

  /** r and t stand for what is read, m and s for what should be read, left and right of a cut. */
  lemma JoinRange<T>(r: seq<T>, m: seq<T>, t: seq<T>, s: seq<T>, cleanHere: bool, cleanBeyond: bool)
    requires |r| <= |m| && |t| <= |s|
    requires cleanHere ==> r == m
    requires cleanBeyond ==> t == s
    requires |r| == |m| && cleanBeyond ==> cleanHere
    requires |t| == |s| ==> cleanBeyond
    ensures |r + t| <= |m + s|
    ensures cleanHere && cleanBeyond ==> r + t == m + s
    ensures |r + t| == |m + s| ==> cleanHere && cleanBeyond
  {
  }

  /** From the cut at a on, read never exceeds what should be read, and equals it exactly if the cuts are clean. */
  ghost predicate Agrees(file: seq<char>, read: seq<seq<char>>, a: nat, clean: bool)
    requires a <= |file|
  {
    var rest := Reads(file, ReadAt(file, 0, a), |file|);
    |read| <= |rest| && (clean ==> read == rest) && (|read| == |rest| ==> clean)
  }

  lemma PrependRange(file: seq<char>, a: nat, b: nat, t: seq<seq<char>>, cleanBeyond: bool)
    requires a <= b <= |file| && (cleanBeyond && b < |file| ==> CutsCleanly(file, b))
    requires Agrees(file, t, b, cleanBeyond)
    ensures Agrees(file, Reads(file, LineStart(file, a), b) + t, a, CutsCleanly(file, a) && cleanBeyond)
  {
    RangeAgainstSequential(file, a, b);
    ReadAtTwice(file, 0, a, b);
    ReadsSplit(file, ReadAt(file, 0, a), b, |file|);
    JoinRange(Reads(file, LineStart(file, a), b), Reads(file, ReadAt(file, 0, a), b), t,
              Reads(file, ReadAt(file, 0, b), |file|), CutsCleanly(file, a), cleanBeyond);
  }

  lemma CleanFromStep(file: seq<char>, threads: nat, i: nat)
    requires i < threads
    ensures CleanFrom(file, threads, i) <==> CutsCleanly(file, Cut(file, threads, i)) && CleanFrom(file, threads, i + 1)
    ensures CleanFrom(file, threads, i + 1) && i + 1 < threads ==> CutsCleanly(file, Cut(file, threads, i + 1))
  {
  }

  lemma {:induction false} SuffixAgainstSequential(file: seq<char>, threads: nat, i: nat)
    requires 0 < threads && i <= threads
    ensures Agrees(file, ReadsFrom(file, threads, i), Cut(file, threads, i), CleanFrom(file, threads, i))
    decreases threads - i
  {
    if i == threads {
      RangeIsBetweenCuts(file, threads, i - 1);
    } else {
      SuffixAgainstSequential(file, threads, i + 1);
      RangeIsBetweenCuts(file, threads, i);
      CleanFromStep(file, threads, i);
      PrependRange(file, Cut(file, threads, i), Cut(file, threads, i + 1), ReadsFrom(file, threads, i + 1),
                   CleanFrom(file, threads, i + 1));
    }
  }

  /** The parallel reader delivers the sequential reader's lines exactly when every cut is clean. */
  lemma ParallelIffCleanCuts(file: seq<char>, threads: nat)
    requires 0 < threads
    ensures ParallelRead(file, threads) == SequentialRead(file)
      <==> forall k | 1 <= k < threads :: CutsCleanly(file, Cut(file, threads, k))
  {
    SuffixAgainstSequential(file, threads, 0);
    assert Cut(file, threads, 0) == 0 && CutsCleanly(file, 0);
  }

  /** Every line, with its newline, fits into one read. */
  ghost predicate ShortLines(file: seq<char>) {
    forall p | 0 <= p <= |file| && StartsLine(file, p) :: LineEnd(file, p) - p <= LIMIT
  }

  lemma {:induction false} ShortLinesReadWhole(file: seq<char>, p: nat, b: nat)
    requires ShortLines(file) && p <= b <= |file| && (StartsLine(file, p) || p == |file|)
    ensures ReadAt(file, p, b) == LineStart(file, b)
    decreases b - p
  {
    if p < b {
      var e := ReadEnd(file, p);
      assert e == LineEnd(file, p);
      if e <= b {
        ShortLinesReadWhole(file, e, b);
      } else {
        SameLineEnd(file, p, b);
      }
    }
  }

  /** With short lines, any number of threads reads exactly the lines of the file, in order. */
  lemma ParallelEqualsSequential(file: seq<char>, threads: nat)
    requires 0 < threads && ShortLines(file)
    ensures ParallelRead(file, threads) == SequentialRead(file)
  {
    forall k | 1 <= k < threads ensures CutsCleanly(file, Cut(file, threads, k)) {
      ShortLinesReadWhole(file, 0, Cut(file, threads, k));
    }
    ParallelIffCleanCuts(file, threads);
  }

  // ---------- Clean cuts by the geometry of the line ----------

  /** Where the line that holds position b begins. */
  function LineOf(file: seq<char>, b: nat): (p: nat)
    requires b <= |file|
    ensures p <= b && StartsLine(file, p) && forall i | p <= i < b :: file[i] != LF
  {
    if b == 0 || file[b - 1] == LF then b else LineOf(file, b - 1)
  }

  /** The first multiple of the buffer, counted from p, that reaches b. */
  function Reach(p: nat, b: nat): nat
    requires p <= b
  {
    p + (b - p + LIMIT - 1) / LIMIT * LIMIT
  }

  /** The cut at b begins a line, or the last buffer of its line is the first to reach it. */
  predicate CutsAtBuffer(file: seq<char>, b: nat)
    requires b <= |file|
  {
    var p := LineOf(file, b);
    p == b || Reach(p, b) >= LineEnd(file, p)
  }

  /** Inside a line the reads go on by whole buffers, the last one ending with the line. */
  lemma {:induction false} ReadAtInLine(file: seq<char>, p: nat, b: nat)
    requires p <= b <= |file| && b <= LineEnd(file, p)
    ensures ReadAt(file, p, b) == if Reach(p, b) < LineEnd(file, p) then Reach(p, b) else
      if p == b then p else LineEnd(file, p)
    decreases |file| - p
  {
    if p < b {
      var q := ReadEnd(file, p);
      if q < b {
        SameLineEnd(file, p, q);
        assert Reach(q, b) == Reach(p, b);
        ReadAtInLine(file, q, b);
      }
    }
  }

  lemma CleanByGeometry(file: seq<char>, b: nat)
    requires b <= |file|
    ensures CutsCleanly(file, b) <==> CutsAtBuffer(file, b)
  {
    var p := LineOf(file, b);
    ReadsMeetLineStarts(file, 0, p);
    ReadAtTwice(file, 0, p, b);
    LineEndBeyond(file, p, b);
    ReadAtInLine(file, p, b);
    if p < b {
      SameLineEnd(file, p, b);
    }
  }

  lemma {:induction false} LineEndBeyond(file: seq<char>, p: nat, b: nat)
    requires p <= b <= |file| && forall i | p <= i < b :: file[i] != LF
    ensures LineEnd(file, p) >= b && (b < |file| ==> LineEnd(file, p) > b)
    decreases b - p
  {
    if p < b {
      LineEndBeyond(file, p + 1, b);
    }
  }

  /**
   * A caller can tell from the positions of the newlines alone whether the parallel read is the
   * sequential one: every cut begins a line, or lies in the last buffer of its line.
   */
  lemma ParallelIffCutsAtBuffers(file: seq<char>, threads: nat)
    requires 0 < threads
    ensures ParallelRead(file, threads) == SequentialRead(file)
       <==> forall k | 1 <= k < threads :: CutsAtBuffer(file, Cut(file, threads, k))
  {
    ParallelIffCleanCuts(file, threads);
    forall k | 1 <= k < threads
      ensures CutsCleanly(file, Cut(file, threads, k)) <==> CutsAtBuffer(file, Cut(file, threads, k))
    {
      CleanByGeometry(file, Cut(file, threads, k));
    }
  }

  // ---------- The sequential reader ----------

  function Joined(lines: seq<seq<char>>): seq<char> {
    if lines == [] then [] else lines[0] + Joined(lines[1..])
  }

  /** The reads, joined, are the file. */
  lemma {:induction false} SequentialReadIsFile(file: seq<char>, p: nat)
    requires p <= |file|
    ensures Joined(Reads(file, p, |file|)) == file[p..]
    decreases |file| - p
  {
    if p < |file| {
      var e := ReadEnd(file, p);
      SequentialReadIsFile(file, e);
      assert Reads(file, p, |file|) == [file[p..e]] + Reads(file, e, |file|);
      OneMoreJoined(file[p..e], Reads(file, e, |file|));
      SuffixParts(file, p, e);
    }
  }

  lemma OneMoreJoined(l: seq<char>, rest: seq<seq<char>>)
    ensures Joined([l] + rest) == l + Joined(rest)
  {
    assert ([l] + rest)[1..] == rest;
  }

  lemma SuffixParts(file: seq<char>, p: nat, e: nat)
    requires p <= e <= |file|
    ensures file[p..] == file[p..e] + file[e..]
  {
  }

  /** A read that holds a newline, if any, at its end. */
  predicate OneLine(l: seq<char>) {
    l != [] && forall i | 0 <= i < |l| - 1 :: l[i] != LF
  }

  predicate Ended(l: seq<char>) {
    l != [] && l[|l| - 1] == LF
  }

  /** No read spans lines; with short lines every read but the last is a whole line. */
  lemma {:induction false} ReadsAreLines(file: seq<char>, p: nat)
    requires p <= |file|
    ensures forall i | 0 <= i < |Reads(file, p, |file|)| :: OneLine(Reads(file, p, |file|)[i])
    ensures ShortLines(file) && StartsLine(file, p) ==>
      forall i | 0 <= i < |Reads(file, p, |file|)| - 1 :: Ended(Reads(file, p, |file|)[i])
    decreases |file| - p
  {
    if p < |file| {
      var e := ReadEnd(file, p);
      ReadsAreLines(file, e);
      var ls, rest := Reads(file, p, |file|), Reads(file, e, |file|);
      assert ls == [file[p..e]] + rest;
      assert OneLine(file[p..e]);
      if ShortLines(file) && StartsLine(file, p) {
        assert e == LineEnd(file, p);
        assert e < |file| ==> Ended(file[p..e]);
      }
    }
  }

  // ---------- Long lines ----------

  /** A line of two buffers' length, cut in its middle, loses its second half. */
  lemma LongLineIsLost(file: seq<char>)
    requires |file| == 2 * LIMIT && forall i | 0 <= i < |file| :: file[i] != LF
    ensures ParallelRead(file, 2) != SequentialRead(file)
  {
    NoNewline(file, 0);
    NoNewline(file, LIMIT);
    assert Cut(file, 2, 1) == LIMIT;
    assert ReadAt(file, 0, LIMIT) == LIMIT;
    assert LineStart(file, LIMIT) == 2 * LIMIT;
    assert !CutsCleanly(file, Cut(file, 2, 1));
    ParallelIffCleanCuts(file, 2);
  }

  lemma {:induction false} NoNewline(file: seq<char>, p: nat)
    requires p <= |file| && forall i | p <= i < |file| :: file[i] != LF
    ensures LineEnd(file, p) == |file|
    decreases |file| - p
  {
  }
}
