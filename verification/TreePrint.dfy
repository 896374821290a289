/**
 * The tree printer: every match is printed below its directories, and directories
 * shared with the match before are not printed again.
 */
module TreePrint {
  import opened Joins

  const MAX_DEPTH := 32
  const MAX_PATH := 4095
  const MAX_PART := 255

  // ---------- Paths ----------

  /** The position of the first slash at or after i, or the length. */
  function NextSlash(s: string, i: nat): (r: nat)
    requires i <= |s|
    ensures i <= r <= |s| && (r < |s| ==> s[r] == '/')
    ensures forall j | i <= j < r :: s[j] != '/'
    decreases |s| - i
  {
    if i == |s| || s[i] == '/' then i else NextSlash(s, i + 1)
  }

  /** The non-empty names between the slashes of a path. */
  function Components(path: string): seq<string>
    decreases |path|
  {
    if path == [] then []
    else if path[0] == '/' then Components(path[1..])
    else
      var n := NextSlash(path, 0);
      [path[..n]] + Components(path[n..])
  }

  function First<T>(s: seq<T>, n: nat): seq<T> {
    if |s| <= n then s else s[..n]
  }

  function Clipped(parts: seq<string>): seq<string> {
    seq(|parts|, i requires 0 <= i < |parts| => First(parts[i], MAX_PART))
  }

  /** What the fixed buffers keep of a path. */
  function Split(rel: string): (parts: seq<string>)
    ensures |parts| <= MAX_DEPTH
  {
    First(Clipped(Components(First(rel, MAX_PATH))), MAX_DEPTH)
  }

  method SplitPath(rel: string) returns (parts: seq<string>)
    ensures parts == Split(rel)
  {
    var tmp := First(rel, MAX_PATH);
    ghost var all, left := Components(tmp), Components(tmp);
    parts := [];
    var ptr: nat, more := 0, true;
    assert tmp[0..] == tmp;
    while more && |parts| < MAX_DEPTH
      invariant ptr <= |tmp| && |parts| <= MAX_DEPTH
      invariant left == if more then Components(tmp[ptr..]) else []
      invariant Clipped(all) == parts + Clipped(left)
      decreases more, |tmp| - ptr
    {
      var token, end := NextToken(tmp, ptr);
      ComponentsFrom(tmp, ptr);
      ghost var rest := if end == |tmp| then [] else Components(tmp[end + 1..]);
      TokenTaken(parts, token, left, rest);
      left, parts := rest, Taken(parts, token);
      more := end < |tmp|;
      ptr := if more then end + 1 else ptr;
    }
    FirstOfConcat(parts, Clipped(left), MAX_DEPTH);
  }

  /** What is kept of a token: nothing of an empty one. */
  function Kept(token: string): seq<string> {
    if token == [] then [] else [First(token, MAX_PART)]
  }

  function Taken(parts: seq<string>, token: string): seq<string> {
    parts + Kept(token)
  }

  lemma FirstOfConcat<T>(a: seq<T>, b: seq<T>, n: nat)
    requires |a| == n || (|a| < n && b == [])
    ensures First(a + b, n) == a
  {
  }

  method NextToken(tmp: string, ptr: nat) returns (token: string, end: nat)
    requires ptr <= |tmp|
    ensures end == NextSlash(tmp, ptr) && token == tmp[ptr..end]
  {
    end := ptr;
    while end < |tmp| && tmp[end] != '/'
      invariant ptr <= end <= |tmp| && NextSlash(tmp, ptr) == NextSlash(tmp, end)
    {
      end := end + 1;
    }
    token := tmp[ptr..end];
  }

  function OneName(token: string): seq<string> {
    if token == [] then [] else [token]
  }

  lemma TokenTaken(parts: seq<string>, token: string, left: seq<string>, rest: seq<string>)
    requires left == OneName(token) + rest
    ensures parts + Clipped(left) == Taken(parts, token) + Clipped(rest)
  {
    ClippedConcat(OneName(token), rest);
    assert Clipped(OneName(token)) == Kept(token);
    JoinAssociates(parts, Kept(token), Clipped(rest));
  }

  lemma ClippedConcat(a: seq<string>, b: seq<string>)
    ensures Clipped(a + b) == Clipped(a) + Clipped(b)
  {
  }

  lemma SliceOfRest<T>(s: seq<T>, i: nat, e: nat)
    requires i <= e <= |s|
    ensures s[i..][..e - i] == s[i..e] && s[i..][e - i..] == s[e..]
    ensures e < |s| ==> s[e..][1..] == s[e + 1..]
  {
  }

  /** The components from a position on: the token there, if any, then those after its slash. */
  lemma ComponentsFrom(s: string, i: nat)
    requires i <= |s|
    ensures var e := NextSlash(s, i);
            Components(s[i..]) == OneName(s[i..e]) + if e == |s| then [] else Components(s[e + 1..])
  {
    var e := NextSlash(s, i);
    NextSlashShifts(s, i, i);
    SliceOfRest(s, i, e);
  }

  lemma {:induction false} NextSlashShifts(s: string, from: nat, i: nat)
    requires from <= i <= |s|
    ensures NextSlash(s[from..], i - from) == NextSlash(s, i) - from
    decreases |s| - i
  {
    if i < |s| && s[i] != '/' {
      NextSlashShifts(s, from, i + 1);
    }
  }

  /** The names of a path: slashes are passed over, and a name ends at the next slash or at the end of the path. */
  lemma ComponentsByCases(name: string, rest: string)
    requires name != "" && '/' !in name
    ensures Components("") == []
    ensures Components("/" + rest) == Components(rest)
    ensures Components(name) == [name]
    ensures Components(name + "/" + rest) == [name] + Components(rest)
  {
    SlashFirst(rest);
    NameFirst(name, "");
    assert name + "" == name;
    NameFirst(name, "/" + rest);
    assert name + ("/" + rest) == name + "/" + rest;
  }

  lemma SlashFirst(rest: string)
    ensures Components("/" + rest) == Components(rest)
  {
    assert ("/" + rest)[1..] == rest;
  }

  lemma NameFirst(name: string, rest: string)
    requires name != "" && '/' !in name && (rest != "" ==> rest[0] == '/')
    ensures Components(name + rest) == [name] + Components(rest)
  {
    var path := name + rest;
    forall j | 0 <= j < |name| ensures path[j] != '/' {
      assert path[j] == name[j] && name[j] in name;
    }
    assert rest != "" ==> path[|name|] == '/';
    assert path[0] == name[0] && NextSlash(path, 0) == |name|;
    assert path[..|name|] == name && path[|name|..] == rest;
  }

  /** What the buffers keep: of the first 4095 characters the first 32 names, of each name the first 255 characters. */
  lemma SplitKeepsFirst(rel: string, i: nat)
    ensures var names := Components(if |rel| <= 4095 then rel else rel[..4095]);
      && |Split(rel)| == (if |names| <= 32 then |names| else 32)
      && (i < |Split(rel)| ==> Split(rel)[i] == if |names[i]| <= 255 then names[i] else names[i][..255])
  {
  }

  // ---------- When nothing is cut off ----------

  predicate AllSlashes(s: string) {
    forall i | 0 <= i < |s| :: s[i] == '/'
  }

  /** No more than 32 names of no more than 255 characters, and only slashes past the first 4095 characters. */
  predicate Faithful(rel: string) {
    && |Components(rel)| <= MAX_DEPTH
    && (forall p | p in Components(rel) :: |p| <= MAX_PART)
    && AllSlashes(rel[|First(rel, MAX_PATH)|..])
  }

  function Letters(s: string): nat {
    if s == [] then 0 else (if s[0] == '/' then 0 else 1) + Letters(s[1..])
  }

  lemma {:induction false} LettersConcat(a: string, b: string)
    ensures Letters(a + b) == Letters(a) + Letters(b)
  {
    if a == [] {
      assert a + b == b;
    } else {
      assert (a + b)[1..] == a[1..] + b;
      LettersConcat(a[1..], b);
    }
  }

  lemma {:induction false} NoLettersAllSlashes(s: string)
    ensures Letters(s) == 0 <==> AllSlashes(s)
  {
    if s != [] {
      NoLettersAllSlashes(s[1..]);
      assert s == [s[0]] + s[1..];
    }
  }

  lemma {:induction false} LettersOfToken(s: string)
    requires '/' !in s
    ensures Letters(s) == |s|
  {
    if s != [] {
      LettersOfToken(s[1..]);
    }
  }

  function TotalLength(parts: seq<string>): nat {
    if parts == [] then 0 else |parts[0]| + TotalLength(parts[1..])
  }

  lemma {:induction false} ComponentsKeepLetters(s: string)
    ensures TotalLength(Components(s)) == Letters(s)
    decreases |s|
  {
    if s != [] {
      if s[0] == '/' {
        ComponentsKeepLetters(s[1..]);
      } else {
        var n := NextSlash(s, 0);
        LettersOfToken(s[..n]);
        LettersConcat(s[..n], s[n..]);
        assert s == s[..n] + s[n..];
        ComponentsKeepLetters(s[n..]);
      }
    }
  }

  lemma {:induction false} TrailingSlashes(s: string, tail: string)
    requires AllSlashes(tail)
    ensures Components(s + tail) == Components(s)
    decreases |s| + |tail|
  {
    if s == [] {
      assert s + tail == tail;
      if tail != [] {
        assert [] + tail[1..] == tail[1..];
        TrailingSlashes([], tail[1..]);
      }
    } else if s[0] == '/' {
      assert (s + tail)[1..] == s[1..] + tail;
      TrailingSlashes(s[1..], tail);
    } else {
      var n := NextSlash(s, 0);
      NextSlashOfLonger(s, tail, 0);
      assert (s + tail)[..n] == s[..n] && (s + tail)[n..] == s[n..] + tail;
      TrailingSlashes(s[n..], tail);
    }
  }

  lemma {:induction false} NextSlashOfLonger(s: string, tail: string, i: nat)
    requires i <= |s| && AllSlashes(tail)
    ensures NextSlash(s + tail, i) == NextSlash(s, i)
    decreases |s| - i
  {
    if i < |s| && s[i] != '/' {
      NextSlashOfLonger(s, tail, i + 1);
    }
  }

  lemma {:induction false} ClippedIsShorter(parts: seq<string>)
    ensures TotalLength(Clipped(parts)) <= TotalLength(parts)
    ensures TotalLength(Clipped(parts)) == TotalLength(parts) <==> Clipped(parts) == parts
  {
    if parts != [] {
      assert Clipped(parts)[1..] == Clipped(parts[1..]);
      ClippedIsShorter(parts[1..]);
      assert parts == [parts[0]] + parts[1..];
      assert Clipped(parts) == [First(parts[0], MAX_PART)] + Clipped(parts[1..]);
    }
  }

  lemma {:induction false} FirstIsShorter(parts: seq<string>, n: nat)
    ensures TotalLength(First(parts, n)) <= TotalLength(parts)
  {
    if 0 < n < |parts| {
      FirstIsShorter(parts[1..], n - 1);
      assert First(parts, n)[1..] == First(parts[1..], n - 1);
    }
  }

  lemma ClippedIffShort(parts: seq<string>)
    ensures Clipped(parts) == parts <==> forall p | p in parts :: |p| <= MAX_PART
  {
    if Clipped(parts) == parts {
      forall p | p in parts ensures |p| <= MAX_PART {
        var i :| 0 <= i < |parts| && parts[i] == p;
        assert Clipped(parts)[i] == First(parts[i], MAX_PART);
      }
    }
  }

  /** The buffers keep a path exactly when it is within their limits. */
  lemma SplitIsExact(rel: string)
    ensures Split(rel) == Components(rel) <==> Faithful(rel)
  {
    var kept := First(rel, MAX_PATH);
    var tail := rel[|kept|..];
    assert rel == kept + tail;
    if Faithful(rel) {
      TrailingSlashes(kept, tail);
      ClippedIffShort(Components(rel));
    }
    if Split(rel) == Components(rel) {
      var whole := Clipped(Components(kept));
      FirstIsShorter(whole, MAX_DEPTH);
      ClippedIsShorter(Components(kept));
      ComponentsKeepLetters(kept);
      ComponentsKeepLetters(rel);
      LettersConcat(kept, tail);
      NoLettersAllSlashes(tail);
      TrailingSlashes(kept, tail);
      ClippedIffShort(Components(rel));
    }
  }

  // ---------- The lines ----------

  /** A match found by a worker; its path below the root. */
  datatype Match = Match(rel: string, size: int, worker: int)

  /** What a printed line says of a file. */
  datatype File = File(size: int, worker: int)
  datatype Line = Directory(depth: nat, name: string) | Leaf(depth: nat, name: string, file: File)

  datatype Output = NoMatches | Tree(root: string, lines: seq<Line>)

  /** How many directories from i on a match shares with the one before; the file names never count. */
  function Common(prev: seq<string>, parts: seq<string>, i: nat): (r: nat)
    ensures i <= r
    ensures r == i || (r < |prev| && r < |parts|)
    ensures forall j | i <= j < r :: prev[j] == parts[j]
    ensures r < |prev| - 1 && r < |parts| - 1 ==> prev[r] != parts[r]
    decreases |parts| - i
  {
    if i < |prev| - 1 && i < |parts| - 1 && prev[i] == parts[i] then Common(prev, parts, i + 1) else i
  }

  function LinesFrom(parts: seq<string>, file: File, d: nat): seq<Line>
    decreases |parts| - d
  {
    if d >= |parts| then []
    else if d == |parts| - 1 then [Leaf(d, parts[d], file)]
    else [Directory(d, parts[d])] + LinesFrom(parts, file, d + 1)
  }

  function Lines(prev: seq<string>, matches: seq<Match>): seq<Line>
    decreases |matches|
  {
    if matches == [] then []
    else
      var parts := Split(matches[0].rel);
      LinesFrom(parts, File(matches[0].size, matches[0].worker), Common(prev, parts, 0)) + Lines(parts, matches[1..])
  }

  method PrintTree(root: string, matches: seq<Match>) returns (out: Output)
    ensures out == if matches == [] then NoMatches else Tree(root, Lines([], matches))
  {
    if |matches| == 0 {
      return NoMatches;
    }
    var lines: seq<Line> := [];
    var prev: seq<string> := [];
    var i := 0;
    while i < |matches|
      invariant i <= |matches|
      invariant Lines([], matches) == lines + Lines(prev, matches[i..])
    {
      var parts := SplitPath(matches[i].rel);
      var printed := PrintMatch(prev, parts, File(matches[i].size, matches[i].worker));
      LinesStep(prev, matches, i);
      assert lines + (printed + Lines(parts, matches[i + 1..])) == (lines + printed) + Lines(parts, matches[i + 1..]);
      lines, prev, i := lines + printed, parts, i + 1;
    }
    out := Tree(root, lines);
  }

  lemma LinesStep(prev: seq<string>, matches: seq<Match>, i: nat)
    requires i < |matches|
    ensures var parts, file := Split(matches[i].rel), File(matches[i].size, matches[i].worker);
            Lines(prev, matches[i..])
              == LinesFrom(parts, file, Common(prev, parts, 0)) + Lines(parts, matches[i + 1..])
  {
    assert matches[i..][1..] == matches[i + 1..];
  }

  method CommonDepth(prev: seq<string>, parts: seq<string>) returns (common: nat)
    ensures common == Common(prev, parts, 0)
  {
    common := 0;
    while common < |prev| - 1 && common < |parts| - 1 && prev[common] == parts[common]
      invariant Common(prev, parts, 0) == Common(prev, parts, common)
    {
      common := common + 1;
    }
  }

  lemma LinesFromNext(parts: seq<string>, file: File, d: nat, line: Line, lines: seq<Line>)
    requires d < |parts| && line == if d == |parts| - 1 then Leaf(d, parts[d], file) else Directory(d, parts[d])
    ensures lines + LinesFrom(parts, file, d) == (lines + [line]) + LinesFrom(parts, file, d + 1)
  {
    assert LinesFrom(parts, file, d) == [line] + LinesFrom(parts, file, d + 1);
    JoinAssociates(lines, [line], LinesFrom(parts, file, d + 1));
  }

  method PrintMatch(prev: seq<string>, parts: seq<string>, file: File) returns (lines: seq<Line>)
    ensures lines == LinesFrom(parts, file, Common(prev, parts, 0))
  {
    var common := CommonDepth(prev, parts);
    lines := [];
    var d := common;
    while d < |parts|
      invariant common <= d && (d <= |parts| || d == common)
      invariant LinesFrom(parts, file, common) == lines + LinesFrom(parts, file, d)
    {
      var line := if d == |parts| - 1 then Leaf(d, parts[d], file) else Directory(d, parts[d]);
      LinesFromNext(parts, file, d, line, lines);
      lines := lines + [line];
      d := d + 1;
    }
  }

  // ---------- Reading the tree back ----------

  datatype Found = Found(parts: seq<string>, file: File)

  /** Reads lines top to bottom, keeping the names on the way to the last line. */
  function Decode(lines: seq<Line>, stack: seq<string>): seq<Found> {
    if lines == [] then []
    else
      var path := First(stack, lines[0].depth) + [lines[0].name];
      match lines[0]
      case Directory(_, _) => Decode(lines[1..], path)
      case Leaf(_, _, file) => [Found(path, file)] + Decode(lines[1..], path)
  }

  /** The matches that have a name below the root, as the buffers keep them. */
  function Named(matches: seq<Match>): seq<Found> {
    if matches == [] then []
    else
      var parts := Split(matches[0].rel);
      (if parts == [] then [] else [Found(parts, File(matches[0].size, matches[0].worker))]) + Named(matches[1..])
  }

  lemma DecodeFirst(line: Line, rest: seq<Line>, stack: seq<string>)
    ensures var path := First(stack, line.depth) + [line.name];
      Decode([line] + rest, stack) == (if line.Leaf? then [Found(path, line.file)] else []) + Decode(rest, path)
  {
    assert ([line] + rest)[1..] == rest;
  }

  /** Lines of one match, read with its first d names on the stack, give the match and leave its path. */
  lemma {:induction false} DecodeMatch(parts: seq<string>, file: File, d: nat, stack: seq<string>, rest: seq<Line>)
    requires d < |parts| && d <= |stack| && stack[..d] == parts[..d]
    ensures Decode(LinesFrom(parts, file, d) + rest, stack) == [Found(parts, file)] + Decode(rest, parts)
    decreases |parts| - d
  {
    var path := First(stack, d) + [parts[d]];
    assert path == parts[..d + 1];
    if d == |parts| - 1 {
      assert path == parts;
      DecodeFirst(Leaf(d, parts[d], file), rest, stack);
    } else {
      var line, more := Directory(d, parts[d]), LinesFrom(parts, file, d + 1);
      JoinAssociates([line], more, rest);
      DecodeFirst(line, more + rest, stack);
      DecodeMatch(parts, file, d + 1, path, rest);
    }
  }

  lemma {:induction false} DecodeLines(prev: seq<string>, stack: seq<string>, matches: seq<Match>)
    requires prev != [] ==> stack == prev
    ensures Decode(Lines(prev, matches), stack) == Named(matches)
    decreases |matches|
  {
    if matches != [] {
      var parts, file := Split(matches[0].rel), File(matches[0].size, matches[0].worker);
      var rest := Lines(parts, matches[1..]);
      if parts == [] {
        assert LinesFrom(parts, file, Common(prev, parts, 0)) + rest == rest;
        DecodeLines(parts, stack, matches[1..]);
      } else {
        DecodeMatch(parts, file, Common(prev, parts, 0), stack, rest);
        DecodeLines(parts, parts, matches[1..]);
      }
    }
  }

  /** Every printed tree reads back as the names kept of each match, in order. */
  lemma TreeReadsBack(matches: seq<Match>)
    ensures Decode(Lines([], matches), []) == Named(matches)
  {
    DecodeLines([], [], matches);
  }

  /** What reads back is, match for match, the full path below the root. */
  ghost predicate AllBack(found: seq<Found>, matches: seq<Match>) {
    |found| == |matches| && forall i | 0 <= i < |matches| ::
      found[i] == Found(Components(matches[i].rel), File(matches[i].size, matches[i].worker))
  }

  /** Nothing is lost in the tree exactly when every path has a name below the root and is within the limits. */
  lemma NothingIsLost(matches: seq<Match>)
    ensures AllBack(Decode(Lines([], matches), []), matches)
       <==> forall i | 0 <= i < |matches| :: Faithful(matches[i].rel) && Components(matches[i].rel) != []
  {
    TreeReadsBack(matches);
    NamedAll(matches);
  }

  lemma {:induction false} NamedAll(matches: seq<Match>)
    ensures |Named(matches)| <= |matches|
    ensures AllBack(Named(matches), matches)
       <==> forall i | 0 <= i < |matches| :: Faithful(matches[i].rel) && Components(matches[i].rel) != []
  {
    if matches != [] {
      var m, rest := matches[0], matches[1..];
      SplitIsExact(m.rel);
      NamedAll(rest);
      if Split(m.rel) != [] {
        var f := Found(Split(m.rel), File(m.size, m.worker));
        assert Named(matches) == [f] + Named(rest);
        assert forall i | 0 <= i < |rest| :: matches[i + 1] == rest[i];
        if AllBack(Named(matches), matches) {
          forall i | 0 <= i < |rest|
            ensures Named(rest)[i] == Found(Components(rest[i].rel), File(rest[i].size, rest[i].worker))
          {
            assert Named(matches)[i + 1] == Named(rest)[i];
          }
        }
      }
    }
  }

  // ---------- Paths that are lost ----------

  /** A path of n one-letter names. */
  function Deep(n: nat): string {
    if n == 0 then [] else "/a" + Deep(n - 1)
  }

  lemma {:induction false} DeepComponents(n: nat)
    ensures |Components(Deep(n))| == n && |Deep(n)| == 2 * n
    ensures forall p | p in Components(Deep(n)) :: p == "a"
    ensures n > 0 ==> Deep(n)[0] == '/'
  {
    if n > 0 {
      DeepComponents(n - 1);
      var tail := "a" + Deep(n - 1);
      assert Deep(n)[1..] == tail;
      assert NextSlash(tail, 0) == 1 by {
        assert NextSlash(tail, 0) == NextSlash(tail, 1);
      }
      assert tail[..1] == "a" && tail[1..] == Deep(n - 1);
    }
  }

  lemma NamedOne(m: Match)
    requires Split(m.rel) != []
    ensures Named([m]) == [Found(Split(m.rel), File(m.size, m.worker))]
  {
    assert [m][1..] == [];
  }

  lemma OneIsLost(m: Match)
    requires !Faithful(m.rel)
    ensures !AllBack(Decode(Lines([], [m]), []), [m])
  {
    NothingIsLost([m]);
    assert [m][0] == m;
  }

  /** A file more than 32 levels down is printed without its own name: its 32nd directory is shown as the file. */
  lemma DeepPathIsLost(n: nat, size: int, worker: int)
    requires MAX_DEPTH < n <= 2000
    ensures var m := Match(Deep(n), size, worker);
      && |Components(Deep(n))| == n
      && !AllBack(Decode(Lines([], [m]), []), [m])
      && Named([m]) == [Found(Components(Deep(n))[..MAX_DEPTH], File(size, worker))]
  {
    var rel := Deep(n);
    DeepComponents(n);
    ClippedIffShort(Components(rel));
    assert First(rel, MAX_PATH) == rel;
    assert Split(rel) == Components(rel)[..MAX_DEPTH];
    OneIsLost(Match(rel, size, worker));
    NamedOne(Match(rel, size, worker));
  }

  /** A name of 256 characters loses its last one. */
  lemma LongNameIsLost(name: string, size: int, worker: int)
    requires |name| == 256 && '/' !in name
    ensures var m := Match(name, size, worker);
      && !AllBack(Decode(Lines([], [m]), []), [m])
      && Named([m]) == [Found([name[..255]], File(size, worker))]
  {
    assert NextSlash(name, 0) == |name|;
    assert name[..|name|] == name && name[|name|..] == [];
    assert Components(name) == [name];
    assert !Faithful(name) by { assert name in Components(name); }
    assert First(name, MAX_PATH) == name;
    assert Clipped([name]) == [name[..255]];
    OneIsLost(Match(name, size, worker));
    NamedOne(Match(name, size, worker));
  }

  // ---------- The text of a line ----------

  function Dashes(n: nat): string {
    seq(n, i => '-')
  }

  /** The start of a printed line: a bar, six dashes a level, and the mark before the name. */
  function Text(depth: nat, name: string): string {
    "|" + Dashes((depth + 1) * 6) + "-- " + name
  }

  function DashRun(s: string): nat {
    if s != [] && s[0] == '-' then 1 + DashRun(s[1..]) else 0
  }

  lemma {:induction false} DashRunOf(n: nat, rest: string)
    requires rest != [] && rest[0] != '-'
    ensures DashRun(Dashes(n) + rest) == n
    decreases n
  {
    if n == 0 {
      assert Dashes(n) + rest == rest;
    } else {
      assert (Dashes(n) + rest)[1..] == Dashes(n - 1) + rest;
      DashRunOf(n - 1, rest);
    }
  }

  /** Depth and name can be read off a line, even when the name starts with dashes. */
  lemma TextIsUnambiguous(depth: nat, name: string, depth': nat, name': string)
    ensures Text(depth, name) == Text(depth', name') ==> depth == depth' && name == name'
  {
    TextParses(depth, name);
    TextParses(depth', name');
  }

  lemma TextParses(depth: nat, name: string)
    ensures var t := Text(depth, name);
            |t| > 0 && DashRun(t[1..]) == (depth + 1) * 6 + 2 && |t| > (depth + 1) * 6 + 4 - 1
            && t[(depth + 1) * 6 + 4..] == name
  {
    var n := (depth + 1) * 6;
    assert Text(depth, name)[1..] == Dashes(n + 2) + (" " + name);
    DashRunOf(n + 2, " " + name);
  }
}
