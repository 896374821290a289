/**
 * How the Hogwarts server cuts the bytes of a connection into command lines:
 * a fixed line buffer filled by reads of arbitrary size.
 */
module LineFraming {

  const MAX_LINE := 512
  const LF: char := '\n'
  const CR: char := '\r'
  const NUL: char := '\0'

  datatype Reason = TooLong | Apparate | ReadError | Hangup

  /** What a read on a readable connection brings. */
  datatype Input = Bytes(bytes: seq<char>) | Interrupted | Failed | EndOfFile

  /** A connection: bytes not yet cut, and the lines handed to the command handler so far. */
  datatype Conn =
    | Open(buf: seq<char>, lines: seq<seq<char>>)
    | Closed(reason: Reason, lines: seq<seq<char>>)

  // ---------- Lines and commands ----------

  /** The position of x at or after i, or the length. */
  function Index(s: seq<char>, x: char, i: nat): (r: nat)
    requires i <= |s|
    ensures i <= r <= |s| && (r < |s| ==> s[r] == x)
    ensures forall j | i <= j < r :: s[j] != x
    decreases |s| - i
  {
    if i == |s| || s[i] == x then i else Index(s, x, i + 1)
  }

  /** A raw line as a C string: without a carriage return at its end, and only up to the first NUL. */
  function Line(raw: seq<char>): seq<char> {
    var t := if |raw| > 0 && raw[|raw| - 1] == CR then raw[..|raw| - 1] else raw;
    t[..Index(t, NUL, 0)]
  }

  /** What a raw line becomes: it ends at its first NUL, or else at its end, where a carriage return is dropped. */
  lemma LineIsCString(raw: seq<char>)
    ensures var l := Line(raw);
      && l <= raw && '\0' !in l
      && (|l| < |raw| ==> raw[|l|] == '\0' || (raw[|l|] == '\r' && |l| == |raw| - 1))
      && (|l| == |raw| > 0 ==> raw[|raw| - 1] != '\r')
  {
  }

  predicate Blank(c: char) {
    c == ' ' || c == '\t'
  }

  function SkipBlanks(s: seq<char>): seq<char> {
    if s != [] && Blank(s[0]) then SkipBlanks(s[1..]) else s
  }

  function Token(s: seq<char>): seq<char> {
    if s == [] || Blank(s[0]) then [] else [s[0]] + Token(s[1..])
  }

  /** The command that ends the session. */
  predicate Apparates(line: seq<char>) {
    Token(SkipBlanks(line)) == "APPARATE"
  }

  // ---------- The server ----------

  /** The loop over complete lines after a read. */
  function CutLines(buf: seq<char>, lines: seq<seq<char>>): Conn
    decreases |buf|
  {
    var nl := Index(buf, LF, 0);
    if nl == |buf| then
      if |buf| == MAX_LINE then Closed(TooLong, lines) else Open(buf, lines)
    else
      var line := Line(buf[..nl]);
      if Apparates(line) then Closed(Apparate, lines + [line])
      else CutLines(buf[nl + 1..], lines + [line])
  }

  /** One readable event that delivers the given bytes; a closed connection reads nothing. */
  function Receive(c: Conn, bytes: seq<char>): Conn {
    match c
    case Open(buf, lines) => CutLines(buf + bytes, lines)
    case Closed(_, _) => c
  }

  /** One readable event: an interrupted read changes nothing, an error or the end of the stream closes. */
  function React(c: Conn, input: Input): Conn {
    match c
    case Closed(_, _) => c
    case Open(_, lines) =>
      match input
      case Bytes(bytes) => Receive(c, bytes)
      case Interrupted => c
      case Failed => Closed(ReadError, lines)
      case EndOfFile => Closed(Hangup, lines)
  }

  /** Each read brings at least one byte and no more than the buffer has room for. */
  predicate Fits(c: Conn, chunks: seq<seq<char>>)
    decreases |chunks|
  {
    chunks == [] || c.Closed? ||
    (0 < |chunks[0]| <= MAX_LINE - |c.buf| && Fits(Receive(c, chunks[0]), chunks[1..]))
  }

  function ReceiveAll(c: Conn, chunks: seq<seq<char>>): Conn
    decreases |chunks|
  {
    if chunks == [] then c else ReceiveAll(Receive(c, chunks[0]), chunks[1..])
  }

  // ---------- The buffer ----------

  class Client {
    const lineBuf: array<char>
    var lineLen: nat
    var reason: Reason
    var connected: bool
    ghost var lines: seq<seq<char>>

    ghost predicate Valid()
      reads this
    {
      lineBuf.Length == MAX_LINE && lineLen <= MAX_LINE
    }

    ghost function State(): Conn
      requires Valid()
      reads this, lineBuf
    {
      if connected then Open(lineBuf[..lineLen], lines) else Closed(reason, lines)
    }

    constructor ()
      ensures Valid() && State() == Open([], []) && connected
    {
      lineBuf := new char[MAX_LINE](_ => NUL);
      lineLen, connected, reason, lines := 0, true, TooLong, [];
    }

    method FindNewline() returns (nl: nat)
      requires Valid()
      ensures nl == Index(lineBuf[..lineLen], LF, 0)
    {
      nl := 0;
      while nl < lineLen && lineBuf[nl] != LF
        invariant nl <= lineLen
        invariant Index(lineBuf[..lineLen], LF, 0) == Index(lineBuf[..lineLen], LF, nl)
      {
        nl := nl + 1;
      }
    }

    /** Drops the first bytes of the buffer and moves the rest to its front. */
    method Consume(bytes: nat)
      requires Valid() && bytes <= lineLen
      modifies this`lineLen, lineBuf
      ensures Valid() && lineBuf[..lineLen] == old(lineBuf[..lineLen])[bytes..]
    {
      var remain := lineLen - bytes;
      for i := 0 to remain
        invariant lineLen == old(lineLen)
        invariant lineBuf[..i] == old(lineBuf[bytes..bytes + i])
        invariant lineBuf[i..] == old(lineBuf[i..])
      {
        assert lineBuf[bytes + i] == lineBuf[i..][bytes];
        lineBuf[i] := lineBuf[bytes + i];
      }
      lineLen := remain;
    }

    /** The bytes read go behind those in the buffer. */
    method Fill(bytes: seq<char>)
      requires Valid() && |bytes| <= MAX_LINE - lineLen
      modifies this`lineLen, lineBuf
      ensures Valid() && lineBuf[..lineLen] == old(lineBuf[..lineLen]) + bytes
    {
      ghost var before := lineBuf[..lineLen];
      for i := 0 to |bytes|
        invariant Valid() && lineLen == old(lineLen)
        invariant lineBuf[..lineLen + i] == before + bytes[..i]
      {
        lineBuf[lineLen + i] := bytes[i];
      }
      lineLen := lineLen + |bytes|;
      assert bytes[..|bytes|] == bytes;
    }

    /** Cuts the line that ends at position nl off the buffer. */
    method TakeLine(nl: nat) returns (line: seq<char>)
      requires Valid() && nl < lineLen
      modifies this`lineLen, lineBuf
      ensures Valid() && line == Line(old(lineBuf[..lineLen])[..nl])
      ensures lineBuf[..lineLen] == old(lineBuf[..lineLen])[nl + 1..] && lineLen < old(lineLen)
    {
      assert lineBuf[..lineLen][..nl] == lineBuf[..nl];
      line := lineBuf[..nl];
      if |line| > 0 && line[|line| - 1] == CR {
        line := line[..|line| - 1];
      }
      line := line[..Index(line, NUL, 0)];
      Consume(nl + 1);
    }

    /** A readable event.  The reply to a full buffer is sent only if there was no room to read into. */
    method HandleInput(input: Input) returns (noRoom: bool)
      requires Valid() && connected
      requires lineLen < MAX_LINE && input.Bytes? ==> 0 < |input.bytes| <= MAX_LINE - lineLen
      modifies this, lineBuf
      ensures Valid()
      ensures noRoom == (old(lineLen) == MAX_LINE)
      ensures State() == if noRoom then Closed(TooLong, old(lines)) else React(old(State()), input)
      ensures !noRoom && (input.EndOfFile? || input.Failed?) ==>
        !connected && lines == old(lines) && reason == if input.EndOfFile? then Hangup else ReadError
      ensures !noRoom && input.Interrupted? ==>
        connected && lines == old(lines) && lineBuf[..lineLen] == old(lineBuf[..lineLen])
    {
      noRoom := MAX_LINE - lineLen == 0;
      if noRoom {
        connected, reason := false, TooLong;
        return;
      }
      match input
      case Interrupted =>
      case Failed => connected, reason := false, ReadError;
      case EndOfFile => connected, reason := false, Hangup;
      case Bytes(bytes) => TakeBytes(bytes);
    }

    /** The bytes of a successful read are put behind those waiting, and complete lines are cut off and handled. */
    method TakeBytes(bytes: seq<char>)
      requires Valid() && connected && |bytes| <= MAX_LINE - lineLen
      modifies this, lineBuf
      ensures Valid() && State() == Receive(old(State()), bytes)
    {
      Fill(bytes);
      while true
        invariant Valid() && connected
        invariant CutLines(lineBuf[..lineLen], lines) == Receive(old(State()), bytes)
        decreases lineLen
      {
        var nl := FindNewline();
        if nl == lineLen {
          if lineLen == MAX_LINE {
            connected, reason := false, TooLong;
          }
          return;
        }
        var line := TakeLine(nl);
        lines := lines + [line];
        if Apparates(line) {
          connected, reason := false, Apparate;
          return;
        }
      }
    }
  }

  // ---------- The stream as a whole ----------

  /** What the server makes of a whole byte stream, had it arrived at once. */
  function Parse(stream: seq<char>, lines: seq<seq<char>>): Conn
    decreases |stream|
  {
    var nl := Index(stream, LF, 0);
    if nl >= MAX_LINE then Closed(TooLong, lines)
    else if nl == |stream| then Open(stream, lines)
    else
      var line := Line(stream[..nl]);
      if Apparates(line) then Closed(Apparate, lines + [line])
      else Parse(stream[nl + 1..], lines + [line])
  }

  lemma {:induction false} IndexOfLonger(a: seq<char>, b: seq<char>, x: char, i: nat)
    requires i <= |a|
    ensures Index(a, x, i) < |a| ==> Index(a + b, x, i) == Index(a, x, i)
    ensures Index(a, x, i) == |a| ==> Index(a + b, x, i) >= |a|
    decreases |a| - i
  {
    if i < |a| && a[i] != x {
      IndexOfLonger(a, b, x, i + 1);
    }
  }

  /** If the rest of a buffer is cut as the parser would cut it, so is the buffer. */
  lemma CutAgrees(buf: seq<char>, lines: seq<seq<char>>, nl: nat, rest: seq<char>, more: seq<seq<char>>)
    requires nl == Index(buf, LF, 0) < |buf| <= MAX_LINE
    requires rest == buf[nl + 1..] && more == lines + [Line(buf[..nl])] && CutLines(rest, more) == Parse(rest, more)
    ensures CutLines(buf, lines) == Parse(buf, lines)
  {
  }

  /** A buffer that fits is cut as the parser would cut it. */
  lemma {:induction false} CutIsParse(buf: seq<char>, lines: seq<seq<char>>)
    requires |buf| <= MAX_LINE
    ensures CutLines(buf, lines) == Parse(buf, lines)
    decreases |buf|
  {
    var nl := Index(buf, LF, 0);
    if nl < |buf| {
      CutIsParse(buf[nl + 1..], lines + [Line(buf[..nl])]);
      CutAgrees(buf, lines, nl, buf[nl + 1..], lines + [Line(buf[..nl])]);
    }
  }

  /** Parsing taken up again after an interruption. */
  function Resume(c: Conn, rest: seq<char>): Conn {
    match c
    case Open(buf, lines) => Parse(buf + rest, lines)
    case Closed(_, _) => c
  }

  /** Parsing may stop anywhere and be resumed with what was left over. */
  lemma {:induction false} ParseResumes(a: seq<char>, b: seq<char>, lines: seq<seq<char>>)
    ensures Parse(a + b, lines) == Resume(Parse(a, lines), b)
    ensures Parse(a, lines).Open? ==> |Parse(a, lines).buf| < MAX_LINE
    decreases |a|
  {
    var nl := Index(a, LF, 0);
    IndexOfLonger(a, b, LF, 0);
    if nl < |a| && nl < MAX_LINE {
      assert (a + b)[..nl] == a[..nl];
      assert (a + b)[nl + 1..] == a[nl + 1..] + b;
      ParseResumes(a[nl + 1..], b, lines + [Line(a[..nl])]);
    }
  }

  function Joined(chunks: seq<seq<char>>): seq<char> {
    if chunks == [] then [] else chunks[0] + Joined(chunks[1..])
  }

  /** An open connection with room, holding nothing that could be cut. */
  ghost predicate Settled(c: Conn) {
    c.Open? ==> |c.buf| < MAX_LINE && c == Parse(c.buf, c.lines)
  }

  /** Whatever a parse leaves open is settled. */
  lemma ParseSettles(a: seq<char>, lines: seq<seq<char>>)
    ensures Settled(Parse(a, lines))
  {
    if Parse(a, lines).Open? {
      ParseIsStable(a, lines);
      ParseResumes(a, [], lines);
    }
  }

  lemma ReceiveIsParse(c: Conn, chunk: seq<char>)
    requires c.Open? && |chunk| <= MAX_LINE - |c.buf|
    ensures Receive(c, chunk) == Parse(c.buf + chunk, c.lines)
    ensures Settled(Receive(c, chunk))
  {
    CutIsParse(c.buf + chunk, c.lines);
    ParseSettles(c.buf + chunk, c.lines);
  }

  lemma ReceiveResumes(c: Conn, chunk: seq<char>, rest: seq<char>)
    requires c.Open? && |chunk| <= MAX_LINE - |c.buf|
    ensures Resume(c, chunk + rest) == Resume(Receive(c, chunk), rest)
  {
    ReceiveIsParse(c, chunk);
    ParseResumes(c.buf + chunk, rest, c.lines);
    assert c.buf + (chunk + rest) == (c.buf + chunk) + rest;
  }

  lemma {:induction false} ReceiveAllIsParse(c: Conn, chunks: seq<seq<char>>)
    requires Fits(c, chunks) && Settled(c)
    ensures ReceiveAll(c, chunks) == Resume(c, Joined(chunks))
    decreases |chunks|
  {
    if chunks == [] {
      assert c.Open? ==> c.buf + [] == c.buf;
    } else if c.Open? {
      ReceiveIsParse(c, chunks[0]);
      ReceiveResumes(c, chunks[0], Joined(chunks[1..]));
      ReceiveAllIsParse(Receive(c, chunks[0]), chunks[1..]);
    } else {
      ReceiveAllIsParse(c, chunks[1..]);
    }
  }

  /** Bytes without a newline wait in the buffer, unless they fill it: then the connection is closed. */
  lemma UnfinishedLine(stream: seq<char>)
    requires '\n' !in stream
    ensures Parse(stream, []) == if |stream| >= 512 then Closed(TooLong, []) else Open(stream, [])
  {
  }

  /** What a parse leaves over holds no further line. */
  lemma {:induction false} LeftoverHasNoLine(a: seq<char>, lines: seq<seq<char>>)
    requires Parse(a, lines).Open?
    ensures var buf := Parse(a, lines).buf;
      Index(buf, LF, 0) == |buf| < MAX_LINE
    decreases |a|
  {
    var nl := Index(a, LF, 0);
    if nl < |a| && nl < MAX_LINE {
      LeftoverHasNoLine(a[nl + 1..], lines + [Line(a[..nl])]);
    }
  }

  lemma ParseIsStable(a: seq<char>, lines: seq<seq<char>>)
    requires Parse(a, lines).Open?
    ensures Parse(Parse(a, lines).buf, Parse(a, lines).lines) == Parse(a, lines)
  {
    LeftoverHasNoLine(a, lines);
  }

  /**
   * The lines that reach the command handler, and the way the connection ends,
   * depend only on the bytes sent, not on how they were cut into reads.
   */
  lemma FramingIgnoresSegmentation(chunks: seq<seq<char>>, other: seq<seq<char>>)
    requires Fits(Open([], []), chunks) && Fits(Open([], []), other) && Joined(chunks) == Joined(other)
    ensures ReceiveAll(Open([], []), chunks) == ReceiveAll(Open([], []), other) == Parse(Joined(chunks), [])
  {
    ReceiveAllIsParse(Open([], []), chunks);
    ReceiveAllIsParse(Open([], []), other);
    assert [] + Joined(chunks) == Joined(chunks);
  }

  /** There is always room to read: no open connection has a full buffer. */
  lemma {:induction false} AlwaysRoom(c: Conn, chunks: seq<seq<char>>)
    requires Fits(c, chunks) && (c.Open? ==> |c.buf| < MAX_LINE)
    ensures ReceiveAll(c, chunks).Open? ==> |ReceiveAll(c, chunks).buf| < MAX_LINE
    decreases |chunks|
  {
    if chunks != [] {
      if c.Open? {
        CutLeavesRoom(c.buf + chunks[0], c.lines);
      }
      AlwaysRoom(Receive(c, chunks[0]), chunks[1..]);
    }
  }

  lemma {:induction false} CutLeavesRoom(buf: seq<char>, lines: seq<seq<char>>)
    requires |buf| <= MAX_LINE
    ensures CutLines(buf, lines).Open? ==> |CutLines(buf, lines).buf| < MAX_LINE
    decreases |buf|
  {
    var nl := Index(buf, LF, 0);
    if nl < |buf| {
      CutLeavesRoom(buf[nl + 1..], lines + [Line(buf[..nl])]);
    }
  }

  // ---------- Lines on the wire ----------

  /** A line that survives framing as it is: it fits with its ending, and holds nothing the framing interprets. */
  predicate Plain(line: seq<char>, crlf: bool) {
    && |line| + (if crlf then 1 else 0) < MAX_LINE
    && LF !in line && NUL !in line && (line != [] ==> line[|line| - 1] != CR)
    && !Apparates(line)
  }

  function Ending(crlf: bool): seq<char> {
    if crlf then [CR, LF] else [LF]
  }

  function Wire(lines: seq<seq<char>>, crlf: seq<bool>): seq<char>
    requires |crlf| == |lines|
  {
    if lines == [] then [] else lines[0] + Ending(crlf[0]) + Wire(lines[1..], crlf[1..])
  }

  lemma {:induction false} IndexSkips(s: seq<char>, x: char, i: nat, k: nat)
    requires i <= k <= |s| && (forall j | i <= j < k :: s[j] != x) && (k < |s| ==> s[k] == x)
    ensures Index(s, x, i) == k
    decreases k - i
  {
    if i < k {
      IndexSkips(s, x, i + 1, k);
    }
  }

  lemma PlainLineReads(line: seq<char>, crlf: bool, rest: seq<char>)
    requires Plain(line, crlf)
    ensures var s := line + Ending(crlf) + rest;
      var nl := Index(s, LF, 0);
      nl == |line| + (if crlf then 1 else 0) && Line(s[..nl]) == line && s[nl + 1..] == rest
  {
    var s := line + Ending(crlf) + rest;
    var nl := |line| + if crlf then 1 else 0;
    assert s[|line|..nl + 1] == Ending(crlf);
    assert forall j | 0 <= j < |line| :: s[j] == line[j];
    assert s[nl] == LF;
    IndexSkips(s, LF, 0, nl);
    assert s[..nl] == if crlf then line + [CR] else line;
    IndexSkips(line, NUL, 0, |line|);
    assert line[..|line|] == line;
    if crlf {
      assert (line + [CR])[..|line|] == line;
    }
  }

  lemma ParseTakesLine(line: seq<char>, crlf: bool, rest: seq<char>, before: seq<seq<char>>)
    requires Plain(line, crlf)
    ensures Parse(line + Ending(crlf) + rest, before) == Parse(rest, before + [line])
  {
    PlainLineReads(line, crlf, rest);
  }

  /** Plain lines sent with either ending, in whatever pieces, are handled one by one as they were sent. */
  lemma {:induction false} LinesReadBack(lines: seq<seq<char>>, crlf: seq<bool>, before: seq<seq<char>>)
    requires |crlf| == |lines| && forall i | 0 <= i < |lines| :: Plain(lines[i], crlf[i])
    ensures Parse(Wire(lines, crlf), before) == Open([], before + lines)
    decreases |lines|
  {
    if lines == [] {
      assert before + lines == before;
    } else {
      ParseTakesLine(lines[0], crlf[0], Wire(lines[1..], crlf[1..]), before);
      LinesReadBack(lines[1..], crlf[1..], before + [lines[0]]);
      assert before + [lines[0]] + lines[1..] == before + lines;
    }
  }
}
