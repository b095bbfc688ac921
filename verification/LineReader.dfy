/** The cancel-safe line reader: a reader that cuts a byte stream into lines, a
    channel, and a poll that serves the lines in pieces. */
module LineReader {
  import opened Wrappers
  import opened Sequences
  import opened Octets

  const NEWLINE: Byte := 10
  const MAX_LINE_SIZE: nat := 64 * 1024 * 1024

  datatype Failure = TooLong | Io

  /** What a capped read gives and what the reader task sends. */
  datatype Message = Line(bytes: Bytes) | Failed(why: Failure)

  /** How the source ends: cleanly, or with an I/O error. */
  datatype Ending = Eof | Broken

  // ------------------------------------------------------ lines of a stream

  /** Position of the first newline at or after `i`. */
  function NewlineFrom(s: Bytes, i: nat): (r: Option<nat>)
    requires i <= |s|
    ensures r.Some? ==> i <= r.value < |s| && s[r.value] == NEWLINE && forall k :: i <= k < r.value ==> s[k] != NEWLINE
    ensures r.None? ==> forall k :: i <= k < |s| ==> s[k] != NEWLINE
    decreases |s| - i
  {
    if i == |s| then None else if s[i] == NEWLINE then Some(i) else NewlineFrom(s, i + 1)
  }

  function NewlineAt(s: Bytes): (r: Option<nat>)
    ensures r.Some? ==> r.value < |s| && s[r.value] == NEWLINE && forall k :: 0 <= k < r.value ==> s[k] != NEWLINE
    ensures r.None? ==> forall k :: 0 <= k < |s| ==> s[k] != NEWLINE
  {
    NewlineFrom(s, 0)
  }

  /** Length of the first line, with its newline when there is one. */
  function LineEnd(s: Bytes): nat {
    match NewlineAt(s)
    case Some(p) => p + 1
    case None => |s|
  }

  predicate Unbroken(s: Bytes) {
    forall k :: 0 <= k < |s| ==> s[k] != NEWLINE
  }

  /** The message for the first line of the stream `s`. */
  function NextLine(s: Bytes, ending: Ending): Message {
    if LineEnd(s) > MAX_LINE_SIZE then Failed(TooLong)
    else if ending.Broken? && NewlineAt(s).None? then Failed(Io)
    else Line(s[..LineEnd(s)])
  }

  /** All messages for the stream `s`: one line at a time until a failure or the
      end, which reads as an empty line. */
  function Messages(s: Bytes, ending: Ending): seq<Message>
    decreases |s|
  {
    var m := NextLine(s, ending);
    if m.Failed? then [m]
    else if m.bytes == [] then []
    else [m] + Messages(s[|m.bytes|..], ending)
  }

  // ------------------------------------------------------ reader task

  function Flat(chunks: seq<Bytes>): Bytes {
    if chunks == [] then [] else chunks[0] + Flat(chunks[1..])
  }

  /** A buffered source: what `fill_buf` will show, chunk by chunk. */
  class Source {
    var chunks: seq<Bytes>
    const ending: Ending

    constructor (chunks: seq<Bytes>, ending: Ending)
      ensures this.chunks == chunks && this.ending == ending
    {
      this.chunks := chunks;
      this.ending := ending;
    }

    /** An empty chunk would read as the end of the stream. */
    ghost predicate Valid()
      reads this
    {
      forall k :: 0 <= k < |chunks| ==> chunks[k] != []
    }

    ghost function Rest(): Bytes
      reads this
    {
      Flat(chunks)
    }

    /** The bytes now buffered, none at the end of the stream, `None` on an error. */
    method FillBuf() returns (r: Option<Bytes>)
      requires Valid()
      ensures Rest() == [] ==> r == if ending.Broken? then None else Some([])
      ensures Rest() != [] ==> r.Some? && r.value != [] && r.value <= Rest()
      ensures Rest() != [] ==> chunks != [] && r.value == chunks[0]
    {
      if chunks == [] {
        r := if ending.Broken? then None else Some([]);
      } else {
        r := Some(chunks[0]);
      }
    }

    method Consume(n: nat)
      requires Valid() && chunks != [] && n <= |chunks[0]|
      modifies this
      ensures Valid()
      ensures Rest() == old(Rest())[n..]
    {
      ghost var rest := Flat(chunks[1..]);
      Front(chunks);
      Tail(chunks[0][n..], chunks[1..]);
      Split(chunks[0], n);
      Assoc(chunks[0][..n], chunks[0][n..], rest);
      Unsplit(chunks[0][..n], chunks[0][n..] + rest);
      if n == |chunks[0]| {
        EmptyRight(rest);
        assert chunks[0][..n] == chunks[0];
        chunks := chunks[1..];
      } else {
        chunks := [chunks[0][n..]] + chunks[1..];
      }
    }
  }

  lemma NewlineAfter(buf: Bytes, s: Bytes)
    requires Unbroken(buf)
    ensures NewlineAt(buf + s) == match NewlineAt(s) case Some(p) => Some(|buf| + p) case None => None
  {
    match NewlineAt(s)
    case None =>
      assert forall k :: 0 <= k < |buf + s| ==> (buf + s)[k] != NEWLINE;
    case Some(p) =>
      assert (buf + s)[|buf| + p] == NEWLINE;
      assert forall k :: 0 <= k < |buf| + p ==> (buf + s)[k] != NEWLINE;
  }

  lemma NewlineBefore(s: Bytes, rest: Bytes)
    requires NewlineAt(s).Some?
    ensures NewlineAt(s + rest) == NewlineAt(s)
  {
    var p := NewlineAt(s).value;
    assert (s + rest)[p] == NEWLINE;
    assert forall k :: 0 <= k < p ==> (s + rest)[k] != NEWLINE;
  }

  lemma TakenOff(available: Bytes, rest: Bytes, n: nat)
    requires available <= rest && n <= |available|
    ensures rest == available[..n] + rest[n..]
  {
    assert available[..n] == rest[..n];
    Split(rest, n);
  }

  /** Moving `taken` from the stream to the buffer, up to the newline if it has
      one. */
  lemma LineGoesOn(buf: Bytes, taken: Bytes, left: Bytes)
    requires Unbroken(buf) && taken != []
    requires forall k :: 0 <= k < |taken| - 1 ==> taken[k] != NEWLINE
    ensures (buf + taken) + left == buf + (taken + left)
    ensures (buf + (taken + left))[|buf + taken|..] == left
    ensures (buf + (taken + left))[..|buf + taken|] == buf + taken
    ensures taken[|taken| - 1] == NEWLINE ==> NewlineAt(buf + (taken + left)) == Some(|buf + taken| - 1)
    ensures taken[|taken| - 1] != NEWLINE ==> Unbroken(buf + taken) && LineEnd(buf + (taken + left)) >= |buf + taken|
  {
    Assoc(buf, taken, left);
    Unsplit(buf + taken, left);
    if taken[|taken| - 1] == NEWLINE {
      assert NewlineAt(taken) == Some(|taken| - 1);
      NewlineBefore(taken, left);
      NewlineAfter(buf, taken + left);
    } else {
      NewlineAfter(taken, left);
      NewlineAfter(buf, taken + left);
    }
  }

  /** What the bytes `taken` by one turn settle about the line being read. */
  lemma Settled(buf: Bytes, taken: Bytes, left: Bytes, ending: Ending)
    requires Unbroken(buf) && taken != []
    requires forall k :: 0 <= k < |taken| - 1 ==> taken[k] != NEWLINE
    ensures var line, s := buf + taken, buf + (taken + left);
            && line + left == s && s[|line|..] == left
            && (|line| > MAX_LINE_SIZE ==> NextLine(s, ending) == Failed(TooLong))
            && (|line| <= MAX_LINE_SIZE && taken[|taken| - 1] == NEWLINE ==> NextLine(s, ending) == Line(line))
            && (taken[|taken| - 1] != NEWLINE ==> Unbroken(line))
  {
    LineGoesOn(buf, taken, left);
  }

  lemma TakenShape(available: Bytes, n: nat)
    requires available != [] && n == LineEnd(available)
    ensures 0 < n <= |available|
    ensures forall k :: 0 <= k < n - 1 ==> available[..n][k] != NEWLINE
    ensures available[..n][n - 1] == NEWLINE <==> NewlineAt(available).Some?
  {}

  /** Reading one message off the stream `s` gives `m` and, after a line, leaves
      `left`. */
  ghost predicate Reads(s: Bytes, ending: Ending, m: Message, left: Bytes) {
    && m == NextLine(s, ending)
    && (m.Line? ==> |m.bytes| <= |s| && left == s[|m.bytes|..])
  }

  lemma OneFill(buf: Bytes, available: Bytes, rest: Bytes, n: nat, ending: Ending)
    requires Unbroken(buf) && available <= rest && available != [] && n == LineEnd(available)
    ensures n <= |available|
    ensures var line := buf + available[..n];
            && line + rest[n..] == buf + rest
            && (|line| > MAX_LINE_SIZE ==> Reads(buf + rest, ending, Failed(TooLong), rest[n..]))
            && (|line| <= MAX_LINE_SIZE && NewlineAt(available).Some? ==> Reads(buf + rest, ending, Line(line), rest[n..]))
            && (NewlineAt(available).None? ==> n == |available| && Unbroken(line))
  {
    TakenShape(available, n);
    TakenOff(available, rest, n);
    Settled(buf, available[..n], rest[n..], ending);
  }

  lemma NoFill(buf: Bytes, ending: Ending)
    requires Unbroken(buf) && |buf| <= MAX_LINE_SIZE
    ensures Reads(buf + [], ending, if ending.Broken? then Failed(Io) else Line(buf), [])
  {
    EmptyRight(buf);
  }

  lemma AllOf(s: Bytes)
    ensures s[..|s|] == s
  {}

  /** Read one line, growing `buf` by what each fill shows and checking the cap
      after each. */
  method ReadLineCapped(source: Source) returns (r: Message)
    requires source.Valid()
    modifies source
    ensures source.Valid()
    ensures Reads(old(source.Rest()), source.ending, r, source.Rest())
  {
    var buf: Bytes := [];
    ghost var all := source.Rest();
    EmptyRight(all);
    var message := None;
    while message.None?
      invariant source.Valid()
      invariant message.None? ==> buf + source.Rest() == all && Unbroken(buf) && |buf| <= MAX_LINE_SIZE
      invariant message.Some? ==> Reads(all, source.ending, message.value, source.Rest())
      decreases message.None?, |source.Rest()|
    {
      buf, message := FillOnce(source, buf);
    }
    r := message.value;
  }

  /** One turn: take what is on show up to its newline, if it has one. */
  method FillOnce(source: Source, buf: Bytes) returns (longer: Bytes, message: Option<Message>)
    requires source.Valid() && Unbroken(buf) && |buf| <= MAX_LINE_SIZE
    modifies source
    ensures source.Valid()
    ensures message.Some? ==> Reads(buf + old(source.Rest()), source.ending, message.value, source.Rest())
    ensures message.None? ==>
              && longer + source.Rest() == buf + old(source.Rest())
              && Unbroken(longer) && |longer| <= MAX_LINE_SIZE
              && |source.Rest()| < |old(source.Rest())|
  {
    ghost var rest := source.Rest();
    longer := buf;
    var filled := source.FillBuf();
    if filled.None? {
      NoFill(buf, source.ending);
      return longer, Some(Failed(Io));
    }
    var available := filled.value;
    if available == [] {
      NoFill(buf, source.ending);
      return longer, Some(Line(buf));
    }
    OneFill(buf, available, rest, LineEnd(available), source.ending);
    var consumed, done;
    match NewlineAt(available) {
      case Some(pos) =>
        longer, consumed, done := buf + available[..pos + 1], pos + 1, true;
      case None =>
        AllOf(available);
        longer, consumed, done := buf + available, |available|, false;
    }
    source.Consume(consumed);
    if |longer| > MAX_LINE_SIZE {
      message := Some(Failed(TooLong));
    } else if done {
      message := Some(Line(longer));
    } else {
      message := None;
    }
  }

  /** The reader task: send lines until a failure, or until an empty read. */
  method RunReader(source: Source) returns (sent: seq<Message>)
    requires source.Valid()
    modifies source
    ensures sent == Messages(old(source.Rest()), source.ending)
  {
    sent := [];
    ghost var all := Messages(source.Rest(), source.ending);
    EmptyRight(all);
    while true
      invariant source.Valid()
      invariant sent + Messages(source.Rest(), source.ending) == all
      decreases |source.Rest()|
    {
      ghost var rest := source.Rest();
      var line := ReadLineCapped(source);
      match line {
        case Failed(why) =>
          sent := sent + [line];
          return;
        case Line(bytes) =>
          if bytes == [] {
            EmptyRight(sent);
            return;
          }
          Assoc(sent, [line], Messages(source.Rest(), source.ending));
          sent := sent + [line];
      }
    }
  }

  // ------------------------------------------------------ what is sent

  /** The line bytes of `ms` joined. */
  function SentBytes(ms: seq<Message>): Bytes {
    if ms == [] then []
    else (if ms[0].Line? then ms[0].bytes else []) + SentBytes(ms[1..])
  }

  /** A line within the cap whose only newline, if any, is its last byte. */
  predicate IsLine(bytes: Bytes) {
    0 < |bytes| <= MAX_LINE_SIZE && forall k :: 0 <= k < |bytes| - 1 ==> bytes[k] != NEWLINE
  }

  predicate Terminated(bytes: Bytes) {
    bytes != [] && bytes[|bytes| - 1] == NEWLINE
  }

  /** Every message is a whole line, except that the last may be a failure or an
      unterminated line before a clean end. */
  ghost predicate WellSent(ms: seq<Message>, ending: Ending) {
    forall k :: 0 <= k < |ms| ==>
      match ms[k]
      case Failed(_) => k == |ms| - 1
      case Line(bytes) => IsLine(bytes) && (Terminated(bytes) || (k == |ms| - 1 && ending.Eof?))
  }

  lemma {:induction false} SentLineByLine(s: Bytes, ending: Ending)
    ensures WellSent(Messages(s, ending), ending)
    decreases |s|
  {
    var m := NextLine(s, ending);
    if m.Line? && m.bytes != [] {
      var left := s[|m.bytes|..];
      SentLineByLine(left, ending);
      if NewlineAt(s).None? {
        assert left == [];
      }
    }
  }

  /** Nothing is lost or reordered: the lines sent are a prefix of the stream,
      and all of it when the reader task ends without a failure. */
  lemma {:induction false} SentIsStream(s: Bytes, ending: Ending)
    ensures SentBytes(Messages(s, ending)) <= s
    ensures (forall m :: m in Messages(s, ending) ==> m.Line?) ==> SentBytes(Messages(s, ending)) == s
    decreases |s|
  {
    var m := NextLine(s, ending);
    if m.Failed? {
      assert m in Messages(s, ending);
    } else if m.bytes != [] {
      var left := s[|m.bytes|..];
      SentIsStream(left, ending);
      var later := Messages(left, ending);
      Split(s, |m.bytes|);
      Tail(m, later);
      assert forall k :: k in later ==> k in [m] + later;
    }
  }

  /** A line starting at `a` that does not end within the cap. */
  predicate LongLineAt(s: Bytes, a: nat) {
    && a + MAX_LINE_SIZE < |s|
    && (a == 0 || s[a - 1] == NEWLINE)
    && forall k :: a <= k < a + MAX_LINE_SIZE ==> s[k] != NEWLINE
  }

  ghost predicate HasLongLine(s: Bytes) {
    exists a :: LongLineAt(s, a)
  }

  /** A first line within the cap moves the question to the rest. */
  lemma LongLineAfter(s: Bytes, n: nat)
    requires n == LineEnd(s) <= MAX_LINE_SIZE
    ensures HasLongLine(s) <==> HasLongLine(s[n..])
  {
    forall a: nat | LongLineAt(s, a)
      ensures HasLongLine(s[n..])
    {
      if a >= n {
        assert LongLineAt(s[n..], a - n);
      }
    }
    forall a: nat | LongLineAt(s[n..], a)
      ensures HasLongLine(s)
    {
      assert forall k :: a + n <= k < a + n + MAX_LINE_SIZE ==> s[k] == s[n..][k - n];
      assert LongLineAt(s, a + n);
    }
  }

  /** The size error is sent exactly when some line of the stream is over the
      cap, and the source's own error exactly when none is and it ends in one. */
  lemma {:induction false} FailureIff(s: Bytes, ending: Ending)
    ensures Failed(TooLong) in Messages(s, ending) <==> HasLongLine(s)
    ensures Failed(Io) in Messages(s, ending) <==> ending.Broken? && !HasLongLine(s)
    decreases |s|
  {
    var n := LineEnd(s);
    var m := NextLine(s, ending);
    if n > MAX_LINE_SIZE {
      assert LongLineAt(s, 0);
    } else {
      LongLineAfter(s, n);
      if m.Failed? || m.bytes == [] {
        assert s[n..] == [];
        assert !HasLongLine([]);
      } else {
        FailureIff(s[n..], ending);
        var later := Messages(s[n..], ending);
        assert forall x :: x in [m] + later <==> x == m || x in later;
      }
    }
  }

  /** The messages for given lines and an unterminated rest. */
  function AsMessages(lines: seq<Bytes>, last: Bytes): seq<Message> {
    if lines == [] then (if last == [] then [] else [Line(last)])
    else [Line(lines[0])] + AsMessages(lines[1..], last)
  }

  lemma FirstLine(line: Bytes, rest: Bytes)
    requires IsLine(line) && Terminated(line)
    ensures forall ending: Ending :: NextLine(line + rest, ending) == Line(line)
    ensures (line + rest)[|line|..] == rest
  {
    assert NewlineAt(line) == Some(|line| - 1);
    NewlineBefore(line, rest);
    Unsplit(line, rest);
  }

  lemma LastLine(last: Bytes)
    requires Unbroken(last) && |last| <= MAX_LINE_SIZE
    ensures Messages(last, Eof) == AsMessages([], last)
  {
    assert last[..|last|] == last && last[|last|..] == [];
    assert Messages([], Eof) == [];
  }

  /** Whatever comes after them and however the stream ends, whole lines within the
      cap are sent first, one by one. */
  lemma {:induction false} LinesComeFirst(lines: seq<Bytes>, rest: Bytes, ending: Ending)
    requires forall k :: 0 <= k < |lines| ==> IsLine(lines[k]) && Terminated(lines[k])
    ensures Messages(Flat(lines) + rest, ending) == AsMessages(lines, []) + Messages(rest, ending)
  {
    if lines == [] {
      EmptyRight(rest);
      EmptyRight(Messages(rest, ending));
    } else {
      Assoc(lines[0], Flat(lines[1..]), rest);
      FirstLine(lines[0], Flat(lines[1..]) + rest);
      LinesComeFirst(lines[1..], rest, ending);
      Assoc([Line(lines[0])], AsMessages(lines[1..], []), Messages(rest, ending));
    }
  }

  /** Then what is left decides: a line over the cap fails, an unterminated rest
      within it fails with the source or is sent as it is, and nothing ends it. */
  lemma RestDecides(rest: Bytes, ending: Ending)
    ensures LongLineAt(rest, 0) ==> Messages(rest, ending) == [Failed(TooLong)]
    ensures Unbroken(rest) && |rest| <= MAX_LINE_SIZE && ending.Broken? ==> Messages(rest, ending) == [Failed(Io)]
    ensures Unbroken(rest) && |rest| <= MAX_LINE_SIZE && ending.Eof? ==>
              Messages(rest, ending) == if rest == [] then [] else [Line(rest)]
  {
    if Unbroken(rest) && |rest| <= MAX_LINE_SIZE && ending.Eof? {
      LastLine(rest);
    }
  }

  /** Cutting undoes joining, for lines within the cap. */
  lemma {:induction false} CutUndoesJoin(lines: seq<Bytes>, last: Bytes)
    requires forall k :: 0 <= k < |lines| ==> IsLine(lines[k]) && Terminated(lines[k])
    requires Unbroken(last) && |last| <= MAX_LINE_SIZE
    ensures Messages(Flat(lines) + last, Eof) == AsMessages(lines, last)
  {
    if lines == [] {
      EmptyRight(last);
      LastLine(last);
    } else {
      Assoc(lines[0], Flat(lines[1..]), last);
      FirstLine(lines[0], Flat(lines[1..]) + last);
      CutUndoesJoin(lines[1..], last);
    }
  }

  // ------------------------------------------------------ serving

  /** What a reader of the stream sees: bytes, then possibly a failure. */
  datatype Cell = Octet(b: Byte) | Fault(why: Failure)

  function AsCells(bytes: Bytes): (cells: seq<Cell>)
    ensures |cells| == |bytes| && forall k :: 0 <= k < |bytes| ==> cells[k] == Octet(bytes[k])
  {
    seq(|bytes|, (k: nat) requires k < |bytes| => Octet(bytes[k]))
  }

  function CellsOf(m: Message): seq<Cell> {
    match m
    case Line(bytes) => AsCells(bytes)
    case Failed(why) => [Fault(why)]
  }

  function Cells(ms: seq<Message>): seq<Cell> {
    if ms == [] then [] else Cells(ms[..|ms| - 1]) + CellsOf(ms[|ms| - 1])
  }

  /** The result of one poll. */
  datatype Poll = Ready(bytes: Bytes) | Error(why: Failure) | Pending

  function PollCells(p: Poll): seq<Cell> {
    match p
    case Ready(bytes) => AsCells(bytes)
    case Error(why) => [Fault(why)]
    case Pending => []
  }

  lemma CellsJoin(a: Bytes, b: Bytes)
    ensures AsCells(a + b) == AsCells(a) + AsCells(b)
  {}

  /** Serving the bytes `from..to` of a line leaves the bytes after `to`. */
  lemma ServePart(line: Bytes, from: nat, to: nat, rest: seq<Cell>)
    requires from <= to <= |line|
    ensures AsCells(line[from..to]) + (AsCells(line[to..]) + rest) == AsCells(line[from..]) + rest
  {
    assert line[from..] == line[from..to] + line[to..];
    CellsJoin(line[from..to], line[to..]);
    Assoc(AsCells(line[from..to]), AsCells(line[to..]), rest);
  }

  lemma CellsOne(m: Message)
    ensures Cells([m]) == CellsOf(m)
  {
    EmptyRight(CellsOf(m));
    assert [m][..0] == [];
  }

  lemma {:induction false} CellsFront(m: Message, ms: seq<Message>)
    ensures Cells([m] + ms) == CellsOf(m) + Cells(ms)
  {
    if ms == [] {
      EmptyRight([m]);
      CellsOne(m);
      EmptyRight(CellsOf(m));
    } else {
      var init, last := ms[..|ms| - 1], CellsOf(ms[|ms| - 1]);
      CellsFront(m, init);
      ConcatLast([m], ms);
      Assoc(CellsOf(m), Cells(init), last);
    }
  }

  /** The reader's end of the channel: the line being served and the messages
      that have arrived. */
  class LineBufferedRead {
    var buf: Bytes
    var pos: nat
    var rx: seq<Message>
    var closed: bool

    constructor ()
      ensures Valid() && Held() == [] && rx == [] && !closed
    {
      buf, pos, rx, closed := [], 0, [], false;
    }

    ghost predicate Valid()
      reads this
    {
      pos <= |buf|
    }

    /** The bytes of the current line not served yet. */
    ghost function Stash(): Bytes
      requires Valid()
      reads this
    {
      buf[pos..]
    }

    /** Everything that has arrived and not been delivered. */
    ghost function Held(): seq<Cell>
      requires Valid()
      reads this
    {
      AsCells(Stash()) + Cells(rx)
    }

    /** Deliver at most `room` bytes, from one line. */
    method PollRead(room: nat) returns (r: Poll)
      requires Valid()
      modifies this
      ensures Valid() && closed == old(closed)
      ensures PollCells(r) + Held() == old(Held())
      ensures r.Pending? <==> old(Stash() == [] && rx == [] && !closed)
      ensures old(Stash() != []) ==> r.Ready? && |r.bytes| == if room < |old(Stash())| then room else |old(Stash())|
      ensures r.Ready? ==> |r.bytes| <= room
      ensures r.Ready? && r.bytes == [] && room > 0 ==>
                old(Stash() == []) && (old(rx == [] && closed) || old(rx != [] && rx[0] == Line([])))
      ensures rx == old(rx) || (old(Stash() == [] && rx != []) && rx == old(rx)[1..])
    {
      if pos < |buf| {
        r := ServeStash(room);
        return;
      }
      EmptyRight(Cells(rx));
      if rx == [] {
        return if closed then Ready([]) else Pending;
      }
      r := Receive(room);
    }

    method ServeStash(room: nat) returns (r: Poll)
      requires Valid() && pos < |buf|
      modifies this`buf, this`pos
      ensures Valid()
      ensures PollCells(r) + Held() == old(Held())
      ensures r.Ready? && |r.bytes| == if room < |old(Stash())| then room else |old(Stash())|
    {
      var avail := |buf| - pos;
      var n := if avail < room then avail else room;
      r := Ready(buf[pos..pos + n]);
      ServePart(buf, pos, pos + n, Cells(rx));
      pos := pos + n;
      if pos >= |buf| {
        Clear();
      }
    }

    /** Forget a line that has been served. */
    method Clear()
      requires pos == |buf|
      modifies this`buf, this`pos
      ensures Valid() && Held() == old(Held())
    {
      buf, pos := [], 0;
    }

    /** Take the next message and serve its start, keeping what does not fit. */
    method Receive(room: nat) returns (r: Poll)
      requires Valid() && Stash() == [] && rx != []
      modifies this
      ensures Valid() && closed == old(closed) && rx == old(rx)[1..]
      ensures PollCells(r) + Held() == old(Cells(rx))
      ensures !r.Pending?
      ensures r.Ready? ==> |r.bytes| <= room
      ensures r.Ready? && r.bytes == [] && room > 0 ==> old(rx)[0] == Line([])
    {
      var message := rx[0];
      CellsFront(message, rx[1..]);
      Front(rx);
      rx := rx[1..];
      EmptyRight(Cells(rx));
      match message {
        case Failed(why) =>
          r := Error(why);
        case Line(line) =>
          var n := if |line| < room then |line| else room;
          r := Ready(line[..n]);
          ServePart(line, 0, n, Cells(rx));
          if n < |line| {
            buf, pos := line, n;
          }
      }
    }
  }

  /** One thing that can happen next: the reader task sends (or, with nothing left,
      drops its end), or the consumer polls. */
  datatype Event = Arrive | Ask(room: nat)

  datatype Reply = Reply(room: nat, result: Poll)

  function Delivered(log: seq<Reply>): seq<Cell> {
    if log == [] then [] else Delivered(log[..|log| - 1]) + PollCells(log[|log| - 1].result)
  }

  ghost predicate BetweenMessages(cells: seq<Cell>, messages: seq<Message>) {
    exists j: nat :: j <= |messages| && cells == Cells(messages[..j])
  }

  /** Reply `k` is `Pending` only between messages, and reports the end only
      when everything has been delivered. */
  ghost predicate HonestAt(log: seq<Reply>, k: nat, messages: seq<Message>)
    requires k < |log|
  {
    && (log[k].result.Pending? ==> BetweenMessages(Delivered(log[..k]), messages))
    && (log[k].result == Ready([]) && log[k].room > 0 ==> Delivered(log[..k]) == Cells(messages))
  }

  ghost predicate Honest(log: seq<Reply>, messages: seq<Message>) {
    forall k :: 0 <= k < |log| ==> HonestAt(log, k, messages)
  }

  lemma HonestGrows(log: seq<Reply>, r: Reply, messages: seq<Message>)
    requires Honest(log, messages)
    requires r.result.Pending? ==> BetweenMessages(Delivered(log), messages)
    requires r.result == Ready([]) && r.room > 0 ==> Delivered(log) == Cells(messages)
    ensures Honest(log + [r], messages)
    ensures Delivered(log + [r]) == Delivered(log) + PollCells(r.result)
  {
    SnocLast(log, r);
    forall k | 0 <= k < |log + [r]|
      ensures HonestAt(log + [r], k, messages)
    {
      if k < |log| {
        assert HonestAt(log, k, messages);
        assert (log + [r])[..k] == log[..k];
      }
    }
  }

  /** What every moment of a run keeps. */
  ghost predicate Conserved(log: seq<Reply>, held: seq<Cell>, messages: seq<Message>, next: nat) {
    next <= |messages| && Delivered(log) + held == Cells(messages[..next])
  }

  ghost predicate NoEmptyLine(ms: seq<Message>) {
    forall k :: 0 <= k < |ms| ==> ms[k] != Line([])
  }

  /** Any interleaving of sends and polls, with any poll sizes. */
  method Serve(messages: seq<Message>, events: seq<Event>) returns (log: seq<Reply>, link: LineBufferedRead, next: nat)
    requires NoEmptyLine(messages)
    ensures link.Valid() && Conserved(log, link.Held(), messages, next)
    ensures Honest(log, messages)
  {
    link := new LineBufferedRead();
    log, next := [], 0;
    for e := 0 to |events|
      invariant fresh(link) && link.Valid()
      invariant Conserved(log, link.Held(), messages, next)
      invariant NoEmptyLine(link.rx)
      invariant link.closed ==> next == |messages|
      invariant Honest(log, messages)
    {
      match events[e] {
        case Arrive =>
          next := SendNext(messages, next, link, log);
        case Ask(room) =>
          log := PollOnce(messages, next, link, log, room);
      }
    }
  }

  method SendNext(messages: seq<Message>, next: nat, link: LineBufferedRead, ghost log: seq<Reply>) returns (after: nat)
    requires link.Valid() && Conserved(log, link.Held(), messages, next)
    requires NoEmptyLine(messages) && NoEmptyLine(link.rx)
    modifies link
    ensures link.Valid() && Conserved(log, link.Held(), messages, after)
    ensures NoEmptyLine(link.rx)
    ensures link.closed ==> after == |messages| || old(link.closed)
    ensures next <= after
  {
    if next == |messages| {
      link.closed := true;
      return next;
    }
    var m := messages[next];
    SnocLast(link.rx, m);
    Grow(messages, next);
    SnocLast(messages[..next], m);
    Assoc(AsCells(link.Stash()), Cells(link.rx), CellsOf(m));
    Assoc(Delivered(log), link.Held(), CellsOf(m));
    link.rx := link.rx + [m];
    after := next + 1;
  }

  method PollOnce(messages: seq<Message>, next: nat, link: LineBufferedRead, log: seq<Reply>, room: nat)
    returns (longer: seq<Reply>)
    requires link.Valid() && Conserved(log, link.Held(), messages, next)
    requires NoEmptyLine(link.rx)
    requires link.closed ==> next == |messages|
    requires Honest(log, messages)
    modifies link
    ensures link.Valid() && Conserved(longer, link.Held(), messages, next)
    ensures NoEmptyLine(link.rx)
    ensures link.closed == old(link.closed)
    ensures Honest(longer, messages)
  {
    ghost var held := link.Held();
    EmptyRight(Delivered(log));
    var r := link.PollRead(room);
    Assoc(Delivered(log), PollCells(r), link.Held());
    assert messages[..|messages|] == messages;
    HonestGrows(log, Reply(room, r), messages);
    longer := log + [Reply(room, r)];
  }

  // ------------------------------------------------------ end to end

  /** How a stream's messages end. */
  ghost function Faults(s: Bytes, ending: Ending): seq<Cell> {
    if HasLongLine(s) then [Fault(TooLong)] else if ending.Broken? then [Fault(Io)] else []
  }

  /** All that a consumer of the stream is to get: the lines, then the failure. */
  ghost function Whole(s: Bytes, ending: Ending): seq<Cell> {
    AsCells(SentBytes(Messages(s, ending))) + Faults(s, ending)
  }

  lemma {:induction false} CellsOfStream(s: Bytes, ending: Ending)
    ensures Cells(Messages(s, ending)) == AsCells(SentBytes(Messages(s, ending))) + Faults(s, ending)
    decreases |s|
  {
    var m := NextLine(s, ending);
    FailureIff(s, ending);
    if m.Failed? || m.bytes == [] {
      assert Messages(s, ending) == if m.Failed? then [m] else [];
    } else {
      var left := s[|m.bytes|..];
      var later := Messages(left, ending);
      LongLineAfter(s, |m.bytes|);
      CellsOfStream(left, ending);
      CellsFront(m, later);
      Tail(m, later);
      CellsJoin(m.bytes, SentBytes(later));
      Assoc(AsCells(m.bytes), AsCells(SentBytes(later)), Faults(left, ending));
    }
  }

  /** Between messages the consumer is at the start, just after a newline, or at
      the very end. */
  lemma BetweenLines(messages: seq<Message>, ending: Ending, j: nat)
    requires WellSent(messages, ending) && 0 < j < |messages|
    ensures Cells(messages[..j]) != []
    ensures Cells(messages[..j])[|Cells(messages[..j])| - 1] == Octet(NEWLINE)
  {
    assert messages[..j][..j - 1] == messages[..j - 1];
    assert messages[..j][j - 1] == messages[j - 1];
  }

  /** What the consumer should have had when told of the end. */
  ghost predicate CompleteAt(log: seq<Reply>, k: nat, s: Bytes, ending: Ending)
    requires k < |log|
  {
    log[k].result == Ready([]) && log[k].room > 0 ==>
      && Delivered(log[..k]) == Whole(s, ending)
      && (ending.Eof? && !HasLongLine(s) ==> Delivered(log[..k]) == AsCells(s))
  }

  lemma WholeStream(s: Bytes, ending: Ending)
    requires ending.Eof? && !HasLongLine(s)
    ensures Whole(s, ending) == AsCells(s)
  {
    FailureIff(s, ending);
    NoFailure(Messages(s, ending));
    SentIsStream(s, ending);
    EmptyRight(AsCells(s));
  }

  ghost predicate Complete(log: seq<Reply>, s: Bytes, ending: Ending) {
    forall k :: 0 <= k < |log| ==> CompleteAt(log, k, s, ending)
  }

  lemma HonestIsComplete(log: seq<Reply>, messages: seq<Message>, s: Bytes, ending: Ending)
    requires Honest(log, messages) && Cells(messages) == Whole(s, ending)
    ensures Complete(log, s, ending)
  {
    if ending.Eof? && !HasLongLine(s) {
      WholeStream(s, ending);
    }
    forall k | 0 <= k < |log|
      ensures CompleteAt(log, k, s, ending)
    {
      assert HonestAt(log, k, messages);
    }
  }

  lemma NothingEmptySent(s: Bytes, ending: Ending)
    ensures NoEmptyLine(Messages(s, ending))
  {
    SentLineByLine(s, ending);
  }

  /** Source to consumer: however the stream is chunked, sent and polled, a
      consumer told of the end has the lines of the stream and the failure, and
      the whole stream when there is none. */
  method ReadThrough(source: Source, events: seq<Event>) returns (log: seq<Reply>)
    requires source.Valid()
    modifies source
    ensures Complete(log, old(source.Rest()), source.ending)
  {
    ghost var s := source.Rest();
    var messages := RunReader(source);
    NothingEmptySent(s, source.ending);
    var link, next;
    log, link, next := Serve(messages, events);
    CellsOfStream(s, source.ending);
    HonestIsComplete(log, messages, s, source.ending);
  }

  lemma NoFailure(ms: seq<Message>)
    requires Failed(TooLong) !in ms && Failed(Io) !in ms
    ensures forall m :: m in ms ==> m.Line?
  {
    forall m | m in ms
      ensures m.Line?
    {
      match m {
        case Line(_) =>
        case Failed(TooLong) =>
        case Failed(Io) =>
      }
    }
  }
}
