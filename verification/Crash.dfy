/** Little-endian integers. */
module LittleEndian {
  import opened Octets

  function Pow256(n: nat): nat {
    if n == 0 then 1 else 256 * Pow256(n - 1)
  }

  /** The low `width` bytes of `n`, lowest first. */
  function ToLE(n: nat, width: nat): (bytes: Bytes)
    ensures |bytes| == width
  {
    if width == 0 then [] else [(n % 256) as Byte] + ToLE(n / 256, width - 1)
  }

  function FromLE(bytes: Bytes): (n: nat)
    ensures n < Pow256(|bytes|)
  {
    if bytes == [] then 0 else bytes[0] as nat + 256 * FromLE(bytes[1..])
  }

  lemma {:induction false} LERoundTrip(n: nat, width: nat)
    requires n < Pow256(width)
    ensures FromLE(ToLE(n, width)) == n
  {
    if width > 0 {
      LERoundTrip(n / 256, width - 1);
    }
  }

  /** The other way: bytes are the little-endian form of the number they read as. */
  lemma {:induction false} BytesRoundTrip(bytes: Bytes)
    ensures ToLE(FromLE(bytes), |bytes|) == bytes
  {
    if bytes != [] {
      BytesRoundTrip(bytes[1..]);
      assert FromLE(bytes) % 256 == bytes[0] as nat && FromLE(bytes) / 256 == FromLE(bytes[1..]);
      assert bytes == [bytes[0]] + bytes[1..];
    }
  }

  lemma Widths()
    ensures Pow256(2) == 0x1_0000 && Pow256(4) == 0x1_0000_0000 && Pow256(8) == 0x1_0000_0000_0000_0000
  {
    assert Pow256(1) == 256 * Pow256(0);
    assert Pow256(3) == 256 * Pow256(2);
    assert Pow256(5) == 256 * Pow256(4);
    assert Pow256(7) == 256 * Pow256(6);
  }

  /** Two's complement in 32 bits. */
  function Unsigned32(i: int): nat
    requires -0x8000_0000 <= i < 0x8000_0000
  {
    if i < 0 then i + 0x1_0000_0000 else i
  }

  function Signed32(n: nat): int {
    if n < 0x8000_0000 then n else n - 0x1_0000_0000
  }
}

/** Well-formed UTF-8 (RFC 3629, section 4), and strings padded with NUL. */
module Utf8Bytes {
  import opened Sequences
  import Utf8
  import opened Octets

  predicate Tail(b: Byte) {
    0x80 <= b <= 0xBF
  }

  /** Length of the well-formed character at the front, 0 when there is none. */
  function FirstChar(s: Bytes): (n: nat)
    requires s != []
    ensures n <= |s|
  {
    var b := s[0];
    if b <= 0x7F then 1
    else if 0xC2 <= b <= 0xDF then (if |s| >= 2 && Tail(s[1]) then 2 else 0)
    else if 0xE0 <= b <= 0xEF then (if |s| >= 3 && SecondOfThree(b, s[1]) && Tail(s[2]) then 3 else 0)
    else if 0xF0 <= b <= 0xF4 then (if |s| >= 4 && SecondOfFour(b, s[1]) && Tail(s[2]) && Tail(s[3]) then 4 else 0)
    else 0
  }

  /** The bytes of a character. */
  function Encode(c: char): Bytes {
    var v := c as int;
    if v < 0x80 then [v as Byte]
    else if v < 0x800 then [(0xC0 + v / 64) as Byte, (0x80 + v % 64) as Byte]
    else if v < 0x1_0000 then [(0xE0 + v / 4096) as Byte, (0x80 + v / 64 % 64) as Byte, (0x80 + v % 64) as Byte]
    else [(0xF0 + v / 262144) as Byte, (0x80 + v / 4096 % 64) as Byte, (0x80 + v / 64 % 64) as Byte, (0x80 + v % 64) as Byte]
  }

  /** Its length is the one that byte lengths count, and it is one well-formed
      character: neither overlong nor cut short. */
  lemma EncodedLength(c: char)
    ensures |Encode(c)| == Utf8.Utf8Len(c) && FirstChar(Encode(c)) == |Encode(c)|
  {}

  predicate SecondOfThree(b: Byte, c: Byte) {
    if b == 0xE0 then 0xA0 <= c <= 0xBF else if b == 0xED then 0x80 <= c <= 0x9F else Tail(c)
  }

  predicate SecondOfFour(b: Byte, c: Byte) {
    if b == 0xF0 then 0x90 <= c <= 0xBF else if b == 0xF4 then 0x80 <= c <= 0x8F else Tail(c)
  }

  predicate WellFormed(s: Bytes) {
    s == [] || (FirstChar(s) > 0 && WellFormed(s[FirstChar(s)..]))
  }

  function Zeros(n: nat): (z: Bytes)
    ensures |z| == n && forall k :: 0 <= k < n ==> z[k] == 0
  {
    if n == 0 then [] else [0] + Zeros(n - 1)
  }

  function TrimNul(s: Bytes): (t: Bytes)
    ensures t <= s
    ensures t != [] ==> t[|t| - 1] != 0
    ensures forall k :: |t| <= k < |s| ==> s[k] == 0
  {
    if s != [] && s[|s| - 1] == 0 then TrimNul(s[..|s| - 1]) else s
  }

  lemma {:induction false} ZerosWellFormed(n: nat)
    ensures WellFormed(Zeros(n))
  {
    if n > 0 {
      ZerosWellFormed(n - 1);
      Sequences.Tail(0, Zeros(n - 1));
    }
  }

  /** NUL is never the rest of a longer character. */
  lemma FirstCharPadded(s: Bytes, n: nat)
    requires s != []
    ensures FirstChar(s + Zeros(n)) == FirstChar(s)
  {
    var p := s + Zeros(n);
    assert forall k :: 0 <= k < |p| ==> p[k] == if k < |s| then s[k] else 0;
  }

  /** Padding does not change whether a string is well-formed. */
  lemma {:induction false} WellFormedPadded(s: Bytes, n: nat)
    ensures WellFormed(s + Zeros(n)) == WellFormed(s)
    decreases |s|
  {
    if s == [] {
      EmptyRight(Zeros(n));
      ZerosWellFormed(n);
    } else {
      FirstCharPadded(s, n);
      var k := FirstChar(s);
      if k > 0 {
        assert (s + Zeros(n))[k..] == s[k..] + Zeros(n);
        WellFormedPadded(s[k..], n);
      }
    }
  }

  lemma {:induction false} TrimPadded(s: Bytes, n: nat)
    ensures TrimNul(s + Zeros(n)) == TrimNul(s)
    decreases n
  {
    if n == 0 {
      EmptyRight(s);
    } else {
      var p := s + Zeros(n);
      assert p[|p| - 1] == 0;
      assert p[..|p| - 1] == s + Zeros(n - 1);
      TrimPadded(s, n - 1);
    }
  }
}

/** The binary crash blob: a fixed header, then return addresses. */
module CrashFormat {
  import opened Wrappers
  import opened Octets
  import opened LittleEndian
  import opened Utf8Bytes

  const MAGIC: Bytes := [0x47, 0x43, 0x52, 0x58]
  const VERSION: Byte := 1
  const MAX_FRAMES: nat := 64
  const VERSION_STRING_LEN: nat := 32
  const HEADER_SIZE: nat := 4 + 1 + 1 + 4 + 8 + 4 + 8 + 2 + VERSION_STRING_LEN
  const MAX_FILE_SIZE: nat := HEADER_SIZE + MAX_FRAMES * 8

  /** What the header says besides the number of frames. */
  datatype Fields = Fields(signal: Byte, siCode: int, siAddr: nat, pid: nat, timestamp: nat, version: Bytes)

  datatype CrashBlob = CrashBlob(signal: Byte, siCode: int, siAddr: nat, pid: nat, timestamp: nat, frames: seq<nat>, appVersion: Bytes)

  const U64: nat := 0x1_0000_0000_0000_0000

  /** Values within their field widths. */
  predicate InRange(f: Fields) {
    && -0x8000_0000 <= f.siCode < 0x8000_0000
    && f.siAddr < U64 && f.pid < 0x1_0000_0000 && f.timestamp < U64
  }

  predicate Addresses(frames: seq<nat>) {
    forall k :: 0 <= k < |frames| ==> frames[k] < U64
  }

  /** The version field: cut or padded to its length. */
  function VersionField(version: Bytes): (field: Bytes)
    ensures |field| == VERSION_STRING_LEN
  {
    if |version| >= VERSION_STRING_LEN then version[..VERSION_STRING_LEN]
    else version + Zeros(VERSION_STRING_LEN - |version|)
  }

  /** The version read back from its field. */
  function VersionOf(field: Bytes): Bytes {
    TrimNul(if WellFormed(field) then field else [])
  }

  /** `data` starts with the header of `f` for `count` frames. */
  ghost predicate HeaderOf(data: Bytes, f: Fields, count: nat)
    requires InRange(f)
  {
    && |data| >= HEADER_SIZE
    && data[0..4] == MAGIC && data[4] == VERSION && data[5] == f.signal
    && data[6..10] == ToLE(Unsigned32(f.siCode), 4)
    && data[10..18] == ToLE(f.siAddr, 8)
    && data[18..22] == ToLE(f.pid, 4)
    && data[22..30] == ToLE(f.timestamp, 8)
    && data[30..32] == ToLE(count, 2)
    && data[32..64] == VersionField(f.version)
  }

  /** `data` has the frames after the header. */
  ghost predicate FramesIn(data: Bytes, frames: seq<nat>) {
    && |data| >= HEADER_SIZE + 8 * |frames|
    && forall k :: 0 <= k < |frames| ==> FrameAt(data, k, frames[k])
  }

  ghost predicate FrameAt(data: Bytes, k: nat, addr: nat) {
    |data| >= HEADER_SIZE + 8 * k + 8 && data[HEADER_SIZE + 8 * k..HEADER_SIZE + 8 * k + 8] == ToLE(addr, 8)
  }

  // ------------------------------------------------------ parsing

  /** The first `n` frames. */
  function Frames(data: Bytes, n: nat): (frames: seq<nat>)
    requires |data| >= HEADER_SIZE + 8 * n
    ensures |frames| == n
  {
    if n == 0 then []
    else Frames(data, n - 1) + [FromLE(data[HEADER_SIZE + 8 * (n - 1)..HEADER_SIZE + 8 * (n - 1) + 8])]
  }

  function Parse(data: Bytes): Option<CrashBlob> {
    if |data| < HEADER_SIZE || data[0..4] != MAGIC || data[4] != VERSION then None
    else
      var n := FromLE(data[30..32]);
      if n > MAX_FRAMES || |data| < HEADER_SIZE + 8 * n then None
      else Some(CrashBlob(data[5], Signed32(FromLE(data[6..10])), FromLE(data[10..18]), FromLE(data[18..22]),
                          FromLE(data[22..30]), Frames(data, n), VersionOf(data[32..64])))
  }

  /** The parser, reading the frames in a loop. */
  method ParseBlob(data: Bytes) returns (r: Option<CrashBlob>)
    ensures r == Parse(data)
  {
    if |data| < HEADER_SIZE || data[0..4] != MAGIC || data[4] != VERSION {
      return None;
    }
    var n := FromLE(data[30..32]);
    if n > MAX_FRAMES {
      return None;
    }
    var end := HEADER_SIZE + n * 8;
    if |data| < end {
      return None;
    }
    var frames: seq<nat> := [];
    for i := 0 to n
      invariant frames == Frames(data, i)
    {
      var offset := HEADER_SIZE + i * 8;
      frames := frames + [FromLE(data[offset..offset + 8])];
    }
    r := Some(CrashBlob(data[5], Signed32(FromLE(data[6..10])), FromLE(data[10..18]), FromLE(data[18..22]),
                        FromLE(data[22..30]), frames, VersionOf(data[32..64])));
  }

  function BlobOf(f: Fields, frames: seq<nat>): CrashBlob {
    CrashBlob(f.signal, f.siCode, f.siAddr, f.pid, f.timestamp, frames, VersionOf(VersionField(f.version)))
  }

  lemma {:induction false} FramesRead(data: Bytes, frames: seq<nat>)
    requires FramesIn(data, frames) && Addresses(frames)
    ensures Frames(data, |frames|) == frames
  {
    if frames != [] {
      var last := |frames| - 1;
      assert FrameAt(data, last, frames[last]);
      forall k | 0 <= k < last
        ensures FrameAt(data, k, frames[..last][k])
      {
        assert FrameAt(data, k, frames[k]);
      }
      FramesRead(data, frames[..last]);
      Widths();
      LERoundTrip(frames[last], 8);
    }
  }

  /** Round trip: whatever follows, written data reads back field by field. */
  lemma ParseWritten(data: Bytes, f: Fields, frames: seq<nat>)
    requires InRange(f) && Addresses(frames) && |frames| <= MAX_FRAMES
    requires HeaderOf(data, f, |frames|) && FramesIn(data, frames)
    ensures Parse(data) == Some(BlobOf(f, frames))
  {
    Widths();
    LERoundTrip(Unsigned32(f.siCode), 4);
    LERoundTrip(f.siAddr, 8);
    LERoundTrip(f.pid, 4);
    LERoundTrip(f.timestamp, 8);
    LERoundTrip(|frames|, 2);
    FramesRead(data, frames);
  }

  lemma {:induction false} FramesWritten(data: Bytes, n: nat)
    requires |data| >= HEADER_SIZE + 8 * n
    ensures FramesIn(data, Frames(data, n)) && Addresses(Frames(data, n))
  {
    if n > 0 {
      var last := n - 1;
      FramesWritten(data, last);
      BytesRoundTrip(data[HEADER_SIZE + 8 * last..HEADER_SIZE + 8 * last + 8]);
      Widths();
      forall k | 0 <= k < n
        ensures FrameAt(data, k, Frames(data, n)[k])
      {
        assert k < last ==> FrameAt(data, k, Frames(data, last)[k]);
      }
    }
  }

  lemma SignRoundTrip(n: nat)
    requires n < 0x1_0000_0000
    ensures -0x8000_0000 <= Signed32(n) < 0x8000_0000 && Unsigned32(Signed32(n)) == n
  {}

  /** The fields that the header of `data` holds. */
  function FieldsOf(data: Bytes): (f: Fields)
    requires |data| >= HEADER_SIZE
  {
    Fields(data[5], Signed32(FromLE(data[6..10])), FromLE(data[10..18]), FromLE(data[18..22]), FromLE(data[22..30]), data[32..64])
  }

  lemma HeaderRead(data: Bytes)
    requires |data| >= HEADER_SIZE && data[0..4] == MAGIC && data[4] == VERSION
    ensures InRange(FieldsOf(data)) && HeaderOf(data, FieldsOf(data), FromLE(data[30..32]))
  {
    Widths();
    SignRoundTrip(FromLE(data[6..10]));
    BytesRoundTrip(data[6..10]);
    BytesRoundTrip(data[10..18]);
    BytesRoundTrip(data[18..22]);
    BytesRoundTrip(data[22..30]);
    BytesRoundTrip(data[30..32]);
    assert data[32..64][..32] == data[32..64];
  }

  /** `data` begins with the blob that the writer makes of `f` and `frames`. */
  ghost predicate Written(data: Bytes, f: Fields, frames: seq<nat>) {
    && InRange(f) && Addresses(frames) && |frames| <= MAX_FRAMES
    && HeaderOf(data, f, |frames|) && FramesIn(data, frames)
  }

  /** The parser accepts exactly what begins with something the writer makes. */
  lemma ParsesIffWritten(data: Bytes)
    ensures Parse(data).Some? <==> exists f, frames :: Written(data, f, frames)
  {
    if Parse(data).Some? {
      var n := FromLE(data[30..32]);
      HeaderRead(data);
      FramesWritten(data, n);
      assert Written(data, FieldsOf(data), Frames(data, n));
    }
    if f, frames :| Written(data, f, frames) {
      ParseWritten(data, f, frames);
    }
  }

  /** A well-formed version reads back as it was exactly when it fits the field
      and does not end in NUL. */
  lemma VersionReadsBackIff(version: Bytes)
    requires WellFormed(version)
    ensures VersionOf(VersionField(version)) == version <==>
            |version| <= VERSION_STRING_LEN && (version == [] || version[|version| - 1] != 0)
  {
    if |version| < VERSION_STRING_LEN {
      var pad := VERSION_STRING_LEN - |version|;
      WellFormedPadded(version, pad);
      TrimPadded(version, pad);
    } else {
      assert version[..|version|] == version;
    }
  }

  // ------------------------------------------------------ writing

  /** `data` with `bytes` written at `at`: everything before and after stays. */
  ghost function Put(data: Bytes, at: nat, bytes: Bytes): (put: Bytes)
    requires at + |bytes| <= |data|
    ensures |put| == |data|
    ensures put[at..at + |bytes|] == bytes
    ensures forall k :: 0 <= k < |data| && !(at <= k < at + |bytes|) ==> put[k] == data[k]
    ensures forall i, j :: 0 <= i <= j <= at ==> put[i..j] == data[i..j]
  {
    data[..at] + bytes + data[at + |bytes|..]
  }

  method CopyInto(buf: array<Byte>, at: nat, bytes: Bytes)
    requires at + |bytes| <= buf.Length
    modifies buf
    ensures buf[..] == Put(old(buf[..]), at, bytes)
  {
    for i := 0 to |bytes|
      invariant forall k :: 0 <= k < i ==> buf[at + k] == bytes[k]
      invariant forall k :: 0 <= k < buf.Length && !(at <= k < at + i) ==> buf[k] == old(buf[k])
    {
      buf[at + i] := bytes[i];
    }
    ghost var put := Put(old(buf[..]), at, bytes);
    assert forall k :: at <= k < at + |bytes| ==> put[k] == put[at..at + |bytes|][k - at];
    assert forall k :: at <= k < at + |bytes| ==> buf[k] == bytes[k - at];
  }

  /** The numeric fields, written in order. */
  ghost function PutNumbers(data: Bytes, f: Fields, count: nat): (put: Bytes)
    requires |data| >= HEADER_SIZE && InRange(f)
    ensures |put| == |data|
  {
    var d1 := Put(Put(Put(data, 0, MAGIC), 4, [VERSION]), 5, [f.signal]);
    var d2 := Put(Put(d1, 6, ToLE(Unsigned32(f.siCode), 4)), 10, ToLE(f.siAddr, 8));
    var d3 := Put(Put(d2, 18, ToLE(f.pid, 4)), 22, ToLE(f.timestamp, 8));
    Put(d3, 30, ToLE(count, 2))
  }

  /** The version field, cleared and then written. */
  ghost function PutVersion(data: Bytes, version: Bytes): (put: Bytes)
    requires |data| >= HEADER_SIZE
    ensures |put| == |data|
  {
    Put(Put(data, 32, Zeros(VERSION_STRING_LEN)), 32,
        version[..if |version| < VERSION_STRING_LEN then |version| else VERSION_STRING_LEN])
  }

  lemma VersionPut(data: Bytes, version: Bytes)
    requires |data| >= HEADER_SIZE
    ensures PutVersion(data, version)[32..64] == VersionField(version)
  {
    var n := if |version| < VERSION_STRING_LEN then |version| else VERSION_STRING_LEN;
    var cleared := Put(data, 32, Zeros(VERSION_STRING_LEN));
    var put := PutVersion(data, version);
    forall k | 0 <= k < VERSION_STRING_LEN
      ensures put[32..64][k] == VersionField(version)[k]
    {
      if k < n {
        assert put[32..32 + n][k] == version[k];
      } else {
        assert cleared[32..64][k] == 0;
      }
    }
  }

  lemma HeaderPut(data: Bytes, f: Fields, count: nat)
    requires |data| >= HEADER_SIZE && InRange(f)
    ensures HeaderOf(PutVersion(PutNumbers(data, f, count), f.version), f, count)
  {
    VersionPut(PutNumbers(data, f, count), f.version);
  }

  /** Write the header at the front of `buf`. */
  method WriteHeader(buf: array<Byte>, f: Fields, count: nat) returns (offset: nat)
    requires buf.Length >= HEADER_SIZE && InRange(f)
    modifies buf
    ensures offset == HEADER_SIZE && HeaderOf(buf[..], f, count)
  {
    ghost var data := buf[..];
    CopyInto(buf, 0, MAGIC);
    CopyInto(buf, 4, [VERSION]);
    CopyInto(buf, 5, [f.signal]);
    CopyInto(buf, 6, ToLE(Unsigned32(f.siCode), 4));
    CopyInto(buf, 10, ToLE(f.siAddr, 8));
    CopyInto(buf, 18, ToLE(f.pid, 4));
    CopyInto(buf, 22, ToLE(f.timestamp, 8));
    CopyInto(buf, 30, ToLE(count, 2));
    CopyInto(buf, 32, Zeros(VERSION_STRING_LEN));
    CopyInto(buf, 32, f.version[..if |f.version| < VERSION_STRING_LEN then |f.version| else VERSION_STRING_LEN]);
    HeaderPut(data, f, count);
    offset := 32 + VERSION_STRING_LEN;
  }

  /** Write one return address at `offset`. */
  method WriteFrame(buf: array<Byte>, offset: nat, addr: nat) returns (next: nat)
    requires offset + 8 <= buf.Length
    modifies buf
    ensures next == offset + 8
    ensures buf[..] == Put(old(buf[..]), offset, ToLE(addr, 8))
  {
    CopyInto(buf, offset, ToLE(addr, 8));
    next := offset + 8;
  }
}

/** The signal handler: the crash address is on disk before the stack is walked. */
module CrashHandler {
  import opened Wrappers
  import opened Sequences
  import opened Octets
  import opened LittleEndian
  import opened CrashFormat

  const PAGE: nat := 4096
  const WORD: nat := 8

  /** Readable words; reading any other address faults and ends the process. */
  type Memory = map<nat, nat>

  // ------------------------------------------------------ the walk

  datatype Walked = Walked(frames: seq<nat>, faulted: bool)

  /** Up to `max` return addresses along the chain of frame pointers. */
  function Walk(mem: Memory, fp: nat, max: nat): (w: Walked)
    ensures |w.frames| <= max
    decreases max
  {
    if max == 0 || fp < PAGE || fp % WORD != 0 then Walked([], false)
    else if fp !in mem || fp + WORD !in mem then Walked([], true)
    else
      var prev, ret := mem[fp], mem[fp + WORD];
      if ret < PAGE then Walked([], false)
      else if prev <= fp then Walked([ret], false)
      else
        var rest := Walk(mem, prev, max - 1);
        Walked([ret] + rest.frames, rest.faulted)
  }

  /** A frame at `fp` whose return address is `ret`. */
  predicate FrameOf(mem: Memory, fp: nat, ret: nat) {
    && fp >= PAGE && fp % WORD == 0 && fp in mem && fp + WORD in mem
    && ret == mem[fp + WORD] && ret >= PAGE
  }

  /** `fps` is a chain from `fp`: each frame holds the next pointer, higher up,
      and the return address beside it. */
  ghost predicate Chain(mem: Memory, fp: nat, fps: seq<nat>, frames: seq<nat>) {
    && |fps| == |frames|
    && (fps != [] ==> fps[0] == fp)
    && (forall i :: 0 <= i < |fps| ==> FrameOf(mem, fps[i], frames[i]))
    && (forall i, j :: 0 <= i < |fps| && j == i + 1 < |fps| ==> mem[fps[i]] == fps[j] && fps[i] < fps[j])
  }

  /** A pointer no frame is taken from. */
  predicate Stops(mem: Memory, fp: nat) {
    fp < PAGE || fp % WORD != 0 || (fp + WORD in mem && mem[fp + WORD] < PAGE)
  }

  /** Why a walk that did not fault ended after the frames `fps`. */
  ghost predicate Ended(mem: Memory, fp: nat, fps: seq<nat>)
    requires forall k :: 0 <= k < |fps| ==> fps[k] in mem
  {
    if fps == [] then Stops(mem, fp)
    else mem[fps[|fps| - 1]] <= fps[|fps| - 1] || Stops(mem, mem[fps[|fps| - 1]])
  }

  lemma ChainUp(mem: Memory, fp: nat, ret: nat, fps: seq<nat>, frames: seq<nat>)
    requires FrameOf(mem, fp, ret) && mem[fp] > fp && Chain(mem, mem[fp], fps, frames)
    ensures Chain(mem, fp, [fp] + fps, [ret] + frames)
    ensures Ended(mem, mem[fp], fps) ==> Ended(mem, fp, [fp] + fps)
  {}

  /** The walk reads a strictly rising chain, and unless it faults it ends at the
      limit, at a bad pointer or address, or at a pointer that does not rise. */
  lemma {:induction false} WalkReadsChain(mem: Memory, fp: nat, max: nat) returns (fps: seq<nat>)
    ensures Chain(mem, fp, fps, Walk(mem, fp, max).frames)
    ensures Walk(mem, fp, max).faulted || |fps| == max || Ended(mem, fp, fps)
    decreases max
  {
    var w := Walk(mem, fp, max);
    if w.frames == [] {
      fps := [];
    } else if mem[fp] <= fp {
      fps := [fp];
    } else {
      var rest := WalkReadsChain(mem, mem[fp], max - 1);
      ChainUp(mem, fp, mem[fp + WORD], rest, Walk(mem, mem[fp], max - 1).frames);
      fps := [fp] + rest;
    }
  }

  /** The walk itself, filling `out` from index 1. */
  method WalkFramePointers(mem: Memory, initial: nat, out: array<nat>, max: nat) returns (count: nat, faulted: bool)
    requires out.Length == max + 1
    modifies out
    ensures faulted == Walk(mem, initial, max).faulted
    ensures count <= max && out[1..count + 1] == Walk(mem, initial, max).frames
    ensures out[0] == old(out[0])
  {
    var fp: nat := initial;
    count, faulted := 0, false;
    ghost var all := Walk(mem, initial, max);
    while count < max
      invariant count <= max
      invariant all == Walked(out[1..count + 1] + Walk(mem, fp, max - count).frames, Walk(mem, fp, max - count).faulted)
      invariant out[0] == old(out[0])
    {
      if fp < PAGE || fp % WORD != 0 {
        break;
      }
      if fp !in mem || fp + WORD !in mem {
        return count, true;
      }
      var prev, ret := mem[fp], mem[fp + WORD];
      if ret < PAGE {
        break;
      }
      ghost var before := out[1..count + 1];
      ghost var rest := Walk(mem, fp, max - count).frames;
      out[count + 1] := ret;
      assert out[1..count + 2] == before + [ret];
      count := count + 1;
      if prev <= fp {
        break;
      }
      Assoc(before, [ret], Walk(mem, prev, max - count).frames);
      fp := prev;
    }
  }

  // ------------------------------------------------------ the file

  /** Contents after writing `bytes` at `pos`. */
  function Overwritten(content: Bytes, pos: nat, bytes: Bytes): Bytes
    requires pos <= |content|
  {
    content[..pos] + bytes + if pos + |bytes| <= |content| then content[pos + |bytes|..] else []
  }

  class CrashFile {
    var content: Bytes
    var pos: nat

    /** As opened: created or truncated. */
    constructor ()
      ensures content == [] && pos == 0
    {
      content, pos := [], 0;
    }

    method Write(bytes: Bytes)
      requires pos <= |content|
      modifies this
      ensures content == Overwritten(old(content), old(pos), bytes) && pos == old(pos) + |bytes|
      ensures pos <= |content|
    {
      content := Overwritten(content, pos, bytes);
      pos := pos + |bytes|;
    }

    method Rewind()
      modifies this`pos
      ensures pos == 0
    {
      pos := 0;
    }
  }

  // ------------------------------------------------------ one blob

  lemma PutAfterHeader(data: Bytes, at: nat, bytes: Bytes, f: Fields, count: nat)
    requires InRange(f) && HeaderOf(data, f, count)
    requires HEADER_SIZE <= at && at + |bytes| <= |data|
    ensures HeaderOf(Put(data, at, bytes), f, count)
  {}

  lemma PutFrame(data: Bytes, frames: seq<nat>, n: nat)
    requires n < |frames| && FramesIn(data, frames[..n])
    requires HEADER_SIZE + 8 * n + 8 <= |data|
    ensures FramesIn(Put(data, HEADER_SIZE + 8 * n, ToLE(frames[n], 8)), frames[..n + 1])
  {
    var put := Put(data, HEADER_SIZE + 8 * n, ToLE(frames[n], 8));
    var longer := frames[..n + 1];
    forall k | 0 <= k < |longer|
      ensures FrameAt(put, k, longer[k])
    {
      if k < n {
        assert FrameAt(data, k, frames[..n][k]);
      }
    }
  }

  /** The blob for `count` frames, in the static buffer. */
  method FillBlob(buf: array<Byte>, f: Fields, frames: array<nat>, count: nat) returns (offset: nat)
    requires buf.Length == MAX_FILE_SIZE && InRange(f) && count <= frames.Length == MAX_FRAMES
    modifies buf
    ensures offset == HEADER_SIZE + 8 * count
    ensures HeaderOf(buf[..], f, count) && FramesIn(buf[..], frames[..count])
  {
    offset := WriteHeader(buf, f, count);
    ghost var all := frames[..];
    for n := 0 to count
      invariant offset == HEADER_SIZE + 8 * n
      invariant HeaderOf(buf[..], f, count) && FramesIn(buf[..], all[..n])
    {
      ghost var data := buf[..];
      PutAfterHeader(data, offset, ToLE(all[n], 8), f, count);
      PutFrame(data, all, n);
      offset := WriteFrame(buf, offset, frames[n]);
    }
    assert all[..count] == frames[..count];
  }

  /** `data` is exactly the blob of `f` with `frames`. */
  ghost predicate BlobBytes(data: Bytes, f: Fields, frames: seq<nat>)
    requires InRange(f)
  {
    |data| == HEADER_SIZE + 8 * |frames| && HeaderOf(data, f, |frames|) && FramesIn(data, frames)
  }

  lemma CutToBlob(data: Bytes, f: Fields, frames: seq<nat>)
    requires InRange(f) && HeaderOf(data, f, |frames|) && FramesIn(data, frames)
    ensures BlobBytes(data[..HEADER_SIZE + 8 * |frames|], f, frames)
  {
    var cut := data[..HEADER_SIZE + 8 * |frames|];
    forall k | 0 <= k < |frames|
      ensures FrameAt(cut, k, frames[k])
    {
      assert FrameAt(data, k, frames[k]);
    }
  }

  // ------------------------------------------------------ the handler

  /** The addresses the file is to hold at the end. */
  function FramesOnDisk(mem: Memory, pc: nat, fp: nat): (frames: seq<nat>)
    ensures |frames| <= MAX_FRAMES
  {
    if pc == 0 then []
    else if fp == 0 || Walk(mem, fp, MAX_FRAMES - 1).faulted then [pc]
    else [pc] + Walk(mem, fp, MAX_FRAMES - 1).frames
  }

  predicate Words(mem: Memory) {
    forall a :: a in mem ==> mem[a] < U64
  }

  lemma {:induction false} WalkedAddresses(mem: Memory, fp: nat, max: nat)
    requires Words(mem)
    ensures Addresses(Walk(mem, fp, max).frames)
    decreases max
  {
    if |Walk(mem, fp, max).frames| > 1 {
      WalkedAddresses(mem, mem[fp], max - 1);
    }
  }

  /** Where a walk that faulted was: at a pointer that passes the checks and cannot
      be read. */
  predicate Unreadable(mem: Memory, fp: nat) {
    fp >= PAGE && fp % WORD == 0 && (fp !in mem || fp + WORD !in mem)
  }

  ghost predicate Faulted(mem: Memory, fp: nat, fps: seq<nat>)
    requires forall k :: 0 <= k < |fps| ==> fps[k] in mem
  {
    if fps == [] then Unreadable(mem, fp)
    else mem[fps[|fps| - 1]] > fps[|fps| - 1] && Unreadable(mem, mem[fps[|fps| - 1]])
  }

  lemma {:induction false} FaultedWalk(mem: Memory, fp: nat, max: nat) returns (fps: seq<nat>)
    requires Walk(mem, fp, max).faulted
    ensures Chain(mem, fp, fps, Walk(mem, fp, max).frames) && |fps| < max && Faulted(mem, fp, fps)
    decreases max
  {
    if Walk(mem, fp, max).frames == [] {
      fps := [];
    } else {
      var rest := FaultedWalk(mem, mem[fp], max - 1);
      ChainUp(mem, fp, mem[fp + WORD], rest, Walk(mem, mem[fp], max - 1).frames);
      fps := [fp] + rest;
    }
  }

  /** The return addresses along the longest chain of at most 63 frames from `fp`. */
  ghost predicate WholeChain(mem: Memory, fp: nat, fps: seq<nat>, frames: seq<nat>) {
    Chain(mem, fp, fps, frames) && |fps| <= 63 && (|fps| == 63 || Ended(mem, fp, fps))
  }

  /** The frames that a crash is to leave: none without an address; the address alone
      without a frame pointer or when reading the chain faults, which is when it comes
      to an unreadable pointer within 63 frames; else the address and the chain. */
  ghost predicate FramesLeft(mem: Memory, pc: nat, fp: nat, faulted: bool, frames: seq<nat>) {
    if pc == 0 then frames == [] && !faulted
    else if fp == 0 then frames == [pc] && !faulted
    else if faulted then
      frames == [pc] && exists fps, chain :: Chain(mem, fp, fps, chain) && |fps| < 63 && Faulted(mem, fp, fps)
    else exists fps, chain :: WholeChain(mem, fp, fps, chain) && frames == [pc] + chain
  }

  lemma DiskHoldsChain(mem: Memory, pc: nat, fp: nat)
    ensures FramesLeft(mem, pc, fp, pc != 0 && fp != 0 && Walk(mem, fp, MAX_FRAMES - 1).faulted, FramesOnDisk(mem, pc, fp))
  {
    if pc != 0 && fp != 0 {
      if Walk(mem, fp, MAX_FRAMES - 1).faulted {
        var fps := FaultedWalk(mem, fp, MAX_FRAMES - 1);
      } else {
        var fps := WalkReadsChain(mem, fp, MAX_FRAMES - 1);
        assert WholeChain(mem, fp, fps, Walk(mem, fp, MAX_FRAMES - 1).frames);
      }
    }
  }

  /** Put the blob of `frames[..count]` at the front of the file. */
  method WriteBlob(file: CrashFile, buf: array<Byte>, f: Fields, frames: array<nat>, count: nat)
    requires buf.Length == MAX_FILE_SIZE && InRange(f) && count <= frames.Length == MAX_FRAMES
    requires file.pos == 0 && |file.content| <= HEADER_SIZE + 8 * count
    modifies file, buf
    ensures BlobBytes(file.content, f, frames[..count])
  {
    var offset := FillBlob(buf, f, frames, count);
    CutToBlob(buf[..], f, frames[..count]);
    assert buf[..offset] == buf[..][..offset];
    EmptyRight(buf[..offset]);
    file.Write(buf[..offset]);
  }

  lemma BlobParses(data: Bytes, f: Fields, frames: seq<nat>)
    requires InRange(f) && Addresses(frames) && |frames| <= MAX_FRAMES && BlobBytes(data, f, frames)
    ensures Parse(data) == Some(BlobOf(f, frames))
  {
    ParseWritten(data, f, frames);
  }

  lemma OnDiskAddresses(mem: Memory, pc: nat, fp: nat)
    requires Words(mem) && pc < U64
    ensures Addresses(FramesOnDisk(mem, pc, fp))
  {
    WalkedAddresses(mem, fp, MAX_FRAMES - 1);
  }

  /** The second phase, over a file that holds the crash address alone. */
  method WalkAndRewrite(file: CrashFile, buf: array<Byte>, f: Fields, mem: Memory, frames: array<nat>, fp: nat)
    returns (faulted: bool)
    requires buf.Length == MAX_FILE_SIZE && frames.Length == MAX_FRAMES && InRange(f)
    requires BlobBytes(file.content, f, [frames[0]]) && frames[0] != 0 && fp != 0
    modifies file, buf, frames
    ensures faulted == Walk(mem, fp, MAX_FRAMES - 1).faulted
    ensures BlobBytes(file.content, f, FramesOnDisk(mem, old(frames[0]), fp))
  {
    ghost var pc := frames[0];
    var walked;
    walked, faulted := WalkFramePointers(mem, fp, frames, MAX_FRAMES - 1);
    if faulted {
      return;
    }
    assert frames[..1 + walked] == [pc] + frames[1..1 + walked];
    if walked > 0 {
      file.Rewind();
      WriteBlob(file, buf, f, frames, 1 + walked);
    }
  }

  /** Write the blob with the crash address, then walk, then rewrite with the
      walked addresses. A fault in the walk ends the process there. */
  method WriteCrashBlob(file: CrashFile, buf: array<Byte>, f: Fields, mem: Memory, pc: nat, fp: nat)
    returns (faulted: bool)
    requires buf.Length == MAX_FILE_SIZE && file.content == [] && file.pos == 0
    requires InRange(f) && pc < U64 && Words(mem)
    modifies file, buf
    ensures faulted <==> pc != 0 && fp != 0 && Walk(mem, fp, MAX_FRAMES - 1).faulted
    ensures Parse(file.content) == Some(BlobOf(f, FramesOnDisk(mem, pc, fp)))
    ensures FramesLeft(mem, pc, fp, faulted, Parse(file.content).value.frames)
  {
    var frames := new nat[MAX_FRAMES](_ => 0);
    var count := 0;
    if pc != 0 {
      frames[0], count := pc, 1;
    }
    WriteBlob(file, buf, f, frames, count);
    assert frames[..count] == if pc != 0 then [pc] else [];
    faulted := false;
    if fp != 0 && pc != 0 {
      faulted := WalkAndRewrite(file, buf, f, mem, frames, fp);
    }
    OnDiskAddresses(mem, pc, fp);
    DiskHoldsChain(mem, pc, fp);
    BlobParses(file.content, f, FramesOnDisk(mem, pc, fp));
  }

  // ------------------------------------------------------ a torn rewrite

  lemma SameSlice(a: Bytes, b: Bytes, lo: nat, hi: nat)
    requires lo <= hi <= |a| && hi <= |b| && a[lo..hi] == b[lo..hi]
    ensures forall i :: lo <= i < hi ==> a[i] == b[i]
  {
    forall i | lo <= i < hi
      ensures a[i] == b[i]
    {
      assert a[i] == a[lo..hi][i - lo] && b[i] == b[lo..hi][i - lo];
    }
  }

  /** Two blobs of the same fields agree up to the frame count. */
  lemma SameFront(a: Bytes, b: Bytes, f: Fields, m: nat, n: nat)
    requires InRange(f) && HeaderOf(a, f, m) && HeaderOf(b, f, n)
    ensures forall i :: 0 <= i < 30 ==> a[i] == b[i]
  {
    SameSlice(a, b, 0, 4);
    SameSlice(a, b, 6, 10);
    SameSlice(a, b, 10, 18);
    SameSlice(a, b, 18, 22);
    SameSlice(a, b, 22, 30);
  }

  lemma CountBytes(data: Bytes, f: Fields, n: nat)
    requires InRange(f) && HeaderOf(data, f, n) && n < 256
    ensures data[30] == n as Byte && data[31] == 0
  {
    assert data[30] == data[30..32][0] && data[31] == data[30..32][1];
    assert ToLE(n, 2)[1] == ToLE(n / 256, 1)[0];
  }

  /** If only `k` bytes of the rewrite reach the disk, the file still parses to
      the first blob exactly while the frame count is untouched, and parses to
      nothing from there until the rewrite is complete. */
  lemma TornRewrite(first: Bytes, second: Bytes, f: Fields, pc: nat, walked: seq<nat>, k: nat)
    requires InRange(f) && pc < U64 && Addresses(walked) && 0 < |walked| < MAX_FRAMES
    requires BlobBytes(first, f, [pc]) && BlobBytes(second, f, [pc] + walked) && k <= |second|
    ensures Parse(Overwritten(first, 0, second[..k])) ==
            if k <= 30 then Some(BlobOf(f, [pc]))
            else if k < |second| then None
            else Some(BlobOf(f, [pc] + walked))
  {
    var torn := Overwritten(first, 0, second[..k]);
    SameFront(first, second, f, 1, 1 + |walked|);
    if k <= 30 {
      assert torn == first;
      BlobParses(first, f, [pc]);
    } else if k < |second| {
      TornCount(first, second, f, pc, walked, k);
    } else {
      assert torn == second;
      BlobParses(second, f, [pc] + walked);
    }
  }

  lemma TornCount(first: Bytes, second: Bytes, f: Fields, pc: nat, walked: seq<nat>, k: nat)
    requires InRange(f) && 0 < |walked| < MAX_FRAMES
    requires BlobBytes(first, f, [pc]) && BlobBytes(second, f, [pc] + walked) && 30 < k < |second|
    ensures Parse(Overwritten(first, 0, second[..k])) == None
  {
    var torn := Overwritten(first, 0, second[..k]);
    CountBytes(first, f, 1);
    CountBytes(second, f, 1 + |walked|);
    assert torn[30..32] == second[30..32];
    Widths();
    LERoundTrip(1 + |walked|, 2);
  }
}
