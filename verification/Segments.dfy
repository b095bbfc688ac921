/** Segment files: their numbered names, grouped numerals, and the verbatim
    section cut at a whole turn. */
module Segments {
  import opened Wrappers
  import opened Sequences
  import opened Decimals
  import opened Utf8

  const U64_MAX: nat := 0xffff_ffff_ffff_ffff
  const SEGMENT_PREFIX: string := "segment_"
  const SEGMENT_SUFFIX: string := ".md"

  // ------------------------------------------------------ names

  function Padded(digits: string, width: nat): string
    decreases width - |digits|
  {
    if |digits| >= width then digits else Padded(['0'] + digits, width)
  }

  function SegmentLabel(index: nat): string {
    Padded(Decimal(index), 3)
  }

  function SegmentFilename(index: nat): string {
    SEGMENT_PREFIX + (SegmentLabel(index) + SEGMENT_SUFFIX)
  }

  predicate IsDigit(c: char) {
    '0' <= c <= '9'
  }

  predicate AllDigits(s: string) {
    forall k :: 0 <= k < |s| ==> IsDigit(s[k])
  }

  /** The number a string of digits denotes. */
  function Value(s: string): nat
    requires AllDigits(s)
  {
    if s == [] then 0 else 10 * Value(s[..|s| - 1]) + (s[|s| - 1] as nat - '0' as nat)
  }

  /** As Rust reads a `u64`: digits, after at most one plus sign, in range. */
  function ParseU64(s: string): Option<nat> {
    var digits := if |s| > 1 && s[0] == '+' then s[1..] else s;
    if digits == [] || !AllDigits(digits) || Value(digits) > U64_MAX then None else Some(Value(digits))
  }

  function StripPrefix(s: string, p: string): Option<string> {
    if p <= s then Some(s[|p|..]) else None
  }

  function StripSuffix(s: string, p: string): Option<string> {
    if |p| <= |s| && s[|s| - |p|..] == p then Some(s[..|s| - |p|]) else None
  }

  function ParseSegmentIndex(filename: string): Option<nat> {
    match StripPrefix(filename, SEGMENT_PREFIX)
    case None => None
    case Some(rest) =>
      match StripSuffix(rest, SEGMENT_SUFFIX)
      case None => None
      case Some(digits) => ParseU64(digits)
  }

  lemma {:induction false} DecimalValue(n: nat)
    ensures AllDigits(Decimal(n)) && Value(Decimal(n)) == n
  {
    if n < 10 {
      DigitValue(n);
      assert Decimal(n)[..0] == [];
    } else {
      DigitValue(n % 10);
      DecimalValue(n / 10);
      SnocLast(Decimal(n / 10), Digit(n % 10));
    }
  }

  lemma DigitValue(d: nat)
    requires d < 10
    ensures IsDigit(Digit(d)) && Digit(d) as nat - '0' as nat == d
  {}

  lemma {:induction false} LeadingZero(s: string)
    requires AllDigits(s)
    ensures AllDigits(['0'] + s) && Value(['0'] + s) == Value(s)
  {
    if s == [] {
      assert (['0'] + s)[..0] == [];
    } else {
      ConcatLast(['0'], s);
      LeadingZero(s[..|s| - 1]);
    }
  }

  lemma {:induction false} PaddedValue(s: string, width: nat)
    requires AllDigits(s)
    ensures AllDigits(Padded(s, width)) && Value(Padded(s, width)) == Value(s)
    ensures |Padded(s, width)| >= |s|
    decreases width - |s|
  {
    if |s| < width {
      LeadingZero(s);
      PaddedValue(['0'] + s, width);
    }
  }

  /** Every index survives its file name. */
  lemma FilenameParses(index: nat)
    requires index <= U64_MAX
    ensures ParseSegmentIndex(SegmentFilename(index)) == Some(index)
  {
    var padded := SegmentLabel(index);
    DecimalValue(index);
    PaddedValue(Decimal(index), 3);
    Unsplit(SEGMENT_PREFIX, padded + SEGMENT_SUFFIX);
    Unsplit(padded, SEGMENT_SUFFIX);
    assert IsDigit(padded[0]);
  }

  /** So two segments never share a file. */
  lemma FilenamesDiffer(a: nat, b: nat)
    requires a <= U64_MAX && b <= U64_MAX && SegmentFilename(a) == SegmentFilename(b)
    ensures a == b
  {
    FilenameParses(a);
    FilenameParses(b);
  }

  // ------------------------------------------------------ thousands

  /** Groups of three from the right. */
  function Grouped(s: string): string {
    if |s| <= 3 then s else Grouped(s[..|s| - 3]) + ([','] + s[|s| - 3..])
  }

  /** What the loop has written after `i` of the `len` digits. */
  function Emitted(s: string, len: nat, i: nat): string
    requires i <= len <= |s|
  {
    if i == 0 then []
    else Emitted(s, len, i - 1) + ((if i - 1 > 0 && (len - (i - 1)) % 3 == 0 then [','] else []) + [s[i - 1]])
  }

  /** Left to right with a comma wherever a multiple of three digits is left. */
  method WithThousands(n: nat) returns (out: string)
    ensures out == Grouped(Decimal(n))
  {
    var digits := Decimal(n);
    out := [];
    for i := 0 to |digits|
      invariant out == Emitted(digits, |digits|, i)
    {
      var c := [digits[i]];
      if i > 0 && (|digits| - i) % 3 == 0 {
        c := [','] + c;
      }
      out := out + c;
    }
    EmittedIsGrouped(digits, |digits|);
    assert digits[..|digits|] == digits;
  }

  lemma {:induction false} EmittedShorter(s: string, len: nat, i: nat)
    requires 3 <= len <= |s| && i <= len - 3
    ensures Emitted(s, len, i) == Emitted(s, len - 3, i)
  {
    if i > 0 {
      EmittedShorter(s, len, i - 1);
      assert (len - (i - 1)) % 3 == (len - 3 - (i - 1)) % 3;
    }
  }

  lemma {:induction false} EmittedIsGrouped(s: string, len: nat)
    requires len <= |s|
    ensures Emitted(s, len, len) == Grouped(s[..len])
  {
    if len <= 3 {
      EmittedShort(s, len, len);
    } else {
      EmittedIsGrouped(s, len - 3);
      EmittedShorter(s, len, len - 3);
      LastThree(s, len);
      GroupedLastThree(s, len);
    }
  }

  /** The last group of the first `len` digits, with its comma. */
  function CommaThree(s: string, len: nat): string
    requires 3 < len <= |s|
  {
    [','] + ([s[len - 3]] + [s[len - 2]] + [s[len - 1]])
  }

  lemma GroupedLastThree(s: string, len: nat)
    requires 3 < len <= |s|
    ensures Grouped(s[..len]) == Grouped(s[..len - 3]) + CommaThree(s, len)
  {
    assert s[..len][..len - 3] == s[..len - 3];
    assert s[..len][len - 3..] == [s[len - 3]] + [s[len - 2]] + [s[len - 1]];
  }

  lemma {:induction false} EmittedShort(s: string, len: nat, i: nat)
    requires i <= len <= |s| && len <= 3
    ensures Emitted(s, len, i) == s[..i]
  {
    if i > 0 {
      EmittedShort(s, len, i - 1);
      Grow(s, i - 1);
      EmptyRight([s[i - 1]]);
    }
  }

  lemma LastThree(s: string, len: nat)
    requires 3 < len <= |s|
    ensures Emitted(s, len, len) == Emitted(s, len, len - 3) + CommaThree(s, len)
  {
    var n := len - 3;
    var base := Emitted(s, len, n);
    assert Emitted(s, len, n + 1) == base + ([','] + [s[n]]);
    assert Emitted(s, len, n + 2) == Emitted(s, len, n + 1) + ([] + [s[n + 1]]);
    assert Emitted(s, len, n + 3) == Emitted(s, len, n + 2) + ([] + [s[n + 2]]);
  }

  function WithoutCommas(s: string): string {
    if s == [] then []
    else WithoutCommas(s[..|s| - 1]) + if s[|s| - 1] == ',' then [] else [s[|s| - 1]]
  }

  lemma {:induction false} WithoutCommasJoin(a: string, b: string)
    ensures WithoutCommas(a + b) == WithoutCommas(a) + WithoutCommas(b)
  {
    if b == [] {
      EmptyRight(a);
    } else {
      ConcatLast(a, b);
      WithoutCommasJoin(a, b[..|b| - 1]);
      Assoc(WithoutCommas(a), WithoutCommas(b[..|b| - 1]), if b[|b| - 1] == ',' then [] else [b[|b| - 1]]);
    }
  }

  lemma {:induction false} NoCommas(s: string)
    requires AllDigits(s)
    ensures WithoutCommas(s) == s
  {
    if s != [] {
      NoCommas(s[..|s| - 1]);
    }
  }

  /** Grouping only inserts commas, one for every three digits after the first. */
  lemma {:induction false} GroupedKeepsDigits(s: string)
    requires AllDigits(s) && s != []
    ensures WithoutCommas(Grouped(s)) == s
    ensures |Grouped(s)| == |s| + (|s| - 1) / 3
  {
    NoCommas(s);
    if |s| > 3 {
      GroupedKeepsDigits(s[..|s| - 3]);
      OneMoreGroup(Grouped(s[..|s| - 3]), s[|s| - 3..]);
      Split(s, |s| - 3);
    }
  }

  lemma OneMoreGroup(grouped: string, tail: string)
    requires AllDigits(tail)
    ensures WithoutCommas(grouped + ([','] + tail)) == WithoutCommas(grouped) + tail
  {
    NoCommas(tail);
    WithoutCommasJoin([','], tail);
    WithoutCommasJoin(grouped, [','] + tail);
    CommaGoes();
  }

  lemma CommaGoes()
    ensures WithoutCommas([',']) == []
  {
    assert [','][..0] == [];
  }

  /** Commas stand exactly where a multiple of three digits follows. */
  lemma {:induction false} CommaPlaces(s: string, i: nat)
    requires AllDigits(s) && s != [] && i < |Grouped(s)|
    ensures Grouped(s)[i] == ',' <==> (|Grouped(s)| - i) % 4 == 0
  {
    if |s| > 3 {
      var head, tail := s[..|s| - 3], s[|s| - 3..];
      if i < |Grouped(head)| {
        CommaPlaces(head, i);
        FourMore(|Grouped(head)| - i);
      } else {
        LastGroup(tail, i - |Grouped(head)|);
      }
    }
  }

  lemma FourMore(n: nat)
    ensures (n + 4) % 4 == n % 4
  {}

  lemma LastGroup(tail: string, i: nat)
    requires AllDigits(tail) && |tail| == 3 && i < 4
    ensures ([','] + tail)[i] == ',' <==> (4 - i) % 4 == 0
  {}

  // ------------------------------------------------------ the verbatim section

  const SEGMENT_MAX_BYTES: nat := 512 * 1024
  const PER_TURN_OVERHEAD_BYTES: nat := 64

  /** Byte length of the notice's template, placeholders included. */
  const TRUNCATION_NOTICE_LEN: nat := 64

  function TruncatedAt(): string { "\n\n[... TRUNCATED at " }

  function CapUnit(): string { " bytes, " }

  function NoticeHead(): string {
    TruncatedAt() + (Decimal(SEGMENT_MAX_BYTES) + CapUnit())
  }

  function NoticeTail(): string {
    " turns omitted ...]\n"
  }

  function Notice(omitted: nat): string {
    NoticeHead() + (Decimal(omitted) + NoticeTail())
  }

  /** Blocks joined with newlines. */
  function Joined(blocks: seq<string>): string {
    if blocks == [] then []
    else if |blocks| == 1 then blocks[0]
    else Joined(blocks[..|blocks| - 1]) + ("\n" + blocks[|blocks| - 1])
  }

  /** Bytes of the blocks, as the budget counts them. */
  function Used(blocks: seq<string>): nat {
    if blocks == [] then 0 else Used(blocks[..|blocks| - 1]) + ByteLen(blocks[|blocks| - 1])
  }

  function Budget(preamble: string): nat {
    var reserved := ByteLen(preamble) + TRUNCATION_NOTICE_LEN + PER_TURN_OVERHEAD_BYTES;
    if reserved <= SEGMENT_MAX_BYTES then SEGMENT_MAX_BYTES - reserved else 0
  }

  /** The document for the turns' blocks when the first `kept` of them are. */
  function Document(preamble: string, turns: seq<string>, kept: nat): string
    requires kept <= |turns|
  {
    DocumentWith(preamble, turns, kept, if kept < |turns| then Notice(|turns| - kept) else [])
  }

  /** The preamble, the kept blocks and what follows them. */
  function DocumentWith(preamble: string, turns: seq<string>, kept: nat, notice: string): string
    requires kept <= |turns|
  {
    preamble + (Joined(turns[..kept]) + notice)
  }

  /** The most leading turns that fit the budget. */
  predicate KeepsMost(turns: seq<string>, kept: nat, budget: nat) {
    && kept <= |turns|
    && Used(turns[..kept]) <= budget
    && (kept < |turns| ==> Used(turns[..kept + 1]) > budget)
  }

  /** Render turn by turn until one does not fit. `turns[i]` is the block turn
      `i` renders to at the chosen detail level. */
  method RenderSegment(preamble: string, turns: seq<string>) returns (document: string, kept: nat)
    ensures KeepsMost(turns, kept, Budget(preamble))
    ensures document == Document(preamble, turns, kept)
  {
    var budget := Budget(preamble);
    var blocks: seq<string>, used: nat := [], 0;
    var truncatedAt: Option<nat> := None;
    var i := 0;
    while i < |turns|
      invariant i <= |turns| && blocks == turns[..i]
      invariant used == Used(blocks) <= budget
      invariant truncatedAt == None
    {
      var block := turns[i];
      Grow(turns, i);
      SnocLast(blocks, block);
      if used + ByteLen(block) > budget {
        truncatedAt := Some(i);
        break;
      }
      used := used + ByteLen(block);
      blocks := blocks + [block];
      i := i + 1;
    }
    kept := i;
    var body := Joined(blocks);
    match truncatedAt {
      case None =>
        EmptyRight(body);
      case Some(at) =>
        body := body + Notice(|turns| - at);
    }
    document := preamble + body;
  }

  /** Every longer run of leading turns is over the budget. */
  lemma {:induction false} UsedGrows(turns: seq<string>, a: nat, b: nat)
    requires a <= b <= |turns|
    ensures Used(turns[..a]) <= Used(turns[..b])
    decreases b
  {
    if a < b {
      Grow(turns, b - 1);
      SnocLast(turns[..b - 1], turns[b - 1]);
      UsedGrows(turns, a, b - 1);
    }
  }

  lemma KeptIsMost(turns: seq<string>, kept: nat, budget: nat, k: nat)
    requires KeepsMost(turns, kept, budget) && k <= |turns|
    ensures Used(turns[..k]) <= budget <==> k <= kept
  {
    if k <= kept {
      UsedGrows(turns, k, kept);
    } else {
      UsedGrows(turns, kept + 1, k);
    }
  }

  /** The same in plain numbers: `k` turns are kept exactly when they, the preamble
      and a reserve of 128 bytes fit 512 KiB, or have no bytes at all. */
  lemma KeptIffFits(preamble: string, turns: seq<string>, kept: nat, k: nat)
    requires KeepsMost(turns, kept, Budget(preamble)) && k <= |turns|
    ensures k <= kept <==> Used(turns[..k]) == 0 || ByteLen(preamble) + Used(turns[..k]) + 128 <= 524288
  {
    KeptIsMost(turns, kept, Budget(preamble), k);
  }

  /** Characters before block `k`, a newline after each block counted. */
  function OffsetOf(blocks: seq<string>, k: nat): nat
    requires k <= |blocks|
  {
    if k == 0 then 0 else OffsetOf(blocks, k - 1) + |blocks[k - 1]| + 1
  }

  lemma {:induction false} OffsetLocal(blocks: seq<string>, more: seq<string>, k: nat)
    requires k <= |blocks| <= |more| && more[..|blocks|] == blocks
    ensures OffsetOf(more, k) == OffsetOf(blocks, k)
  {
    if k > 0 {
      OffsetLocal(blocks, more, k - 1);
      assert more[..|blocks|][k - 1] == more[k - 1];
    }
  }

  /** `s` holds `block` at `at`, after a newline unless it comes first. */
  ghost predicate BlockAt(s: string, block: string, at: nat, first: bool) {
    at + |block| <= |s| && s[at..at + |block|] == block && (!first ==> at > 0 && s[at - 1] == '\n')
  }

  lemma BlockInPrefix(s: string, more: string, block: string, at: nat, first: bool)
    requires BlockAt(s, block, at, first)
    ensures BlockAt(s + more, block, at, first)
  {
    assert (s + more)[at..at + |block|] == s[at..at + |block|];
  }

  lemma BlockAtEnd(s: string, block: string)
    ensures BlockAt(s + ("\n" + block), block, |s| + 1, false)
  {}

  lemma {:induction false} JoinedHolds(blocks: seq<string>, k: nat)
    requires k < |blocks|
    ensures |Joined(blocks)| + 1 == OffsetOf(blocks, |blocks|)
    ensures BlockAt(Joined(blocks), blocks[k], OffsetOf(blocks, k), k == 0)
  {
    if |blocks| == 1 {
      assert OffsetOf(blocks, 1) == OffsetOf(blocks, 0) + |blocks[0]| + 1;
    } else {
      var init, last := blocks[..|blocks| - 1], blocks[|blocks| - 1];
      JoinedHolds(init, if k < |init| then k else 0);
      OffsetLocal(init, blocks, |init|);
      if k < |init| {
        OffsetLocal(init, blocks, k);
        BlockInPrefix(Joined(init), "\n" + last, blocks[k], OffsetOf(blocks, k), k == 0);
      } else {
        BlockAtEnd(Joined(init), last);
      }
    }
  }

  /** The text that tells of omitted turns. */
  lemma NoticeText(omitted: nat)
    ensures Notice(omitted) == ("\n\n[... TRUNCATED at " + ("524288" + " bytes, ")) + (Decimal(omitted) + " turns omitted ...]\n")
  {
    LimitText();
  }

  lemma LimitText()
    ensures Decimal(SEGMENT_MAX_BYTES) == "524288"
  {
    assert Decimal(52) == "52";
    assert Decimal(524) == "524";
    assert Decimal(5242) == "5242";
    assert Decimal(52428) == "52428";
  }

  lemma BlockAfter(a: string, s: string, b: string, block: string, at: nat, first: bool)
    requires BlockAt(s, block, at, first)
    ensures (a + (s + b))[|a| + at..|a| + at + |block|] == block
    ensures !first ==> (a + (s + b))[|a| + at - 1] == '\n'
  {
    BlockInPrefix(s, b, block, at, first);
    assert (a + (s + b))[|a| + at..|a| + at + |block|] == (s + b)[at..at + |block|];
  }

  ghost predicate EndsWith(s: string, from: int, end: string) {
    0 <= from <= |s| && s[from..] == end
  }

  /** Where turn `k` stands in the document, and that nothing else is there but the
      preamble before, a newline between turns, and the notice after. */
  lemma DocumentHolds(preamble: string, turns: seq<string>, kept: nat, notice: string, k: nat)
    requires k < kept <= |turns|
    ensures var doc := DocumentWith(preamble, turns, kept, notice);
            && preamble <= doc
            && BlockAt(doc, turns[k], |preamble| + OffsetOf(turns, k), k == 0)
            && EndsWith(doc, |preamble| + OffsetOf(turns, kept) - 1, notice)
  {
    TurnsHold(turns, kept, k);
    HoldsBetween(preamble, Joined(turns[..kept]), notice, turns[k], OffsetOf(turns, k), OffsetOf(turns, kept), k == 0);
  }

  lemma TurnsHold(turns: seq<string>, kept: nat, k: nat)
    requires k < kept <= |turns|
    ensures |Joined(turns[..kept])| + 1 == OffsetOf(turns, kept)
    ensures BlockAt(Joined(turns[..kept]), turns[k], OffsetOf(turns, k), k == 0)
  {
    JoinedHolds(turns[..kept], k);
    OffsetLocal(turns[..kept], turns, k);
    OffsetLocal(turns[..kept], turns, kept);
  }

  lemma HoldsBetween(preamble: string, body: string, rest: string, block: string, at: nat, end: nat, first: bool)
    requires BlockAt(body, block, at, first) && |body| + 1 == end
    ensures var doc := preamble + (body + rest);
            preamble <= doc && BlockAt(doc, block, |preamble| + at, first) && EndsWith(doc, |preamble| + end - 1, rest)
  {
    BlockAfter(preamble, body, rest, block, at, first);
    Assoc(preamble, body, rest);
    Unsplit(preamble + body, rest);
  }

  lemma {:induction false} JoinedBytes(blocks: seq<string>)
    ensures ByteLen(Joined(blocks)) == Used(blocks) + if blocks == [] then 0 else |blocks| - 1
  {
    if |blocks| == 1 {
      assert blocks[..0] == [];
    } else if blocks != [] {
      var init, last := blocks[..|blocks| - 1], blocks[|blocks| - 1];
      JoinedBytes(init);
      ByteLenConcat("\n", last);
      ByteLenConcat(Joined(init), "\n" + last);
    }
  }

  lemma NoticeBytes(omitted: nat)
    ensures ByteLen(Notice(omitted)) == 54 + |Decimal(omitted)|
  {
    NumeralBytes(NoticeHead(), omitted, NoticeTail());
    NoticeHeadBytes();
    NoticeTailBytes();
  }

  lemma NoticeTailBytes()
    ensures ByteLen(NoticeTail()) == 20
  {
    AsciiByteLen(NoticeTail());
  }

  lemma NoticeHeadBytes()
    ensures ByteLen(NoticeHead()) == 34
  {
    LimitDigits();
    TruncatedAtBytes();
    CapUnitBytes();
    NumeralBytes(TruncatedAt(), SEGMENT_MAX_BYTES, CapUnit());
  }

  lemma TruncatedAtBytes()
    ensures ByteLen(TruncatedAt()) == 20
  {
    AsciiByteLen(TruncatedAt());
  }

  lemma CapUnitBytes()
    ensures ByteLen(CapUnit()) == 8
  {
    AsciiByteLen(CapUnit());
  }

  lemma LimitDigits()
    ensures |Decimal(SEGMENT_MAX_BYTES)| == 6
  {
    assert |Decimal(52)| == 2;
    assert |Decimal(524)| == 3;
    assert |Decimal(5242)| == 4;
    assert |Decimal(52428)| == 5;
  }

  function Separators(kept: nat): nat {
    if kept == 0 then 0 else kept - 1
  }

  /** The exact size of a document: the separators are not in the budget. */
  lemma DocumentBytes(preamble: string, turns: seq<string>, kept: nat)
    requires kept <= |turns|
    ensures ByteLen(Document(preamble, turns, kept)) ==
            ByteLen(preamble) + Used(turns[..kept]) + Separators(kept)
            + if kept < |turns| then 54 + |Decimal(|turns| - kept)| else 0
  {
    if kept < |turns| {
      NoticeBytes(|turns| - kept);
      BlocksBytes(preamble, turns[..kept], Notice(|turns| - kept));
    } else {
      BlocksBytes(preamble, turns[..kept], []);
    }
  }

  lemma BlocksBytes(preamble: string, blocks: seq<string>, rest: string)
    ensures ByteLen(preamble + (Joined(blocks) + rest)) ==
            ByteLen(preamble) + Used(blocks) + Separators(|blocks|) + ByteLen(rest)
  {
    JoinedBytes(blocks);
    ByteLenConcat3(preamble, Joined(blocks), rest);
  }

  /** Exactly when a document is within the cap: what the separators and the
      digits of the notice add must be covered by what the kept turns leave of
      the budget. */
  lemma WithinCapIff(preamble: string, turns: seq<string>, kept: nat)
    requires KeepsMost(turns, kept, Budget(preamble))
    ensures ByteLen(Document(preamble, turns, kept)) <= SEGMENT_MAX_BYTES <==>
            ByteLen(preamble) + Used(turns[..kept]) + Separators(kept)
            <= SEGMENT_MAX_BYTES - if kept < |turns| then 54 + |Decimal(|turns| - kept)| else 0
    ensures kept == |turns| && Separators(kept) <= TRUNCATION_NOTICE_LEN + PER_TURN_OVERHEAD_BYTES
            && ByteLen(preamble) + TRUNCATION_NOTICE_LEN + PER_TURN_OVERHEAD_BYTES <= SEGMENT_MAX_BYTES
            ==> ByteLen(Document(preamble, turns, kept)) <= SEGMENT_MAX_BYTES
  {
    DocumentBytes(preamble, turns, kept);
  }

  /** What the cap does promise: a document is over the larger of the cap and
      what the preamble takes with its reserve by at most one byte for each
      pair of neighbouring turns. */
  lemma OverByAtMostSeparators(preamble: string, turns: seq<string>, kept: nat)
    requires KeepsMost(turns, kept, Budget(preamble)) && |Decimal(|turns|)| <= 20
    ensures var reserved := ByteLen(preamble) + TRUNCATION_NOTICE_LEN + PER_TURN_OVERHEAD_BYTES;
            ByteLen(Document(preamble, turns, kept))
            <= (if reserved <= SEGMENT_MAX_BYTES then SEGMENT_MAX_BYTES else reserved) + Separators(kept)
  {
    DocumentBytes(preamble, turns, kept);
    DecimalGrows(|turns| - kept, |turns|);
  }

  /** And it does go over: for every preamble that leaves at least 200000 bytes
      and all turns of at most 128 bytes, whenever some turn is omitted. */
  lemma CapCanBeExceeded(preamble: string, turns: seq<string>, kept: nat)
    requires KeepsMost(turns, kept, Budget(preamble)) && kept < |turns|
    requires Budget(preamble) >= 200_000
    requires forall k :: 0 <= k < |turns| ==> ByteLen(turns[k]) <= 128
    ensures ByteLen(Document(preamble, turns, kept)) > SEGMENT_MAX_BYTES
  {
    DocumentBytes(preamble, turns, kept);
    Grow(turns, kept);
    SnocLast(turns[..kept], turns[kept]);
    UsedAtMost(turns, kept);
  }

  lemma {:induction false} UsedAtMost(turns: seq<string>, n: nat)
    requires n <= |turns| && forall k :: 0 <= k < |turns| ==> ByteLen(turns[k]) <= 128
    ensures Used(turns[..n]) <= 128 * n
  {
    if n > 0 {
      Grow(turns, n - 1);
      SnocLast(turns[..n - 1], turns[n - 1]);
      UsedAtMost(turns, n - 1);
    }
  }
}
